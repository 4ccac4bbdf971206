/**
 * The domain records of the app: a news item (one row of the `news` table)
 * and the request status shown by the list's footer row.
 */
module Model {
  import opened Options

  /** A news item; `id` is the table's primary key, `publication` is epoch milliseconds (UTC). */
  datatype News = News(
    id: string,
    image: Option<string>,
    chapeu: Option<string>,
    title: Option<string>,
    summary: Option<string>,
    url: Option<string>,
    publication: Option<int>)

  /** The decoded API response: the kept news items, in order. */
  datatype NewsFetchResponse = NewsFetchResponse(items: seq<News>)

  datatype Status = RUNNING | SUCCESS | FAILED

  /** A request status; equality is structural, as for a Kotlin data class. */
  datatype NetworkState = NetworkState(status: Status, msg: Option<string>)

  /** The fixed states; `Error` builds the third kind. */
  const LOADED: NetworkState := NetworkState(SUCCESS, None)
  const LOADING: NetworkState := NetworkState(RUNNING, None)

  function Error(msg: Option<string>): (s: NetworkState)
    ensures s.status == FAILED && s.msg == msg
    ensures s != LOADED && s != LOADING
  {
    NetworkState(FAILED, msg)
  }
}
