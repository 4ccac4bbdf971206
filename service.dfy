/**
 * The network gateway: the request for one page of the feed, and the
 * normalisation of whatever the HTTP call produced into exactly one of the
 * two callbacks, `onSuccess(items)` or `onError(message)`.
 */
module Service {
  import opened Options
  import opened Model

  /** The message used when neither the error body nor the exception carries one. */
  const UNKNOWN_ERROR: string := "Erro desconhecido"

  /** The path template of the feed endpoint, up to the page number. */
  const FEED_PATH: string := "feeds/b904b430-123a-4f93-8cf4-5365adf97892/posts/page/"

  /** What the HTTP call delivered: a response (successful or not), or a transport failure. */
  datatype HttpOutcome =
    | Response(isSuccessful: bool, body: Option<NewsFetchResponse>, errorBody: Option<string>)
    | TransportFailure(message: Option<string>)

  /** The one callback invoked: `onSuccess(news)` or `onError(error)`. */
  datatype FetchResult = Success(news: seq<News>) | Failure(error: string)

  /** The top-level `fetchNews`: exactly one callback for every outcome. */
  function FetchNews(outcome: HttpOutcome): (r: FetchResult)
    ensures r.Success? <==> outcome.Response? && outcome.isSuccessful
    ensures r.Success? ==> r.news == (if outcome.body.Some? then outcome.body.value.items else [])
    ensures outcome.Response? && !outcome.isSuccessful ==>
      r.error == (if outcome.errorBody.Some? then outcome.errorBody.value else UNKNOWN_ERROR)
    ensures outcome.TransportFailure? ==>
      r.error == (if outcome.message.Some? then outcome.message.value else UNKNOWN_ERROR)
  {
    match outcome
    case Response(ok, body, errorBody) =>
      if ok then Success(if body.Some? then body.value.items else [])
      else Failure(if errorBody.Some? then errorBody.value else UNKNOWN_ERROR)
    case TransportFailure(message) =>
      Failure(if message.Some? then message.value else UNKNOWN_ERROR)
  }

  /** Example: a null body and an empty body both mean "no items", which the controller still stores. */
  lemma NullBodyIsEmpty()
    ensures FetchNews(Response(true, None, None)) == Success([])
    ensures FetchNews(Response(true, Some(NewsFetchResponse([])), None)) == Success([])
  {
  }

  // ---------------------------------------------------------------------------
  // The request path: `@Path("page")` renders the Int in decimal.
  // ---------------------------------------------------------------------------

  function DigitChar(d: nat): char
    requires d < 10
  {
    "0123456789"[d]
  }

  function NatToString(n: nat): (s: string)
    ensures |s| > 0
    ensures forall i :: 0 <= i < |s| ==> '0' <= s[i] <= '9'
    decreases n
  {
    if n < 10 then [DigitChar(n)]
    else NatToString(n / 10) + [DigitChar(n % 10)]
  }

  /** Kotlin's `Int.toString()`: decimal digits, with a leading '-' for negatives. */
  function IntToString(i: int): string
  {
    if i < 0 then "-" + NatToString(-i) else NatToString(i)
  }

  function ParseNat(s: string): Option<nat>
  {
    if s == [] then None
    else if !('0' <= s[|s| - 1] <= '9') then None
    else
      var digit := (s[|s| - 1] as int) - ('0' as int);
      if |s| == 1 then Some(digit)
      else
        match ParseNat(s[..|s| - 1])
        case None => None
        case Some(prefix) => Some(prefix * 10 + digit)
  }

  function ParseInt(s: string): Option<int>
  {
    if |s| > 0 && s[0] == '-' then
      match ParseNat(s[1..])
      case None => None
      case Some(n) => Some(-(n as int))
    else
      match ParseNat(s)
      case None => None
      case Some(n) => Some(n)
  }

  /** The relative URL requested for a page. */
  function RequestPath(page: int): string
  {
    FEED_PATH + IntToString(page)
  }

  /** The page a server reads back from a request path; `None` for anything else. */
  function PageOfPath(path: string): Option<int>
  {
    if |path| >= |FEED_PATH| && path[..|FEED_PATH|] == FEED_PATH then ParseInt(path[|FEED_PATH|..])
    else None
  }

  lemma {:induction false} ParseNatToString(n: nat)
    ensures ParseNat(NatToString(n)) == Some(n)
    decreases n
  {
    if n >= 10 {
      ParseNatToString(n / 10);
      var s := NatToString(n);
      assert s[..|s| - 1] == NatToString(n / 10);
    }
  }

  lemma SplitAfterPrefix(prefix: string, rest: string)
    ensures (prefix + rest)[..|prefix|] == prefix && (prefix + rest)[|prefix|..] == rest
  {
  }

  lemma ParseIntToString(i: int)
    ensures ParseInt(IntToString(i)) == Some(i)
  {
    if i < 0 {
      var n: nat := -i;
      assert IntToString(i) == "-" + NatToString(n);
      ParseNegative(n);
    } else {
      assert IntToString(i) == NatToString(i);
      ParseNonNegative(i);
    }
  }

  lemma ParseNegative(n: nat)
    requires n > 0
    ensures ParseInt("-" + NatToString(n)) == Some(-(n as int))
  {
    var digits := NatToString(n);
    var s := "-" + digits;
    ParseNatToString(n);
    assert s[0] == '-' && s[1..] == digits;
  }

  lemma ParseNonNegative(n: nat)
    ensures ParseInt(NatToString(n)) == Some(n)
  {
    var s := NatToString(n);
    ParseNatToString(n);
    assert '0' <= s[0] <= '9';
  }

  /** The page reaches the service unchanged: it can be read back from the request path. */
  lemma PageRoundTrip(page: int)
    ensures PageOfPath(RequestPath(page)) == Some(page)
  {
    SplitAfterPrefix(FEED_PATH, IntToString(page));
    ParseIntToString(page);
  }
}
