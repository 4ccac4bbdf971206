/**
 * The parts of the news screen that decide something: whether a refresh may
 * download (WiFi, or mobile data when the preference allows both networks),
 * the order of the initial load, and the scroll listener that shows the
 * back-to-top button once the list is scrolled past its third item.
 * Connectivity and the preference are parameters.
 */
module Activity {
  const WIFI_ONLY_MESSAGE: string := "Erro ao atualizar o feed. Os dados devem ser baixados por WiFi."
  const NO_NETWORK_MESSAGE: string := "Erro ao atualizar o feed. Não há nenhuma rede conectada."

  /** The outcome of `refreshNews()`: ask the view model to refresh, or show a snackbar. */
  datatype RefreshDecision = FetchNewData | Refuse(snackbar: string)

  /** `fetchNewData` and the snackbar of `refreshNews()`. */
  function DecideRefresh(isWifiConnected: bool, useBothNetworks: bool, isMobileConnected: bool): (r: RefreshDecision)
    ensures r.FetchNewData? <==> isWifiConnected || (useBothNetworks && isMobileConnected)
    ensures r == Refuse(WIFI_ONLY_MESSAGE) <==> !isWifiConnected && !useBothNetworks && isMobileConnected
    ensures r == Refuse(NO_NETWORK_MESSAGE) <==> !isWifiConnected && !isMobileConnected
  {
    if isWifiConnected then FetchNewData
    else if useBothNetworks && isMobileConnected then FetchNewData
    else if !useBothNetworks && isMobileConnected then Refuse(WIFI_ONLY_MESSAGE)
    else Refuse(NO_NETWORK_MESSAGE)
  }

  /** WiFi always downloads, whatever the preference. */
  lemma WifiAlwaysFetches(useBothNetworks: bool, isMobileConnected: bool)
    ensures DecideRefresh(true, useBothNetworks, isMobileConnected) == FetchNewData
  {
  }

  /** What the screen does, in order. */
  datatype Action = ShowRefreshing | FetchNews | RefreshNews | Snackbar(text: string)

  function RefreshActions(isWifiConnected: bool, useBothNetworks: bool, isMobileConnected: bool): seq<Action>
  {
    match DecideRefresh(isWifiConnected, useBothNetworks, isMobileConnected)
    case FetchNewData => [RefreshNews]
    case Refuse(text) => [Snackbar(text)]
  }

  /** `requestInitialNews()`: the spinner, the initial fetch from the cache, then the refresh policy. */
  function InitialLoad(isWifiConnected: bool, useBothNetworks: bool, isMobileConnected: bool): (r: seq<Action>)
    ensures |r| == 3 && r[0] == ShowRefreshing && r[1] == FetchNews
    ensures RefreshNews in r <==> isWifiConnected || (useBothNetworks && isMobileConnected)
    ensures forall k :: 0 <= k < |r| && r[k] == RefreshNews ==> k > 1
  {
    [ShowRefreshing, FetchNews] + RefreshActions(isWifiConnected, useBothNetworks, isMobileConnected)
  }

  /** A call on the floating button. */
  datatype FabCall = Show | Hide

  /** `onScrolled`: the new `activated` flag and the call on the button, if any. */
  function Scrolled(activated: bool, firstVisibleItem: int): (bool, seq<FabCall>)
  {
    if firstVisibleItem > 2 && !activated then (true, [Show])
    else if firstVisibleItem <= 2 && activated then (false, [Hide])
    else (activated, [])
  }

  /** The flag and the calls after a sequence of scrolls, starting inactive. */
  function ScrollRun(positions: seq<int>): (bool, seq<FabCall>)
  {
    if positions == [] then (false, [])
    else
      var before := ScrollRun(positions[..|positions| - 1]);
      var after := Scrolled(before.0, positions[|positions| - 1]);
      (after.0, before.1 + after.1)
  }

  /**
   * After any scrolls the flag says whether the last position is past 2, and the button calls
   * alternate Show, Hide, Show, … so it is never shown or hidden twice in a row.
   */
  lemma {:induction false} ScrollRunAlternates(positions: seq<int>)
    ensures var (activated, calls) := ScrollRun(positions);
      && (positions != [] ==> activated == (positions[|positions| - 1] > 2))
      && (activated <==> |calls| % 2 == 1)
      && forall k :: 0 <= k < |calls| ==> calls[k] == (if k % 2 == 0 then Show else Hide)
  {
    if positions != [] {
      ScrollRunAlternates(positions[..|positions| - 1]);
    }
  }

  /** The listener object; `activated` is its only state. */
  class FabScrollListener {
    var activated: bool
    /** The calls made on the button, in order. */
    var calls: seq<FabCall>

    constructor()
      ensures !activated && calls == []
    {
      activated := false;
      calls := [];
    }

    method OnScrolled(firstVisibleItem: int)
      modifies this
      ensures var after := Scrolled(old(activated), firstVisibleItem);
        activated == after.0 && calls == old(calls) + after.1
      ensures activated == (firstVisibleItem > 2)
    {
      if firstVisibleItem > 2 && !activated {
        activated := true;
        calls := calls + [Show];
      } else if firstVisibleItem <= 2 && activated {
        activated := false;
        calls := calls + [Hide];
      }
    }
  }
}
