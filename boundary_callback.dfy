/**
 * The paging controller. It keeps a 1-based page cursor and a busy flag. Three
 * triggers (zero items loaded, item at end loaded, refresh) start a fetch
 * unless one is already in flight. The fetch's success continuation writes the
 * page to the cache (clearing it first on refresh) and then advances the
 * cursor. Its error continuation logs the message. Either continuation clears
 * the flag.
 *
 * The asynchronous call is split in two: `Begin` is the synchronous part of
 * `requestAndSaveData`, and `Finish` is the callback that runs later.
 */
module Paging {
  import opened Options
  import opened Model
  import opened Dao
  import opened Cache
  import opened Service

  /** The fetch in flight, as its callbacks captured it. */
  datatype Request = Request(page: int, clearCache: bool)

  /** The controller's state; `networkErrors` is the sequence of values posted to the error stream. */
  datatype Paging = Paging(
    lastRequestedPage: int,
    isRequestInProgress: bool,
    inFlight: Option<Request>,
    networkErrors: seq<string>)

  const INITIAL: Paging := Paging(1, false, None, [])

  /** The cursor is a page number, and the flag is set exactly while a fetch for the cursor is in flight. */
  predicate Inv(p: Paging)
  {
    && p.lastRequestedPage >= 1
    && (p.isRequestInProgress <==> p.inFlight.Some?)
    && (p.inFlight.Some? ==> p.inFlight.value.page == p.lastRequestedPage)
  }

  /** The state after a trigger, and the page handed to the gateway, if any. */
  datatype Began = Began(state: Paging, fetch: Option<int>)

  /** The state after a callback, and the cache writes it performed, in order. */
  datatype Finished = Finished(state: Paging, writes: seq<Write>)

  /** `requestAndSaveData(clearCache)` up to the enqueued call. */
  function Begin(p: Paging, clearCache: bool): (r: Began)
    ensures p.isRequestInProgress ==> r == Began(p, None)
    ensures !p.isRequestInProgress ==>
      && r.fetch == Some(if clearCache then 1 else p.lastRequestedPage)
      && r.state.isRequestInProgress
      && r.state.lastRequestedPage == r.fetch.value
      && r.state.inFlight == Some(Request(r.fetch.value, clearCache))
      && r.state.networkErrors == p.networkErrors
  {
    if p.isRequestInProgress then Began(p, None)
    else
      var page := if clearCache then 1 else p.lastRequestedPage;
      Began(Paging(page, true, Some(Request(page, clearCache)), p.networkErrors), Some(page))
  }

  /** The callback of the fetch in flight: the success or the error continuation. */
  function Finish(p: Paging, result: FetchResult): (r: Finished)
    requires p.inFlight.Some?
    ensures !r.state.isRequestInProgress && r.state.inFlight.None?
    ensures result.Success? ==>
      && r.state.lastRequestedPage == p.lastRequestedPage + 1
      && r.state.networkErrors == p.networkErrors
      && r.writes == (if p.inFlight.value.clearCache then [Cleared] else []) + [Inserted(result.news)]
    ensures result.Failure? ==>
      && r.state.lastRequestedPage == p.lastRequestedPage
      && r.state.networkErrors == p.networkErrors + [result.error]
      && r.writes == []
  {
    match result
    case Success(news) =>
      var writes := if p.inFlight.value.clearCache then [Cleared, Inserted(news)] else [Inserted(news)];
      Finished(Paging(p.lastRequestedPage + 1, false, None, p.networkErrors), writes)
    case Failure(error) =>
      Finished(Paging(p.lastRequestedPage, false, None, p.networkErrors + [error]), [])
  }

  /** A fresh controller is at page 1 and idle. */
  lemma InitialInv()
    ensures Inv(INITIAL) && INITIAL.lastRequestedPage == 1 && !INITIAL.isRequestInProgress
  {
  }

  lemma BeginInv(p: Paging, clearCache: bool)
    requires Inv(p)
    ensures Inv(Begin(p, clearCache).state)
  {
  }

  lemma FinishInv(p: Paging, result: FetchResult)
    requires Inv(p) && p.isRequestInProgress
    ensures Inv(Finish(p, result).state)
  {
  }

  /** While busy, all three triggers do nothing, and refresh does not even reset the cursor. */
  lemma BusyTriggersAreNoOps(p: Paging)
    requires p.isRequestInProgress
    ensures Begin(p, false) == Began(p, None)
    ensures Begin(p, true) == Began(p, None)
    ensures Begin(p, true).state.lastRequestedPage == p.lastRequestedPage
  {
  }

  /** An idle refresh fetches page 1; once it succeeds the table holds exactly the fetched batch and the cursor is 2. */
  lemma RefreshReplacesCache(p: Paging, rows: map<string, News>, news: seq<News>)
    requires Inv(p) && !p.isRequestInProgress
    ensures var began := Begin(p, true);
      && began.fetch == Some(1)
      && var done := Finish(began.state, Success(news));
         && done.state.lastRequestedPage == 2
         && ApplyAll(rows, done.writes).Keys == IdsOf(news)
  {
    var began := Begin(p, true);
    ClearThenInsert(rows, news);
  }

  /** A normal success upserts the page and leaves every other row as it was. */
  lemma AppendKeepsOtherRows(p: Paging, rows: map<string, News>, news: seq<News>)
    requires p.inFlight.Some? && !p.inFlight.value.clearCache
    ensures var table := ApplyAll(rows, Finish(p, Success(news)).writes);
      && table == UpsertAll(rows, news)
      && forall id :: id in rows && id !in IdsOf(news) ==> id in table && table[id] == rows[id]
  {
    var writes := Finish(p, Success(news)).writes;
    assert writes == [Inserted(news)];
    assert writes[..0] == [];
    assert ApplyAll(rows, writes) == Apply(ApplyAll(rows, []), Inserted(news));
  }

  // ---------------------------------------------------------------------------
  // Runs: triggers and deliveries in any order
  // ---------------------------------------------------------------------------

  /** What can happen to the controller: one of its triggers fires, or the gateway answers. */
  datatype Event =
    | ZeroItemsLoaded
    | ItemAtEndLoaded(itemAtEnd: News)
    | Refresh
    | Delivered(outcome: HttpOutcome)

  /** The controller state, the pages fetched, the cache writes, and the callbacks delivered so far. */
  datatype Trace = Trace(state: Paging, fetches: seq<int>, writes: seq<Write>, delivered: nat)

  function Step(t: Trace, e: Event): Trace
  {
    match e
    case Delivered(outcome) =>
      // A callback only exists for a call that was enqueued.
      if t.state.inFlight.None? then t
      else
        var done := Finish(t.state, FetchNews(outcome));
        Trace(done.state, t.fetches, t.writes + done.writes, t.delivered + 1)
    case _ =>
      var began := Begin(t.state, e.Refresh?);
      Trace(began.state, t.fetches + (if began.fetch.Some? then [began.fetch.value] else []), t.writes, t.delivered)
  }

  function Run(events: seq<Event>): Trace
  {
    if events == [] then Trace(INITIAL, [], [], 0)
    else Step(Run(events[..|events| - 1]), events[|events| - 1])
  }

  /**
   * Over any run, at most one fetch is in flight: the pages fetched outnumber the callbacks
   * delivered by one exactly while the flag is set. Every fetched page is at least 1.
   */
  lemma {:induction false} RunKeepsOneFetchInFlight(events: seq<Event>)
    ensures var t := Run(events);
      && Inv(t.state)
      && |t.fetches| == t.delivered + (if t.state.isRequestInProgress then 1 else 0)
      && forall k :: 0 <= k < |t.fetches| ==> t.fetches[k] >= 1
  {
    if events != [] {
      var before := Run(events[..|events| - 1]);
      RunKeepsOneFetchInFlight(events[..|events| - 1]);
      var e := events[|events| - 1];
      if e.Delivered? {
        if before.state.inFlight.Some? {
          FinishInv(before.state, FetchNews(e.outcome));
        }
      } else {
        BeginInv(before.state, e.Refresh?);
      }
    }
  }

  /** Between a refresh and its callback, the cursor stays at 1 and no other page is fetched. */
  lemma RefreshThenTriggers(p: Paging, more: seq<Event>)
    requires Inv(p) && !p.isRequestInProgress
    requires forall k :: 0 <= k < |more| ==> !more[k].Delivered?
    ensures var t := Steps(Trace(Begin(p, true).state, [1], [], 0), more);
      && t.fetches == [1]
      && t.state == Begin(p, true).state
  {
    RefreshStepsIdle(Trace(Begin(p, true).state, [1], [], 0), more);
  }

  function Steps(t: Trace, events: seq<Event>): Trace
  {
    if events == [] then t
    else Step(Steps(t, events[..|events| - 1]), events[|events| - 1])
  }

  lemma {:induction false} RefreshStepsIdle(t: Trace, more: seq<Event>)
    requires t.state.isRequestInProgress
    requires forall k :: 0 <= k < |more| ==> !more[k].Delivered?
    ensures Steps(t, more) == t
  {
    if more != [] {
      var init := more[..|more| - 1];
      assert forall k :: 0 <= k < |init| ==> init[k] == more[k];
      RefreshStepsIdle(t, init);
    }
  }

  // ---------------------------------------------------------------------------
  // The controller object
  // ---------------------------------------------------------------------------

  class NewsBoundaryCallback {
    const cache: LocalCache
    var lastRequestedPage: int
    var isRequestInProgress: bool
    /** The request whose callbacks are pending with the gateway. */
    var inFlight: Option<Request>
    /** Every value posted to `networkErrors`, in order. */
    var networkErrors: seq<string>

    function State(): Paging
      reads this
    {
      Paging(lastRequestedPage, isRequestInProgress, inFlight, networkErrors)
    }

    ghost predicate Valid()
      reads this, cache, cache.dao
    {
      Inv(State()) && cache.Valid()
    }

    constructor(cache: LocalCache)
      requires cache.Valid()
      ensures Valid() && State() == INITIAL && this.cache == cache
    {
      this.cache := cache;
      lastRequestedPage := 1;
      isRequestInProgress := false;
      inFlight := None;
      networkErrors := [];
    }

    /** Returns the page handed to the gateway, or `None` when a fetch is already in flight. */
    method RequestAndSaveData(clearCache: bool) returns (fetch: Option<int>)
      requires Valid()
      modifies this
      ensures Valid()
      ensures Began(State(), fetch) == Begin(old(State()), clearCache)
    {
      if isRequestInProgress {
        return None;
      }
      if clearCache {
        lastRequestedPage := 1;
      }
      isRequestInProgress := true;
      inFlight := Some(Request(lastRequestedPage, clearCache));
      fetch := Some(lastRequestedPage);
    }

    method OnZeroItemsLoaded() returns (fetch: Option<int>)
      requires Valid()
      modifies this
      ensures Valid()
      ensures Began(State(), fetch) == Begin(old(State()), false)
    {
      fetch := RequestAndSaveData(false);
    }

    method OnItemAtEndLoaded(itemAtEnd: News) returns (fetch: Option<int>)
      requires Valid()
      modifies this
      ensures Valid()
      ensures Began(State(), fetch) == Begin(old(State()), false)
    {
      fetch := RequestAndSaveData(false);
    }

    method Refresh() returns (fetch: Option<int>)
      requires Valid()
      modifies this
      ensures Valid()
      ensures Began(State(), fetch) == Begin(old(State()), true)
    {
      fetch := RequestAndSaveData(true);
    }

    /** The success continuation: write the page (after a clear on refresh), then advance and go idle. */
    method OnSuccess(news: seq<News>)
      requires Valid() && isRequestInProgress
      modifies this, cache, cache.dao
      ensures Valid()
      ensures State() == Finish(old(State()), Success(news)).state
      ensures cache.writes == old(cache.writes) + Finish(old(State()), Success(news)).writes
      ensures cache.dao.rows == ApplyAll(old(cache.dao.rows), Finish(old(State()), Success(news)).writes)
    {
      if inFlight.value.clearCache {
        cache.Clear();
        cache.Insert(news);
        assert [Cleared, Inserted(news)][..1] == [Cleared];
      } else {
        cache.Insert(news);
        assert [Inserted(news)][..0] == [];
      }
      lastRequestedPage := lastRequestedPage + 1;
      isRequestInProgress := false;
      inFlight := None;
    }

    /** The error continuation: post the message and go idle; the cursor stays. */
    method OnError(error: string)
      requires Valid() && isRequestInProgress
      modifies this
      ensures Valid()
      ensures State() == Finish(old(State()), Failure(error)).state
    {
      networkErrors := networkErrors + [error];
      isRequestInProgress := false;
      inFlight := None;
    }

    /** The gateway's answer, routed to exactly one continuation. */
    method Deliver(outcome: HttpOutcome)
      requires Valid() && isRequestInProgress
      modifies this, cache, cache.dao
      ensures Valid()
      ensures State() == Finish(old(State()), FetchNews(outcome)).state
      ensures cache.writes == old(cache.writes) + Finish(old(State()), FetchNews(outcome)).writes
    {
      match FetchNews(outcome)
      case Success(news) => OnSuccess(news);
      case Failure(error) => OnError(error);
    }
  }
}
