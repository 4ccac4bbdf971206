/**
 * The repository: one paging controller for its whole life, a paged view of
 * the cache's ordered query, and a refresh that goes to that controller.
 */
module Repository {
  import opened Options
  import opened Model
  import opened Cache
  import opened Paging

  /** Number of rows per page of the paged view. */
  const DATABASE_PAGE_SIZE: nat := 10

  /** What `LivePagedListBuilder(source, pageSize).setBoundaryCallback(callback)` is built from. */
  datatype PagedListConfig = PagedListConfig(source: LocalCache, pageSize: nat, boundaryCallback: NewsBoundaryCallback)

  /** `NewsFetchResult(data, networkErrors)`: the error stream is the controller's `networkErrors`. */
  datatype NewsFetchResult = NewsFetchResult(data: PagedListConfig, networkErrors: NewsBoundaryCallback)

  class NewsRepository {
    const cache: LocalCache
    const boundaryCallback: NewsBoundaryCallback

    ghost predicate Valid()
      reads this, boundaryCallback, cache, cache.dao
    {
      boundaryCallback.cache == cache && boundaryCallback.Valid()
    }

    constructor(cache: LocalCache)
      requires cache.Valid()
      ensures Valid() && this.cache == cache
      ensures fresh(boundaryCallback) && boundaryCallback.State() == INITIAL
    {
      this.cache := cache;
      boundaryCallback := new NewsBoundaryCallback(cache);
    }

    /** A new paged view over the cache, driven by the one controller, with that controller's errors. */
    method FetchNews() returns (r: NewsFetchResult)
      ensures r.data == PagedListConfig(cache, DATABASE_PAGE_SIZE, boundaryCallback)
      ensures r.networkErrors == boundaryCallback
    {
      r := NewsFetchResult(PagedListConfig(cache, DATABASE_PAGE_SIZE, boundaryCallback), boundaryCallback);
    }

    /** Exactly the controller's `refresh`. */
    method RefreshNews() returns (fetch: Option<int>)
      requires Valid()
      modifies boundaryCallback
      ensures Valid()
      ensures Began(boundaryCallback.State(), fetch) == Begin(old(boundaryCallback.State()), true)
    {
      fetch := boundaryCallback.Refresh();
    }
  }

  /**
   * Paging state persists across calls: two `fetchNews` results share one controller, and a
   * refresh through the repository is seen by both.
   */
  method SharedController(repository: NewsRepository) returns (first: NewsFetchResult, second: NewsFetchResult)
    requires repository.Valid() && !repository.boundaryCallback.isRequestInProgress
    modifies repository.boundaryCallback
    ensures first.data.boundaryCallback == second.data.boundaryCallback == first.networkErrors
    ensures first.data.boundaryCallback.isRequestInProgress && first.data.boundaryCallback.lastRequestedPage == 1
  {
    first := repository.FetchNews();
    var fetch := repository.RefreshNews();
    second := repository.FetchNews();
  }
}
