/** The API project list hook (lib/useApiProjects.ts): the five-minute cache
    test, the fetch that appends or replaces a page, the `hasMore` flag, the
    `loadMore` guard, the search switch and the "only projects with
    documents" filter. The network calls are an outcome passed in; the
    cache's storage is read by the caller and passed in as what it held. */
module ApiProjects {
  import opened Wrappers
  import opened Seqs
  import opened Types
  import opened Storage

  /** `CACHE_DURATION`: five minutes in milliseconds. */
  const CacheDuration := 5 * 60 * 1000

  /** `initialPageSize`'s default. */
  const DefaultPageSize := 50

  const FetchFailedMessage := "Failed to fetch projects"

  datatype CacheData = CacheData(projects: seq<ApiProject>, timestamp: int, totalCount: int)

  /** What one request yields: the page's projects and the server's total, or
      a thrown error with its message (`None` when it is not an `Error`). */
  datatype FetchOutcome = Fetched(data: seq<ApiProject>, totalCount: int) | FetchFailed(message: Option<string>)

  // ---------------------------------------------------------------------------
  // Cache

  /** `Date.now() - cacheData.timestamp > CACHE_DURATION`. */
  predicate IsExpired(now: int, timestamp: int) {
    now - timestamp > CacheDuration
  }

  /** `loadFromCache`: the stored entry while it is at most five minutes old. */
  function LoadFromCache(stored: Stored<CacheData>, now: int): (r: Option<CacheData>)
    ensures r.Some? <==> stored.Parsed? && now - stored.value.timestamp <= 300000
    ensures r.Some? ==> r.value == stored.value
  {
    if stored.Parsed? && !IsExpired(now, stored.value.timestamp) then Some(stored.value) else None
  }

  // ---------------------------------------------------------------------------
  // Paging

  /** The `hasMore` a fetch of page `page` leaves: a full page, and the pages
      so far fall short of the total. */
  predicate HasMore(dataLength: int, page: nat, pageSize: nat, totalCount: int) {
    dataLength == pageSize && (page + 1) * pageSize < totalCount
  }

  /** Pages `0..n` one after the other, as appending them in turn gives. */
  function PagesUpTo(pages: nat -> seq<ApiProject>, n: nat): seq<ApiProject> {
    if n == 0 then pages(0) else PagesUpTo(pages, n - 1) + pages(n)
  }

  /** Full pages `0..n` hold `(n + 1) * pageSize` projects. */
  lemma {:induction false} PagesUpToLength(pages: nat -> seq<ApiProject>, n: nat, pageSize: nat)
    requires forall k: nat :: k <= n ==> |pages(k)| == pageSize
    ensures |PagesUpTo(pages, n)| == (n + 1) * pageSize
  {
    if n > 0 {
      PagesUpToLength(pages, n - 1, pageSize);
    }
  }

  /** When the pages so far were full and the flag is set, the list shown is
      shorter than the server's total: there is more to load. */
  lemma HasMoreMeansUnseen(pages: nat -> seq<ApiProject>, page: nat, pageSize: nat, totalCount: int)
    requires forall k: nat :: k <= page ==> |pages(k)| == pageSize
    requires HasMore(|pages(page)|, page, pageSize, totalCount)
    ensures |PagesUpTo(pages, page)| < totalCount
  {
    PagesUpToLength(pages, page, pageSize);
  }

  // ---------------------------------------------------------------------------
  // Document filter

  /** `includedDocuments && includedDocuments.length > 0`. */
  predicate HasDocuments(p: ApiProject) {
    p.includedDocuments.Some? && |p.includedDocuments.value| > 0
  }

  function HasDocumentsTest(): ApiProject -> bool {
    (p: ApiProject) => HasDocuments(p)
  }

  /** `getFilteredProjects`: everything when the filter is off, otherwise
      only the projects with documents, in order. */
  function WithDocuments(projects: seq<ApiProject>, showOnlyWithDocuments: bool): (r: seq<ApiProject>)
    ensures !showOnlyWithDocuments ==> r == projects
    ensures showOnlyWithDocuments ==> forall p :: p in r <==> p in projects && HasDocuments(p)
    ensures |r| <= |projects|
  {
    if !showOnlyWithDocuments then projects else Filter(projects, HasDocumentsTest())
  }

  /** Filtering again changes nothing. */
  lemma WithDocumentsIdempotent(projects: seq<ApiProject>, showOnlyWithDocuments: bool)
    ensures WithDocuments(WithDocuments(projects, showOnlyWithDocuments), showOnlyWithDocuments) == WithDocuments(projects, showOnlyWithDocuments)
  {
    if showOnlyWithDocuments {
      FilterIdempotent(projects, HasDocumentsTest());
    }
  }

  // ---------------------------------------------------------------------------
  // The hook

  class ApiProjectsHook {
    var projects: seq<ApiProject>
    var loading: bool
    var error: Option<string>
    var totalCount: int
    var hasMore: bool
    var currentPage: nat
    const pageSize: nat
    var searchTerm: string
    var isSearching: bool
    var showOnlyWithDocuments: bool

    /** The initial state; `pageSizeOption` is `initialPageSize`. */
    constructor(pageSizeOption: Option<nat>)
      ensures projects == [] && loading && error == None && totalCount == 0 && hasMore
      ensures currentPage == 0 && pageSize == pageSizeOption.GetOr(DefaultPageSize)
      ensures searchTerm == "" && !isSearching && showOnlyWithDocuments
    {
      projects := [];
      loading := true;
      error := None;
      totalCount := 0;
      hasMore := true;
      currentPage := 0;
      pageSize := pageSizeOption.GetOr(DefaultPageSize);
      searchTerm := "";
      isSearching := false;
      showOnlyWithDocuments := true;
    }

    /** The list the hook hands out. */
    function FilteredProjects(): (r: seq<ApiProject>)
      reads this
      ensures r == WithDocuments(projects, showOnlyWithDocuments)
    {
      WithDocuments(projects, showOnlyWithDocuments)
    }

    /** `filteredCount`. */
    function FilteredCount(): (n: nat)
      reads this
      ensures n == |WithDocuments(projects, showOnlyWithDocuments)|
      ensures n <= |projects|
    {
      |FilteredProjects()|
    }

    /** `fetchProjects(page, append)`. A search asks for the first
        `pageSize * (page + 1)` matches and takes their number as the total.
        Success appends or replaces and recomputes `hasMore`; failure keeps
        the list and records the message. */
    method FetchProjects(page: nat, append: bool, outcome: FetchOutcome)
      modifies this
      ensures !loading
      ensures currentPage == old(currentPage) && searchTerm == old(searchTerm) && isSearching == old(isSearching)
      ensures showOnlyWithDocuments == old(showOnlyWithDocuments)
      ensures outcome.Fetched? ==>
        var total := if old(isSearching) && old(searchTerm) != "" then |outcome.data| else outcome.totalCount;
        && projects == (if append then old(projects) + outcome.data else outcome.data)
        && totalCount == total
        && hasMore == HasMore(|outcome.data|, page, pageSize, total)
        && error == None
      ensures outcome.Fetched? && |outcome.data| < pageSize ==> !hasMore
      ensures outcome.FetchFailed? ==>
        && projects == old(projects) && totalCount == old(totalCount) && hasMore == old(hasMore)
        && error == Some(outcome.message.GetOr(FetchFailedMessage))
    {
      loading := true;
      error := None;
      match outcome
      case Fetched(data, serverTotal) =>
        var total := if isSearching && searchTerm != "" then |data| else serverTotal;
        projects := if append then projects + data else data;
        totalCount := total;
        hasMore := |data| == pageSize && (page + 1) * pageSize < total;
        loading := false;
      case FetchFailed(message) =>
        loading := false;
        error := Some(message.GetOr(FetchFailedMessage));
    }

    /** `loadInitialData`: a fresh cache entry is shown as it is unless a
        search is active; otherwise the first page is fetched. */
    method LoadInitialData(cached: Option<CacheData>, outcome: FetchOutcome)
      modifies this
      ensures !loading && currentPage == old(currentPage)
      ensures searchTerm == old(searchTerm) && isSearching == old(isSearching)
      ensures showOnlyWithDocuments == old(showOnlyWithDocuments)
      ensures cached.Some? && !old(isSearching) ==>
        && projects == cached.value.projects && totalCount == cached.value.totalCount
        && hasMore == (|cached.value.projects| < cached.value.totalCount)
        && error == old(error)
      ensures !(cached.Some? && !old(isSearching)) && outcome.Fetched? ==>
        var total := if old(isSearching) && old(searchTerm) != "" then |outcome.data| else outcome.totalCount;
        && projects == outcome.data && totalCount == total && error == None
        && hasMore == HasMore(|outcome.data|, 0, pageSize, total)
      ensures !(cached.Some? && !old(isSearching)) && outcome.FetchFailed? ==>
        && projects == old(projects) && totalCount == old(totalCount) && hasMore == old(hasMore)
        && error == Some(outcome.message.GetOr(FetchFailedMessage))
    {
      if cached.Some? && !isSearching {
        projects := cached.value.projects;
        totalCount := cached.value.totalCount;
        hasMore := |cached.value.projects| < cached.value.totalCount;
        loading := false;
        return;
      }
      FetchProjects(0, false, outcome);
    }

    /** `refetch`: back to the first page, replacing the list. */
    method Refetch(outcome: FetchOutcome)
      modifies this
      ensures currentPage == 0 && !loading
      ensures searchTerm == old(searchTerm) && isSearching == old(isSearching)
      ensures showOnlyWithDocuments == old(showOnlyWithDocuments)
      ensures outcome.Fetched? ==>
        var total := if old(isSearching) && old(searchTerm) != "" then |outcome.data| else outcome.totalCount;
        && projects == outcome.data && totalCount == total && error == None
        && hasMore == HasMore(|outcome.data|, 0, pageSize, total)
      ensures outcome.FetchFailed? ==>
        && projects == old(projects) && totalCount == old(totalCount) && hasMore == old(hasMore)
        && error == Some(outcome.message.GetOr(FetchFailedMessage))
    {
      currentPage := 0;
      FetchProjects(0, false, outcome);
    }

    /** `loadMore` as written: nothing while loading or when there is no more;
        otherwise the page counter advances and the next page is appended.
        The counter advances even when the fetch fails, so the page that
        failed is never asked for again. `requested` is the page fetched. */
    method LoadMore(outcome: FetchOutcome) returns (requested: Option<nat>)
      modifies this
      ensures searchTerm == old(searchTerm) && isSearching == old(isSearching)
      ensures showOnlyWithDocuments == old(showOnlyWithDocuments)
      ensures old(loading) || !old(hasMore) ==>
        && requested == None && projects == old(projects) && currentPage == old(currentPage) && loading == old(loading)
        && totalCount == old(totalCount) && hasMore == old(hasMore) && error == old(error)
      ensures !old(loading) && old(hasMore) ==> requested == Some(old(currentPage) + 1) && currentPage == old(currentPage) + 1 && !loading
      ensures !old(loading) && old(hasMore) && outcome.Fetched? ==>
        var total := if old(isSearching) && old(searchTerm) != "" then |outcome.data| else outcome.totalCount;
        && projects == old(projects) + outcome.data && totalCount == total && error == None
        && hasMore == HasMore(|outcome.data|, old(currentPage) + 1, pageSize, total)
      ensures !old(loading) && old(hasMore) && outcome.FetchFailed? ==>
        && projects == old(projects) && totalCount == old(totalCount) && hasMore == old(hasMore)
        && error == Some(outcome.message.GetOr(FetchFailedMessage))
      ensures !old(loading) && old(hasMore) && outcome.FetchFailed? ==> hasMore
    {
      if loading || !hasMore {
        return None;
      }
      var nextPage := currentPage + 1;
      currentPage := nextPage;
      FetchProjects(nextPage, true, outcome);
      requested := Some(nextPage);
    }

    /** `loadMore` with the counter advanced only once the page has arrived:
        a failed page is asked for again by the next call. */
    method LoadMoreRetrying(outcome: FetchOutcome) returns (requested: Option<nat>)
      modifies this
      ensures searchTerm == old(searchTerm) && isSearching == old(isSearching)
      ensures showOnlyWithDocuments == old(showOnlyWithDocuments)
      ensures old(loading) || !old(hasMore) ==>
        && requested == None && projects == old(projects) && currentPage == old(currentPage) && loading == old(loading)
        && totalCount == old(totalCount) && hasMore == old(hasMore) && error == old(error)
      ensures !old(loading) && old(hasMore) ==> requested == Some(old(currentPage) + 1) && !loading
      ensures !old(loading) && old(hasMore) && outcome.Fetched? ==>
        projects == old(projects) + outcome.data && currentPage == old(currentPage) + 1
      ensures !old(loading) && old(hasMore) && outcome.FetchFailed? ==>
        projects == old(projects) && currentPage == old(currentPage) && hasMore
      ensures !old(loading) && old(hasMore) && outcome.Fetched? ==>
        var total := if old(isSearching) && old(searchTerm) != "" then |outcome.data| else outcome.totalCount;
        && totalCount == total && error == None
        && hasMore == HasMore(|outcome.data|, old(currentPage) + 1, pageSize, total)
      ensures !old(loading) && old(hasMore) && outcome.FetchFailed? ==>
        && projects == old(projects) && totalCount == old(totalCount) && hasMore == old(hasMore)
        && error == Some(outcome.message.GetOr(FetchFailedMessage))
    {
      if loading || !hasMore {
        return None;
      }
      var nextPage := currentPage + 1;
      FetchProjects(nextPage, true, outcome);
      if outcome.Fetched? {
        currentPage := nextPage;
      }
      requested := Some(nextPage);
    }

    /** The list holds exactly the pages up to the current one. */
    ghost predicate ShowsPages(pages: nat -> seq<ApiProject>)
      reads this
    {
      projects == PagesUpTo(pages, currentPage)
    }

    /** `search`: the term is recorded, a non-empty term switches searching
        on, and the first page is fetched. The fetch is modelled with the new
        term in force. */
    method Search(term: string, outcome: FetchOutcome)
      modifies this
      ensures searchTerm == term && isSearching == (term != "") && currentPage == 0 && !loading
      ensures outcome.Fetched? && term != "" ==> projects == outcome.data && totalCount == |outcome.data| && !hasMore
      ensures outcome.Fetched? && term == "" ==> projects == outcome.data && totalCount == outcome.totalCount
      ensures outcome.Fetched? ==>
        var total := if term != "" then |outcome.data| else outcome.totalCount;
        hasMore == HasMore(|outcome.data|, 0, pageSize, total) && error == None
      ensures outcome.FetchFailed? ==>
        && projects == old(projects) && totalCount == old(totalCount) && hasMore == old(hasMore)
        && error == Some(outcome.message.GetOr(FetchFailedMessage))
      ensures showOnlyWithDocuments == old(showOnlyWithDocuments)
    {
      searchTerm := term;
      isSearching := term != "";
      currentPage := 0;
      FetchProjects(0, false, outcome);
    }

    /** `clearSearch`. */
    method ClearSearch(outcome: FetchOutcome)
      modifies this
      ensures searchTerm == "" && !isSearching && currentPage == 0 && !loading
      ensures outcome.Fetched? ==>
        && projects == outcome.data && totalCount == outcome.totalCount
        && hasMore == HasMore(|outcome.data|, 0, pageSize, outcome.totalCount) && error == None
      ensures outcome.FetchFailed? ==>
        && projects == old(projects) && totalCount == old(totalCount) && hasMore == old(hasMore)
        && error == Some(outcome.message.GetOr(FetchFailedMessage))
      ensures showOnlyWithDocuments == old(showOnlyWithDocuments)
    {
      searchTerm := "";
      isSearching := false;
      currentPage := 0;
      FetchProjects(0, false, outcome);
    }

    /** `toggleDocumentFilter`. */
    method ToggleDocumentFilter()
      modifies this
      ensures showOnlyWithDocuments == !old(showOnlyWithDocuments)
      ensures projects == old(projects) && loading == old(loading) && hasMore == old(hasMore)
      ensures currentPage == old(currentPage) && totalCount == old(totalCount) && error == old(error)
      ensures searchTerm == old(searchTerm) && isSearching == old(isSearching)
    {
      showOnlyWithDocuments := !showOnlyWithDocuments;
    }
  }

  /** With the retrying `loadMore`, a list that shows pages `0..currentPage`
      keeps doing so whether the next page arrives or fails. */
  method RetryingKeepsPages(hook: ApiProjectsHook, pages: nat -> seq<ApiProject>, outcome: FetchOutcome)
    requires hook.ShowsPages(pages)
    requires outcome.Fetched? ==> outcome.data == pages(hook.currentPage + 1)
    modifies hook
    ensures hook.ShowsPages(pages)
  {
    var _ := hook.LoadMoreRetrying(outcome);
  }

  /** As written, one failed `loadMore` followed by a successful one shows
      page 0 and page 2: page 1 is skipped for good. */
  method FailedPageIsSkipped(page0: seq<ApiProject>, page2: seq<ApiProject>) returns (hook: ApiProjectsHook, first: Option<nat>, second: Option<nat>)
    requires |page0| == DefaultPageSize
    ensures first == Some(1) && second == Some(2)
    ensures hook.projects == page0 + page2
  {
    hook := new ApiProjectsHook(None);
    hook.FetchProjects(0, false, Fetched(page0, 1000));
    first := hook.LoadMore(FetchFailed(None));
    second := hook.LoadMore(Fetched(page2, 1000));
  }
}
