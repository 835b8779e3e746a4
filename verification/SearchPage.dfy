/**
 The search page's result pager. `searchAlbums` loads page 1 of a query and
 replaces the list; `loadMoreAlbums` loads the next page and merges it (see
 `AlbumMerge`). Each handler is split at its `await`: `Begin…` is the
 synchronous part, which returns the request it issues (or none), and
 `Finish…` applies the reply. `Search` and `LoadMore` are the handlers run
 to completion without anything in between.
 */
module SearchPage {
  import opened Options
  import opened JsText
  import opened Api
  import opened AlbumMerge

  const AlbumsPerPage := 10

  const InvalidQueryMessage := "La recherche n'a pas pu être effectuée. Veuillez vérifier votre requête."
  const SearchFailedMessage := "Une erreur est survenue lors de la recherche. Veuillez réessayer plus tard."
  const LoadMoreFailedMessage := "Impossible de charger plus d'albums. Veuillez réessayer."

  /** The page's state hooks that the handlers read or write. */
  datatype PageState = PageState(
    searchQuery: string,
    albums: seq<Album>,
    isLoading: bool,
    hasSearched: bool,
    errorMessage: Option<string>,
    currentPage: int,
    hasMoreAlbums: bool,
    isLoadingMore: bool)

  /** A transition's new state and the request it issued, if any. */
  datatype Step = Step(state: PageState, request: Option<Request>)

  /** The state on first render: nothing typed, nothing shown, page 1, and
      paging not yet stopped, so the load-more guard alone would let a press
      through before any search (only the hidden button prevents it). */
  function Initial(): (s: PageState)
    ensures s.searchQuery == "" && s.albums == []
    ensures !s.isLoading && !s.hasSearched && !s.isLoadingMore
    ensures s.errorMessage == None && s.currentPage == 1 && s.hasMoreAlbums
    ensures !LoadMoreBlocked(s)
  {
    PageState("", [], false, false, None, 1, true, false)
  }

  /** Typing in (or clearing) the search box. */
  function EditQuery(s: PageState, text: string): PageState {
    s.(searchQuery := text)
  }

  // ---------------------------------------------------------------------------
  // searchAlbums

  function BeginSearch(s: PageState): Step {
    if Trim(s.searchQuery) == [] then Step(s, None)
    else
      var loading := s.(isLoading := true, hasSearched := true, errorMessage := None, currentPage := 1);
      Step(loading, Some(SearchAlbumsRequest(s.searchQuery, Some(1), Some(AlbumsPerPage))))
  }

  function FinishSearch(s: PageState, reply: ApiResult<seq<Album>>): PageState {
    match reply
    case Ok(data) =>
      s.(albums := data, hasMoreAlbums := |data| == AlbumsPerPage, isLoading := false)
    case Err(status) =>
      var message := if status == Some(400) then InvalidQueryMessage else SearchFailedMessage;
      s.(albums := [], hasMoreAlbums := false, errorMessage := Some(message), isLoading := false)
  }

  /** `searchAlbums` with `reply` as the answer to its request. A blank query
      does nothing. Otherwise page 1 is requested and the list is replaced by
      it (never merged); a failure empties the list, stops paging and shows the
      message chosen by the status. */
  function Search(s: PageState, reply: ApiResult<seq<Album>>): (r: Step)
    ensures r.request.None? <==> IsBlank(s.searchQuery)
    ensures r.request.None? ==> r.state == s
    ensures r.request.Some? ==>
      && r.request.value == SearchAlbums(s.searchQuery, 1, AlbumsPerPage)
      && r.state.currentPage == 1
      && r.state.hasSearched && !r.state.isLoading
      && r.state.searchQuery == s.searchQuery
      && r.state.isLoadingMore == s.isLoadingMore
    ensures r.request.Some? && reply.Ok? ==>
      && r.state.albums == reply.value
      && (r.state.hasMoreAlbums <==> |reply.value| == AlbumsPerPage)
      && r.state.errorMessage == None
    ensures r.request.Some? && reply.Err? ==>
      && r.state.albums == []
      && !r.state.hasMoreAlbums
      && r.state.errorMessage == Some(if reply.status == Some(400) then InvalidQueryMessage else SearchFailedMessage)
  {
    var begun := BeginSearch(s);
    if begun.request.None? then begun
    else Step(FinishSearch(begun.state, reply), begun.request)
  }

  // ---------------------------------------------------------------------------
  // loadMoreAlbums

  /** No load while a search or another load is pending, nor after the last page. */
  predicate LoadMoreBlocked(s: PageState) {
    s.isLoading || s.isLoadingMore || !s.hasMoreAlbums
  }

  function BeginLoadMore(s: PageState): Step {
    if LoadMoreBlocked(s) then Step(s, None)
    else
      Step(s.(isLoadingMore := true),
           Some(SearchAlbumsRequest(s.searchQuery, Some(s.currentPage + 1), Some(AlbumsPerPage))))
  }

  /** Applies the reply to the request for page `nextPage`; the merge reads the
      albums shown when the reply arrives. */
  function FinishLoadMore(s: PageState, nextPage: int, reply: ApiResult<seq<Album>>): PageState {
    match reply
    case Ok(moreAlbums) =>
      s.(albums := Merge(s.albums, moreAlbums), currentPage := nextPage,
         hasMoreAlbums := |moreAlbums| == AlbumsPerPage, isLoadingMore := false)
    case Err(_) =>
      s.(errorMessage := Some(LoadMoreFailedMessage), isLoadingMore := false)
  }

  /** `loadMoreAlbums` with `reply` as the answer to its request. Blocked, it
      neither fetches nor changes anything. Otherwise it requests page
      `currentPage + 1`; on success the page is merged after the shown albums,
      the counter advances by one and paging continues iff the page was full;
      on failure only the message changes. Either way no load is left pending. */
  function LoadMore(s: PageState, reply: ApiResult<seq<Album>>): (r: Step)
    ensures r.request.None? <==> (s.isLoading || s.isLoadingMore || !s.hasMoreAlbums)
    ensures r.request.None? ==> r.state == s
    ensures r.request.Some? ==>
      && r.request.value == SearchAlbums(s.searchQuery, s.currentPage + 1, AlbumsPerPage)
      && !r.state.isLoadingMore
      && r.state.searchQuery == s.searchQuery
      && r.state.isLoading == s.isLoading
      && r.state.hasSearched == s.hasSearched
    ensures r.request.Some? && reply.Ok? ==>
      && r.state.albums == Merge(s.albums, reply.value)
      && r.state.albums[..|s.albums|] == s.albums
      && r.state.currentPage == s.currentPage + 1
      && (r.state.hasMoreAlbums <==> |reply.value| == AlbumsPerPage)
      && r.state.errorMessage == s.errorMessage
    ensures r.request.Some? && reply.Err? ==>
      && r.state.albums == s.albums
      && r.state.currentPage == s.currentPage
      && r.state.hasMoreAlbums == s.hasMoreAlbums
      && r.state.errorMessage == Some(LoadMoreFailedMessage)
  {
    var begun := BeginLoadMore(s);
    if begun.request.None? then begun
    else
      var r := Step(FinishLoadMore(begun.state, s.currentPage + 1, reply), begun.request);
      if reply.Ok? then MergeSpec(s.albums, reply.value); r else r
  }

  /** While a load is pending a second `loadMoreAlbums` issues nothing and
      changes nothing: one click, one request. */
  lemma NoSecondLoadWhilePending(s: PageState)
    requires BeginLoadMore(s).request.Some?
    ensures BeginLoadMore(BeginLoadMore(s).state) == Step(BeginLoadMore(s).state, None)
  {
  }

  /** Nothing discards a stale reply: when a new search completes while a load
      for the previous query is pending, the old query's page is merged after
      the new results and the page counter takes the old query's next page. */
  lemma StaleLoadMoreIsApplied(s: PageState, newQuery: string, results: seq<Album>, stale: seq<Album>)
    requires BeginLoadMore(s).request.Some?
    requires !IsBlank(newQuery)
    ensures var pending := BeginLoadMore(s).state;
            var searching := BeginSearch(EditQuery(pending, newQuery));
            var searched := FinishSearch(searching.state, Ok(results));
            var after := FinishLoadMore(searched, s.currentPage + 1, Ok(stale));
            && searching.request == Some(SearchAlbums(newQuery, 1, AlbumsPerPage))
            && after.searchQuery == newQuery
            && after.albums == Merge(results, stale)
            && after.currentPage == s.currentPage + 1
  {
  }

  // ---------------------------------------------------------------------------
  // Paging through a whole result set

  function Min(a: int, b: int): int {
    if a <= b then a else b
  }

  /** The page a backend holding `catalog` returns for 1-based `page` and
      limit `AlbumsPerPage`. */
  function CatalogPage(catalog: seq<Album>, page: int): (r: seq<Album>)
    requires page >= 1
    ensures |r| == Min(page * AlbumsPerPage, |catalog|) - Min((page - 1) * AlbumsPerPage, |catalog|)
  {
    catalog[Min((page - 1) * AlbumsPerPage, |catalog|)..Min(page * AlbumsPerPage, |catalog|)]
  }

  /** No album of the catalog repeats a key of an earlier one. */
  predicate KeysFresh(catalog: seq<Album>) {
    forall i :: 0 <= i < |catalog| ==> !IsDuplicate(catalog[..i], catalog[i])
  }

  /** `s` shows the first `k` pages of the catalog and nothing is pending. */
  predicate ShowsPages(s: PageState, catalog: seq<Album>, k: int) {
    && 1 <= k && (k - 1) * AlbumsPerPage <= |catalog|
    && s.currentPage == k
    && !s.isLoading && !s.isLoadingMore
    && s.albums == catalog[..Min(k * AlbumsPerPage, |catalog|)]
    && (s.hasMoreAlbums <==> k * AlbumsPerPage <= |catalog|)
  }

  /** Appending the next catalog page keeps the shown list a catalog prefix. */
  lemma NextPageExtendsPrefix(catalog: seq<Album>, k: int)
    requires KeysFresh(catalog)
    requires 1 <= k && k * AlbumsPerPage <= |catalog|
    ensures Merge(catalog[..k * AlbumsPerPage], CatalogPage(catalog, k + 1))
            == catalog[..Min((k + 1) * AlbumsPerPage, |catalog|)]
  {
    var lo, hi := k * AlbumsPerPage, Min((k + 1) * AlbumsPerPage, |catalog|);
    var prefix, page := catalog[..lo], CatalogPage(catalog, k + 1);
    assert page == catalog[lo..hi];
    forall a | a in page
      ensures !IsDuplicate(prefix, a)
    {
      var i :| lo <= i < hi && catalog[i] == a;
      assert !IsDuplicate(catalog[..i], a);
      assert catalog[..i] == prefix + catalog[lo..i];
      if IsDuplicate(prefix, a) {
        DuplicateStaysDuplicate(prefix, catalog[lo..i], a);
      }
    }
    FreshPageAppendedWhole(prefix, page);
    assert prefix + page == catalog[..hi];
  }

  /** With more pages to show, one press fetches page `k + 1` and shows it. */
  lemma LoadMoreShowsNextPage(s: PageState, catalog: seq<Album>, k: int)
    requires KeysFresh(catalog)
    requires ShowsPages(s, catalog, k) && k * AlbumsPerPage <= |catalog|
    ensures LoadMore(s, Ok(CatalogPage(catalog, k + 1))).request.Some?
    ensures ShowsPages(LoadMore(s, Ok(CatalogPage(catalog, k + 1))).state, catalog, k + 1)
  {
    NextPageExtendsPrefix(catalog, k);
    assert Min(k * AlbumsPerPage, |catalog|) == k * AlbumsPerPage;
  }

  /** Once the last page is shown, a press issues nothing and the whole
      catalog is on screen. */
  lemma LoadMoreStopsAtEnd(s: PageState, catalog: seq<Album>, k: int)
    requires ShowsPages(s, catalog, k) && k * AlbumsPerPage > |catalog|
    ensures s.albums == catalog && !s.hasMoreAlbums
  {
    assert catalog[..|catalog|] == catalog;
  }

  /** Pages still to fetch after `k` full or partial pages of `n` albums. */
  lemma PagesLeft(n: nat, k: int)
    requires 1 <= k && (k - 1) * AlbumsPerPage <= n
    ensures k * AlbumsPerPage <= n ==> n / AlbumsPerPage >= k
    ensures k * AlbumsPerPage > n ==> n / AlbumsPerPage == k - 1
  {
  }

  /** Presses "load more" against a backend holding `catalog` until a press
      issues nothing, starting from the first page shown. Each remaining page
      is requested once and in order: `|catalog| / 10` requests for pages
      2, 3, ..., after which the whole catalog is shown, in order and without
      loss, and paging has stopped. */
  method LoadRemainingPages(s: PageState, catalog: seq<Album>) returns (last: PageState, requests: seq<Request>)
    requires KeysFresh(catalog)
    requires ShowsPages(s, catalog, 1)
    ensures |requests| == |catalog| / AlbumsPerPage
    ensures forall i :: 0 <= i < |requests| ==> requests[i] == SearchAlbums(s.searchQuery, i + 2, AlbumsPerPage)
    ensures last.albums == catalog && !last.hasMoreAlbums
    ensures LoadMore(last, Ok([])).request.None?
  {
    last, requests := s, [];
    var k := 1;
    while k * AlbumsPerPage <= |catalog|
      invariant 1 <= k
      invariant ShowsPages(last, catalog, k)
      invariant last.searchQuery == s.searchQuery
      invariant |requests| == k - 1
      invariant forall i :: 0 <= i < |requests| ==> requests[i] == SearchAlbums(s.searchQuery, i + 2, AlbumsPerPage)
      decreases |catalog| + AlbumsPerPage - k * AlbumsPerPage
    {
      LoadMoreShowsNextPage(last, catalog, k);
      var step := LoadMore(last, Ok(CatalogPage(catalog, k + 1)));
      requests := requests + [step.request.value];
      last := step.state;
      k := k + 1;
    }
    LoadMoreStopsAtEnd(last, catalog, k);
    PagesLeft(|catalog|, k);
  }

  /** A search followed by "load more" until it issues nothing, against a
      backend holding `catalog` (no album repeating an earlier one's key):
      pages 1, 2, ... are requested once each, `|catalog| / 10 + 1` requests
      in all, and the whole catalog ends up shown with paging stopped. When
      the catalog size is a multiple of 10 the last request returns an empty
      page. */
  method SearchThenLoadAll(s: PageState, catalog: seq<Album>) returns (last: PageState, requests: seq<Request>)
    requires !IsBlank(s.searchQuery) && !s.isLoadingMore
    requires KeysFresh(catalog)
    ensures |requests| == |catalog| / AlbumsPerPage + 1
    ensures forall i :: 0 <= i < |requests| ==> requests[i] == SearchAlbums(s.searchQuery, i + 1, AlbumsPerPage)
    ensures last.albums == catalog && !last.hasMoreAlbums
    ensures LoadMore(last, Ok([])).request.None?
  {
    var first := Search(s, Ok(CatalogPage(catalog, 1)));
    assert ShowsPages(first.state, catalog, 1);
    var more;
    last, more := LoadRemainingPages(first.state, catalog);
    requests := [first.request.value] + more;
  }

  // ---------------------------------------------------------------------------
  // Invariant

  /** Every state the page can reach: the counter never drops below 1. */
  predicate Valid(s: PageState) {
    s.currentPage >= 1
  }

  /** Every transition keeps the page number at 1 or more, the two halves of
      each handler included. `t` is the state the reply meets, which may differ
      from the one the request left (a new search can run in between); the load
      more reply is applied with the page its own request asked for, which is
      always `currentPage + 1` of the state that issued it, hence at least 2. */
  lemma TransitionsKeepValid(s: PageState, t: PageState, text: string, reply: ApiResult<seq<Album>>,
                             q: string, p: int, l: int)
    requires Valid(s) && Valid(t)
    ensures Valid(Initial())
    ensures Valid(EditQuery(s, text))
    ensures Valid(BeginSearch(s).state)
    ensures Valid(FinishSearch(t, reply))
    ensures Valid(BeginLoadMore(s).state)
    ensures BeginLoadMore(s).request == Some(SearchAlbums(q, p, l)) ==>
              p == s.currentPage + 1 && p >= 2 && Valid(FinishLoadMore(t, p, reply))
    ensures Valid(Search(s, reply).state)
    ensures Valid(LoadMore(s, reply).state)
  {
  }
}
