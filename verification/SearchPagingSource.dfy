/** `SearchPagingSource`: a network-only pager over the "everything" search,
    keyed by NewsAPI page numbers starting at 1. */
module SearchPagingSource {
  import opened Nullable
  import opened Remote
  import opened Domain
  import ArticleMapper

  /** HTTP 426 Upgrade Required (section 15.5.22 of RFC 9110). */
  const UpgradeRequired := 426

  /** `LoadResult.Page(data, prevKey, nextKey)` */
  datatype Page = Page(data: seq<Article>, prevKey: Option<int>, nextKey: Option<int>)

  datatype LoadResult = PageResult(page: Page) | Error(cause: Failure)

  /** What `load` reads of `LoadParams`: the key and `loadSize`. */
  datatype LoadParams = LoadParams(key: Option<int>, loadSize: int)

  /** What `getRefreshKey` reads of `PagingState`: the loaded pages and the
      anchor position. */
  datatype PagingState = PagingState(pages: seq<Page>, anchorPosition: Option<int>)

  /** The request `load` sends: the page is the key, or 1 without a key. */
  function RequestFor(query: string, sortBy: string, params: LoadParams): (r: SearchRequest)
    ensures r.page == (if params.key.Some? then params.key.value else 1)
    ensures r.query == query && r.sortBy == sortBy && r.pageSize == params.loadSize
  {
    SearchRequest(query, sortBy, params.key.GetOr(1), params.loadSize)
  }

  function PrevKeyFor(page: int): Option<int> {
    if page == 1 then None else Some(page - 1)
  }

  /** `load(params)`, `fetch` answering the search request. */
  function Load(query: string, sortBy: string, params: LoadParams, fetch: SearchRequest -> ApiReply): (r: LoadResult)
    ensures var page := RequestFor(query, sortBy, params).page;
      var reply := fetch(RequestFor(query, sortBy, params));
      && (r.Error? <==> !(reply.Response? && (IsSuccessful(reply.code) || reply.code == UpgradeRequired)))
      && (reply.Response? && reply.code == UpgradeRequired ==> r == PageResult(Page([], None, None)))
      && (reply.Response? && IsSuccessful(reply.code) ==>
          var valid := ArticleMapper.ValidDtos(ArticlesOf(reply.body));
          && r.PageResult?
          && |r.page.data| == |valid|
          && (forall i :: 0 <= i < |valid| ==> Some(r.page.data[i]) == ArticleMapper.ToSimpleDomainArticle(valid[i]))
          && (r.page.prevKey.None? <==> page == 1)
          && (r.page.prevKey.Some? ==> r.page.prevKey.value == page - 1)
          && (r.page.nextKey.None? <==> (r.page.data == [] || TotalResultsOf(reply.body) <= page * params.loadSize))
          && (r.page.nextKey.Some? ==> r.page.nextKey.value == page + 1))
  {
    var page := params.key.GetOr(1);
    match fetch(RequestFor(query, sortBy, params))
    case IoFailure => Error(IoError)
    case OtherFailure => Error(OtherError)
    case Response(code, body) =>
      if !IsSuccessful(code) then
        if code == UpgradeRequired then PageResult(Page([], None, None)) else Error(HttpError(code))
      else
        var valid := ArticleMapper.ValidDtos(ArticlesOf(body));
        ArticleMapper.SimpleArticlesOfValid(valid);
        var data := ArticleMapper.SimpleArticles(valid);
        var nextKey := if data == [] || TotalResultsOf(body) <= page * params.loadSize then None else Some(page + 1);
        PageResult(Page(data, PrevKeyFor(page), nextKey))
  }

  /** The page holds the records of the response that carry url, title and
      publication time, in the order the server sent them: records before and
      after a record contribute independently. */
  lemma PageKeepsValidRecordsInOrder(a: seq<ArticleDto>, d: ArticleDto, b: seq<ArticleDto>)
    ensures ArticleMapper.ValidDtos(a + [d] + b) ==
      ArticleMapper.ValidDtos(a) + (if ArticleMapper.HasMandatoryFields(d) then [d] else []) + ArticleMapper.ValidDtos(b)
  {
    ArticleMapper.ValidDtosAppend(a + [d], b);
    ArticleMapper.ValidDtosAppend(a, [d]);
    ArticleMapper.ValidDtosSingle(d);
  }

  /** The page a search load serves equals what the cached feed would show for
      the same records. */
  lemma SearchPageAgreesWithCachedPage(query: string, sortBy: string, params: LoadParams,
                                      fetch: SearchRequest -> ApiReply, now: int)
    requires var reply := fetch(RequestFor(query, sortBy, params));
      reply.Response? && IsSuccessful(reply.code)
    ensures Load(query, sortBy, params, fetch).page.data ==
      ArticleMapper.ToDomainArticleList(ArticleMapper.ValidEntities(ArticlesOf(fetch(RequestFor(query, sortBy, params)).body), now))
  {
    var raw := ArticlesOf(fetch(RequestFor(query, sortBy, params)).body);
    ArticleMapper.FilterIsRedundant(raw);
    ArticleMapper.CachedPageAgreesWithSearchPage(raw, now);
  }

  /** The keys link neighbouring pages: following a page's `nextKey` gives a
      page whose `prevKey` leads back to it. */
  lemma NextThenPrevRoundTrip(query: string, sortBy: string, params: LoadParams, loadSize: int,
                              fetch: SearchRequest -> ApiReply)
    requires RequestFor(query, sortBy, params).page >= 1
    requires Load(query, sortBy, params, fetch).PageResult?
    requires Load(query, sortBy, params, fetch).page.nextKey.Some?
    ensures var next := Load(query, sortBy, LoadParams(Load(query, sortBy, params, fetch).page.nextKey, loadSize), fetch);
      next.PageResult? && next.page.data != [] ==>
        next.page.prevKey == Some(RequestFor(query, sortBy, params).page)
  {
  }

  // ---- getRefreshKey ----

  predicate HasItems(pages: seq<Page>) {
    exists i :: 0 <= i < |pages| && pages[i].data != []
  }

  /** The number of items loaded in the window. */
  function ItemCount(pages: seq<Page>): nat {
    if pages == [] then 0 else |pages[0].data| + ItemCount(pages[1..])
  }

  /** Paging's walk from an item position to (page index, index in page):
      skip whole pages while the index lies past the current page, never
      past the last page. */
  function Locate(pages: seq<Page>, index: int): (r: (int, int))
    requires pages != []
    ensures 0 <= r.0 < |pages|
    ensures r.0 < |pages| - 1 ==> r.1 < |pages[r.0].data|
    ensures index >= 0 ==> r.1 >= 0
    ensures index < ItemCount(pages) ==> r.1 < |pages[r.0].data|
    ensures index >= ItemCount(pages) ==> r.0 == |pages| - 1
    ensures index < 0 ==> r == (0, index)
  {
    if |pages| == 1 || index <= |pages[0].data| - 1 then (0, index)
    else
      var r := Locate(pages[1..], index - |pages[0].data|);
      (r.0 + 1, r.1)
  }

  /** Paging's `closestPageToPosition(anchorPosition)`, for a window without
      placeholders: null when no page holds an item; the first page for a
      position before the window; otherwise the page the walk stops at, which
      past the end of the window is the last page, empty or not. */
  function ClosestPageToPosition(pages: seq<Page>, anchorPosition: int): (r: Option<Page>)
    ensures r.Some? <==> HasItems(pages)
    ensures r.Some? ==> r.value in pages
    ensures r.Some? && anchorPosition < 0 ==> r.value == pages[0]
    ensures r.Some? && anchorPosition >= ItemCount(pages) ==> r.value == pages[|pages| - 1]
    ensures r.Some? && 0 <= anchorPosition < ItemCount(pages) ==> r.value.data != []
  {
    if !HasItems(pages) then None
    else
      var (pageIndex, index) := Locate(pages, anchorPosition);
      if index < 0 then Some(pages[0]) else Some(pages[pageIndex])
  }

  /** `getRefreshKey(state)`: the key of the page around the anchor, taken from
      its `prevKey` plus one, else its `nextKey` minus one. */
  function GetRefreshKey(state: PagingState): (r: Option<int>)
    ensures state.anchorPosition.None? ==> r.None?
    ensures r.Some? ==>
      exists p :: (p in state.pages &&
        ((p.prevKey.Some? && r.value == p.prevKey.value + 1) || (p.nextKey.Some? && r.value == p.nextKey.value - 1)))
  {
    match state.anchorPosition
    case None => None
    case Some(anchorPosition) =>
      var anchorPage := ClosestPageToPosition(state.pages, anchorPosition);
      if anchorPage.None? then None
      else if anchorPage.value.prevKey.Some? then Some(anchorPage.value.prevKey.value + 1)
      else if anchorPage.value.nextKey.Some? then Some(anchorPage.value.nextKey.value - 1)
      else None
  }

  /** An anchor past the window lands on the last page even when that page is
      empty (a 426 reply or an all-invalid batch), and the refresh key comes
      from that page's keys: here the empty page 2 gives 2, not the non-empty
      page 1's 1. */
  lemma RefreshKeyFromEmptyLastPage(a: Article)
    ensures var pages := [Page([a], None, Some(2)), Page([], Some(1), None)];
      && ClosestPageToPosition(pages, 5) == Some(pages[1])
      && GetRefreshKey(PagingState(pages, Some(5))) == Some(2)
  {
    var pages := [Page([a], None, Some(2)), Page([], Some(1), None)];
    assert pages[0].data != [];
    assert ItemCount(pages[1..][1..]) == 0 by {
      assert pages[1..][1..] == [];
    }
    assert ItemCount(pages[1..]) == 0;
  }

  /** `page` was served by a load of page `p`. */
  predicate ServedFor(page: Page, p: int) {
    page.prevKey == PrevKeyFor(p) && (page.nextKey.None? || page.nextKey == Some(p + 1))
  }

  /** Every non-empty page a load serves carries the keys of the page it was
      loaded for. */
  lemma LoadServesRequestedPage(query: string, sortBy: string, params: LoadParams, fetch: SearchRequest -> ApiReply)
    requires Load(query, sortBy, params, fetch).PageResult?
    requires Load(query, sortBy, params, fetch).page.data != []
    ensures ServedFor(Load(query, sortBy, params, fetch).page, RequestFor(query, sortBy, params).page)
  {
  }

  /** Refreshing reloads the page under the anchor: when every loaded page was
      served for some page number, the refresh key (or the default 1 when it is
      null) is the number of the page closest to the anchor. */
  lemma RefreshKeyReloadsAnchorPage(state: PagingState, p: int)
    requires state.anchorPosition.Some?
    requires var anchorPage := ClosestPageToPosition(state.pages, state.anchorPosition.value);
      anchorPage.Some? && ServedFor(anchorPage.value, p)
    requires p >= 1
    ensures GetRefreshKey(state).GetOr(1) == p
  {
  }
}
