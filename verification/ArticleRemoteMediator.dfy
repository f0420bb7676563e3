/** `ArticleRemoteMediator`: keeps the `articles` and `remote_keys` tables in
    step with the page-numbered top-headlines feed for the three load
    directions REFRESH, PREPEND and APPEND. */
module ArticleRemoteMediator {
  import opened Nullable
  import opened Remote
  import opened Entities
  import Table
  import ArticleMapper
  import ArticleDao
  import RemoteKeyDao

  datatype LoadType = Refresh | Prepend | Append

  datatype InitializeAction = LaunchInitialRefresh | SkipInitialRefresh

  datatype MediatorResult = Success(endOfPaginationReached: bool) | Error(cause: Failure)

  /** What the mediator reads of Paging's `PagingState`: the loaded pages (the
      window), the anchor position and `config.pageSize`. */
  datatype PagingState = PagingState(pages: seq<seq<ArticleEntity>>, anchorPosition: Option<int>, pageSize: int)

  /** The contents of the two tables. */
  datatype Tables = Tables(articles: map<string, ArticleEntity>, keys: map<string, RemoteKeyEntity>)

  /** Outcome of the page selection in `load`: a page to fetch, or an early
      `Success(endOfPaginationReached)` without a fetch. */
  datatype PageChoice = LoadPage(page: int) | Finished(endOfPaginationReached: bool)

  /** Every key row belongs to an article row. */
  predicate KeysWithinArticles(t: Tables) {
    t.keys.Keys <= t.articles.Keys
  }

  /** Both tables store every row under its own primary key. */
  ghost predicate WellKeyed(t: Tables) {
    Table.KeyedBy(t.articles, ArticleUrl) && Table.KeyedBy(t.keys, KeyArticleUrl)
  }

  // ---- reading the window ----

  /** All loaded items, page after page. */
  function Flatten(pages: seq<seq<ArticleEntity>>): seq<ArticleEntity> {
    if pages == [] then [] else pages[0] + Flatten(pages[1..])
  }

  /** `pages.firstOrNull { it.data.isNotEmpty() }?.data?.firstOrNull()` */
  function FirstLoadedItem(pages: seq<seq<ArticleEntity>>): Option<ArticleEntity> {
    if pages == [] then None
    else if pages[0] != [] then Some(pages[0][0])
    else FirstLoadedItem(pages[1..])
  }

  /** `pages.lastOrNull { it.data.isNotEmpty() }?.data?.lastOrNull()` */
  function LastLoadedItem(pages: seq<seq<ArticleEntity>>): Option<ArticleEntity> {
    if pages == [] then None
    else if pages[|pages| - 1] != [] then Some(pages[|pages| - 1][|pages[|pages| - 1]| - 1])
    else LastLoadedItem(pages[..|pages| - 1])
  }

  /** The item the PREPEND lookup starts from is the first item of the whole
      window. */
  lemma {:induction false} FirstLoadedItemIsFirstOfWindow(pages: seq<seq<ArticleEntity>>)
    ensures FirstLoadedItem(pages) == if Flatten(pages) == [] then None else Some(Flatten(pages)[0])
  {
    if pages != [] {
      FirstLoadedItemIsFirstOfWindow(pages[1..]);
    }
  }

  lemma {:induction false} FlattenSnoc(pages: seq<seq<ArticleEntity>>)
    requires pages != []
    ensures Flatten(pages) == Flatten(pages[..|pages| - 1]) + pages[|pages| - 1]
  {
    if |pages| > 1 {
      assert pages[1..][..|pages[1..]| - 1] == pages[..|pages| - 1][1..];
      FlattenSnoc(pages[1..]);
    }
  }

  /** The item the APPEND lookup starts from is the last item of the whole
      window. */
  lemma {:induction false} LastLoadedItemIsLastOfWindow(pages: seq<seq<ArticleEntity>>)
    ensures LastLoadedItem(pages) ==
      if Flatten(pages) == [] then None else Some(Flatten(pages)[|Flatten(pages)| - 1])
  {
    if pages != [] {
      FlattenSnoc(pages);
      LastLoadedItemIsLastOfWindow(pages[..|pages| - 1]);
    }
  }

  /** Paging's `closestItemToPosition(position)` on a window without
      placeholders: the loaded item at `position`, clamped to the loaded range. */
  function ClosestItemToPosition(pages: seq<seq<ArticleEntity>>, position: int): (r: Option<ArticleEntity>)
    ensures r.Some? <==> Flatten(pages) != []
    ensures r.Some? ==> r.value in Flatten(pages)
  {
    var items := Flatten(pages);
    if items == [] then None
    else if position < 0 then Some(items[0])
    else if position >= |items| then Some(items[|items| - 1])
    else Some(items[position])
  }

  /** `item?.let { remoteKeyDao.getRemoteKeyByArticleUrl(it.url) }` */
  function KeyFor(item: Option<ArticleEntity>, keys: map<string, RemoteKeyEntity>): Option<RemoteKeyEntity> {
    if item.Some? then RemoteKeyDao.Lookup(keys, item.value.url) else None
  }

  function KeyClosestToCurrentPosition(state: PagingState, keys: map<string, RemoteKeyEntity>): Option<RemoteKeyEntity> {
    if state.anchorPosition.Some?
    then KeyFor(ClosestItemToPosition(state.pages, state.anchorPosition.value), keys)
    else None
  }

  // ---- the load protocol ----

  /** The `when (loadType)` of `load`. */
  function ChoosePage(loadType: LoadType, state: PagingState, keys: map<string, RemoteKeyEntity>): PageChoice {
    match loadType
    case Refresh =>
      // the closest key is looked up, and then not used
      LoadPage(1)
    case Prepend =>
      var remoteKeys := KeyFor(FirstLoadedItem(state.pages), keys);
      if remoteKeys.None? || remoteKeys.value.prevKey.None?
      then Finished(remoteKeys.Some?)
      else LoadPage(remoteKeys.value.prevKey.value)
    case Append =>
      var remoteKey := KeyFor(LastLoadedItem(state.pages), keys);
      if remoteKey.None? || remoteKey.value.nextKey.None?
      then Finished(true)
      else LoadPage(remoteKey.value.nextKey.value)
  }

  function PrevKeyFor(page: int): Option<int> {
    if page == 1 then None else Some(page - 1)
  }

  function NextKeyFor(page: int, articles: seq<ArticleDto>): Option<int> {
    if articles == [] then None else Some(page + 1)
  }

  /** One key row per entity, all with the batch's `prevKey` and `nextKey`. */
  function KeysFor(entities: seq<ArticleEntity>, prevKey: Option<int>, nextKey: Option<int>): seq<RemoteKeyEntity> {
    seq(|entities|, i requires 0 <= i < |entities| => RemoteKeyEntity(entities[i].url, prevKey, nextKey))
  }

  lemma KeysForIds(entities: seq<ArticleEntity>, prevKey: Option<int>, nextKey: Option<int>)
    ensures Table.Ids(KeysFor(entities, prevKey, nextKey), KeyArticleUrl) == Table.Ids(entities, ArticleUrl)
  {
    var ks := KeysFor(entities, prevKey, nextKey);
    forall u ensures u in Table.Ids(ks, KeyArticleUrl) <==> u in Table.Ids(entities, ArticleUrl) {
      if u in Table.Ids(ks, KeyArticleUrl) {
        var k :| k in ks && k.articleUrl == u;
        var i :| 0 <= i < |ks| && ks[i] == k;
        assert entities[i] in entities;
      }
      if u in Table.Ids(entities, ArticleUrl) {
        var e :| e in entities && e.url == u;
        var i :| 0 <= i < |entities| && entities[i] == e;
        assert ks[i] in ks;
      }
    }
  }

  /** The transaction of a successful fetch of `page` returning `articles`:
      on REFRESH clear both tables, then upsert the keys and the entities. */
  function Commit(loadType: LoadType, page: int, articles: seq<ArticleDto>, now: int, t: Tables): Tables {
    var entities := ArticleMapper.ValidEntities(articles, now);
    var keys := KeysFor(entities, PrevKeyFor(page), NextKeyFor(page, articles));
    var base := if loadType == Refresh then Tables(map[], map[]) else t;
    Tables(Table.Upsert(base.articles, entities, ArticleUrl), Table.Upsert(base.keys, keys, KeyArticleUrl))
  }

  /** Everything `load` does once the page is chosen: the result and the new
      tables for the reply to the request for `page`. */
  function Fetched(loadType: LoadType, page: int, reply: ApiReply, now: int, t: Tables): (MediatorResult, Tables) {
    match reply
    case IoFailure => (Error(IoError), t)
    case OtherFailure => (Error(OtherError), t)
    case Response(code, body) =>
      if !IsSuccessful(code) then (Error(HttpError(code)), t)
      else
        var articles := ArticlesOf(body);
        (Success(articles == []), Commit(loadType, page, articles, now, t))
  }

  function Request(country: string, category: Option<string>, state: PagingState, page: int): HeadlinesRequest {
    HeadlinesRequest(country, category, page, state.pageSize)
  }

  /** `load(loadType, state)` as a function of the tables before the call: the
      result and the tables after it. */
  function LoadSpec(country: string, category: Option<string>, loadType: LoadType, state: PagingState,
                    fetch: HeadlinesRequest -> ApiReply, now: int, t: Tables): (MediatorResult, Tables)
  {
    match ChoosePage(loadType, state, t.keys)
    case Finished(end) => (Success(end), t)
    case LoadPage(page) => Fetched(loadType, page, fetch(Request(country, category, state, page)), now, t)
  }

  // ---- properties of the protocol ----

  /** REFRESH always asks for page 1, whatever the window and anchor. */
  lemma RefreshRequestsFirstPage(country: string, category: Option<string>, s1: PagingState, s2: PagingState,
                                 fetch: HeadlinesRequest -> ApiReply, now: int, t: Tables)
    requires s1.pageSize == s2.pageSize
    ensures LoadSpec(country, category, Refresh, s1, fetch, now, t)
         == LoadSpec(country, category, Refresh, s2, fetch, now, t)
         == Fetched(Refresh, 1, fetch(Request(country, category, s1, 1)), now, t)
  {
  }

  /** PREPEND: without a key row for the first item the load reports
      `Success(false)`; with a key row whose `prevKey` is null it reports
      `Success(true)`; neither fetches nor writes. Otherwise it fetches the page
      `prevKey`. */
  lemma PrependDecision(state: PagingState, keys: map<string, RemoteKeyEntity>)
    ensures var k := KeyFor(FirstLoadedItem(state.pages), keys);
      && (k.None? ==> ChoosePage(Prepend, state, keys) == Finished(false))
      && (k.Some? && k.value.prevKey.None? ==> ChoosePage(Prepend, state, keys) == Finished(true))
      && (k.Some? && k.value.prevKey.Some? ==> ChoosePage(Prepend, state, keys) == LoadPage(k.value.prevKey.value))
  {
  }

  /** APPEND: a missing key row for the last item, or a null `nextKey`, ends
      pagination without a fetch; otherwise the page fetched is `nextKey`. */
  lemma AppendDecision(state: PagingState, keys: map<string, RemoteKeyEntity>)
    ensures var k := KeyFor(LastLoadedItem(state.pages), keys);
      && (k.None? || k.value.nextKey.None? ==> ChoosePage(Append, state, keys) == Finished(true))
      && (k.Some? && k.value.nextKey.Some? ==> ChoosePage(Append, state, keys) == LoadPage(k.value.nextKey.value))
  {
  }

  /** A load that ends early makes no request: its outcome is the same for
      every server, and it changes neither table. */
  lemma FinishedLoadFetchesNothing(country: string, category: Option<string>, loadType: LoadType, state: PagingState,
                                   f1: HeadlinesRequest -> ApiReply, f2: HeadlinesRequest -> ApiReply, now: int, t: Tables)
    requires ChoosePage(loadType, state, t.keys).Finished?
    ensures LoadSpec(country, category, loadType, state, f1, now, t)
         == LoadSpec(country, category, loadType, state, f2, now, t)
         == (Success(ChoosePage(loadType, state, t.keys).endOfPaginationReached), t)
  {
  }

  /** A failed request (non-2xx status, I/O failure, any other exception)
      yields `Error` and leaves both tables exactly as they were. */
  lemma FailedLoadChangesNothing(country: string, category: Option<string>, loadType: LoadType, state: PagingState,
                                 fetch: HeadlinesRequest -> ApiReply, now: int, t: Tables)
    ensures LoadSpec(country, category, loadType, state, fetch, now, t).0.Error? ==>
            LoadSpec(country, category, loadType, state, fetch, now, t).1 == t
    ensures ChoosePage(loadType, state, t.keys).LoadPage? ==>
      var reply := fetch(Request(country, category, state, ChoosePage(loadType, state, t.keys).page));
      (LoadSpec(country, category, loadType, state, fetch, now, t).0.Error? <==>
       !(reply.Response? && IsSuccessful(reply.code)))
  {
  }

  /** Every entity written by one load has a key row, and all of them carry the
      batch's `prevKey` (null on page 1, else page - 1) and `nextKey` (null iff
      the raw list was empty, else page + 1). */
  lemma CommitKeysShared(loadType: LoadType, page: int, articles: seq<ArticleDto>, now: int, t: Tables)
    ensures var t' := Commit(loadType, page, articles, now, t);
      forall e :: e in ArticleMapper.ValidEntities(articles, now) ==>
        && e.url in t'.articles
        && e.url in t'.keys
        && t'.keys[e.url] == RemoteKeyEntity(e.url, PrevKeyFor(page), NextKeyFor(page, articles))
  {
    var entities := ArticleMapper.ValidEntities(articles, now);
    var keys := KeysFor(entities, PrevKeyFor(page), NextKeyFor(page, articles));
    var base := if loadType == Refresh then Tables(map[], map[]) else t;
    KeysForIds(entities, PrevKeyFor(page), NextKeyFor(page, articles));
    forall e | e in entities
      ensures e.url in Table.Upsert(base.articles, entities, ArticleUrl)
      ensures e.url in Table.Upsert(base.keys, keys, KeyArticleUrl)
      ensures Table.Upsert(base.keys, keys, KeyArticleUrl)[e.url] == RemoteKeyEntity(e.url, PrevKeyFor(page), NextKeyFor(page, articles))
    {
      assert e.url in Table.Ids(entities, ArticleUrl);
      Table.UpsertValueFromBatch(base.articles, entities, ArticleUrl, e.url);
      Table.UpsertValueFromBatch(base.keys, keys, KeyArticleUrl, e.url);
    }
  }

  /** After a successful REFRESH both tables hold exactly the fetched valid
      batch: one article row and one key row per url of the batch. */
  lemma RefreshReplacesTables(page: int, articles: seq<ArticleDto>, now: int, t: Tables)
    ensures var t' := Commit(Refresh, page, articles, now, t);
      var ids := Table.Ids(ArticleMapper.ValidEntities(articles, now), ArticleUrl);
      && t'.articles.Keys == ids
      && t'.keys.Keys == ids
      && (forall u :: u in t'.articles ==> t'.articles[u] in ArticleMapper.ValidEntities(articles, now))
  {
    var entities := ArticleMapper.ValidEntities(articles, now);
    var keys := KeysFor(entities, PrevKeyFor(page), NextKeyFor(page, articles));
    KeysForIds(entities, PrevKeyFor(page), NextKeyFor(page, articles));
    Table.UpsertKeys(map[], entities, ArticleUrl);
    Table.UpsertKeys(map[], keys, KeyArticleUrl);
    forall u | u in Table.Upsert(map[], entities, ArticleUrl)
      ensures Table.Upsert(map[], entities, ArticleUrl)[u] in entities
    {
      Table.UpsertValueFromBatch(map[], entities, ArticleUrl, u);
    }
  }

  /** PREPEND and APPEND leave every row whose url is not in the batch as it
      was, in both tables. */
  lemma ContinuationKeepsOtherRows(loadType: LoadType, page: int, articles: seq<ArticleDto>, now: int, t: Tables, u: string)
    requires loadType != Refresh
    requires u !in Table.Ids(ArticleMapper.ValidEntities(articles, now), ArticleUrl)
    ensures var t' := Commit(loadType, page, articles, now, t);
      && (u in t'.articles <==> u in t.articles)
      && (u in t.articles ==> t'.articles[u] == t.articles[u])
      && (u in t'.keys <==> u in t.keys)
      && (u in t.keys ==> t'.keys[u] == t.keys[u])
  {
    var entities := ArticleMapper.ValidEntities(articles, now);
    var keys := KeysFor(entities, PrevKeyFor(page), NextKeyFor(page, articles));
    KeysForIds(entities, PrevKeyFor(page), NextKeyFor(page, articles));
    Table.UpsertElsewhere(t.articles, entities, ArticleUrl, u);
    Table.UpsertElsewhere(t.keys, keys, KeyArticleUrl, u);
  }

  /** Every load keeps the key rows within the article rows, and keeps both
      tables keyed by their primary keys. */
  lemma LoadPreservesInvariant(country: string, category: Option<string>, loadType: LoadType, state: PagingState,
                               fetch: HeadlinesRequest -> ApiReply, now: int, t: Tables)
    requires KeysWithinArticles(t) && WellKeyed(t)
    ensures KeysWithinArticles(LoadSpec(country, category, loadType, state, fetch, now, t).1)
    ensures WellKeyed(LoadSpec(country, category, loadType, state, fetch, now, t).1)
  {
    match ChoosePage(loadType, state, t.keys)
    case Finished(_) =>
    case LoadPage(page) =>
      var reply := fetch(Request(country, category, state, page));
      if reply.Response? && IsSuccessful(reply.code) {
        var articles := ArticlesOf(reply.body);
        var entities := ArticleMapper.ValidEntities(articles, now);
        var keys := KeysFor(entities, PrevKeyFor(page), NextKeyFor(page, articles));
        var base := if loadType == Refresh then Tables(map[], map[]) else t;
        KeysForIds(entities, PrevKeyFor(page), NextKeyFor(page, articles));
        Table.UpsertKeys(base.articles, entities, ArticleUrl);
        Table.UpsertKeys(base.keys, keys, KeyArticleUrl);
        Table.UpsertKeyedBy(base.articles, entities, ArticleUrl);
        Table.UpsertKeyedBy(base.keys, keys, KeyArticleUrl);
      }
  }

  /** Two REFRESH loads in a row against an unchanged server leave the same
      tables as one. */
  lemma RefreshIdempotent(country: string, category: Option<string>, state: PagingState,
                          fetch: HeadlinesRequest -> ApiReply, now: int, t: Tables)
    ensures var once := LoadSpec(country, category, Refresh, state, fetch, now, t);
      LoadSpec(country, category, Refresh, state, fetch, now, once.1) == once
  {
  }

  /** Once a load reports the end of pagination, repeating it from the state it
      left, against an unchanged server, reports the end again. */
  lemma EndOfPaginationIsSticky(country: string, category: Option<string>, loadType: LoadType, state: PagingState,
                                fetch: HeadlinesRequest -> ApiReply, now: int, t: Tables)
    requires LoadSpec(country, category, loadType, state, fetch, now, t).0 == Success(true)
    ensures var t' := LoadSpec(country, category, loadType, state, fetch, now, t).1;
      LoadSpec(country, category, loadType, state, fetch, now, t').0 == Success(true)
  {
    var t' := LoadSpec(country, category, loadType, state, fetch, now, t).1;
    if loadType != Refresh {
      assert t' == t by {
        match ChoosePage(loadType, state, t.keys)
        case Finished(_) =>
        case LoadPage(page) =>
          var articles := ArticlesOf(fetch(Request(country, category, state, page)).body);
          assert articles == [];
          assert ArticleMapper.ValidEntities(articles, now) == [];
          assert KeysFor([], PrevKeyFor(page), NextKeyFor(page, articles)) == [];
      }
    }
  }

  /** End of pagination is judged on the raw list before invalid records are
      dropped: an APPEND whose page holds only invalid records reports
      `Success(false)` and writes nothing, so the same window asks for the same
      page again on the next APPEND. */
  lemma InvalidOnlyPageStalls(country: string, category: Option<string>, state: PagingState,
                              fetch: HeadlinesRequest -> ApiReply, now: int, t: Tables)
    requires ChoosePage(Append, state, t.keys).LoadPage?
    requires var reply := fetch(Request(country, category, state, ChoosePage(Append, state, t.keys).page));
      && reply.Response? && IsSuccessful(reply.code)
      && ArticlesOf(reply.body) != []
      && forall d :: d in ArticlesOf(reply.body) ==> !ArticleMapper.HasMandatoryFields(d)
    ensures LoadSpec(country, category, Append, state, fetch, now, t) == (Success(false), t)
  {
    var page := ChoosePage(Append, state, t.keys).page;
    var articles := ArticlesOf(fetch(Request(country, category, state, page)).body);
    assert ArticleMapper.ValidEntities(articles, now) == [];
    assert KeysFor([], PrevKeyFor(page), NextKeyFor(page, articles)) == [];
  }

  // ---- the mediator ----

  class ArticleRemoteMediator {
    const articleDao: ArticleDao.ArticleDao
    const remoteKeyDao: RemoteKeyDao.RemoteKeyDao
    const country: string
    const category: Option<string>

    constructor (articleDao: ArticleDao.ArticleDao, remoteKeyDao: RemoteKeyDao.RemoteKeyDao,
                 country: string, category: Option<string>)
      ensures this.articleDao == articleDao && this.remoteKeyDao == remoteKeyDao
      ensures this.country == country && this.category == category
    {
      this.articleDao := articleDao;
      this.remoteKeyDao := remoteKeyDao;
      this.country := country;
      this.category := category;
    }

    /** `initialize()`: refresh iff the article table is empty. */
    method Initialize() returns (action: InitializeAction)
      ensures action == LaunchInitialRefresh <==> |articleDao.rows| == 0
    {
      var count := articleDao.CountArticles();
      action := if count == 0 then LaunchInitialRefresh else SkipInitialRefresh;
    }

    /** `getRemoteKeyForLastItem(state)` */
    method GetRemoteKeyForLastItem(state: PagingState) returns (k: Option<RemoteKeyEntity>)
      requires remoteKeyDao.Valid()
      ensures k == KeyFor(LastLoadedItem(state.pages), remoteKeyDao.rows)
      ensures k.Some? ==> Flatten(state.pages) != [] && k.value.articleUrl == Flatten(state.pages)[|Flatten(state.pages)| - 1].url
    {
      LastLoadedItemIsLastOfWindow(state.pages);
      var item := LastLoadedItem(state.pages);
      k := None;
      if item.Some? {
        k := remoteKeyDao.GetRemoteKeyByArticleUrl(item.value.url);
      }
    }

    /** `getRemoteKeyForFirstItem(state)` */
    method GetRemoteKeyForFirstItem(state: PagingState) returns (k: Option<RemoteKeyEntity>)
      requires remoteKeyDao.Valid()
      ensures k == KeyFor(FirstLoadedItem(state.pages), remoteKeyDao.rows)
      ensures k.Some? ==> Flatten(state.pages) != [] && k.value.articleUrl == Flatten(state.pages)[0].url
    {
      FirstLoadedItemIsFirstOfWindow(state.pages);
      var item := FirstLoadedItem(state.pages);
      k := None;
      if item.Some? {
        k := remoteKeyDao.GetRemoteKeyByArticleUrl(item.value.url);
      }
    }

    /** `getRemoteKeyClosestToCurrentPosition(state)` */
    method GetRemoteKeyClosestToCurrentPosition(state: PagingState) returns (k: Option<RemoteKeyEntity>)
      requires remoteKeyDao.Valid()
      ensures k == KeyClosestToCurrentPosition(state, remoteKeyDao.rows)
      ensures k.Some? ==> state.anchorPosition.Some? && exists e :: e in Flatten(state.pages) && e.url == k.value.articleUrl
    {
      k := None;
      if state.anchorPosition.Some? {
        var item := ClosestItemToPosition(state.pages, state.anchorPosition.value);
        if item.Some? {
          k := remoteKeyDao.GetRemoteKeyByArticleUrl(item.value.url);
        }
      }
    }

    /** `load(loadType, state)`; `fetch` answers the top-headlines requests
        and `now` is the clock reading stamped on the new rows. */
    method Load(loadType: LoadType, state: PagingState, fetch: HeadlinesRequest -> ApiReply, now: int)
      returns (result: MediatorResult)
      requires articleDao.Valid() && remoteKeyDao.Valid()
      modifies articleDao, remoteKeyDao
      ensures articleDao.Valid() && remoteKeyDao.Valid()
      ensures (result, Tables(articleDao.rows, remoteKeyDao.rows))
           == LoadSpec(country, category, loadType, state, fetch, now, old(Tables(articleDao.rows, remoteKeyDao.rows)))
    {
      var page: int;
      match loadType {
        case Refresh =>
          var remoteKeys := GetRemoteKeyClosestToCurrentPosition(state);
          page := 1;
        case Prepend =>
          var remoteKeys := GetRemoteKeyForFirstItem(state);
          if remoteKeys.None? || remoteKeys.value.prevKey.None? {
            return Success(remoteKeys.Some?);
          }
          page := remoteKeys.value.prevKey.value;
        case Append =>
          var remoteKey := GetRemoteKeyForLastItem(state);
          if remoteKey.None? || remoteKey.value.nextKey.None? {
            return Success(true);
          }
          page := remoteKey.value.nextKey.value;
      }

      var apiResponse := fetch(HeadlinesRequest(country, category, page, state.pageSize));
      match apiResponse
      case IoFailure =>
        return Error(IoError);
      case OtherFailure =>
        return Error(OtherError);
      case Response(code, body) =>
        if !IsSuccessful(code) {
          return Error(HttpError(code));
        }
        var articles := ArticlesOf(body);
        var endOfPaginationReached := articles == [];
        var articleEntities := ArticleMapper.ValidEntities(articles, now);

        // the transaction
        if loadType == Refresh {
          remoteKeyDao.ClearRemoteKeys();
          articleDao.ClearAllArticles();
        }
        var prevKey := if page == 1 then None else Some(page - 1);
        var nextKey := if endOfPaginationReached then None else Some(page + 1);
        var keys := KeysFor(articleEntities, prevKey, nextKey);
        remoteKeyDao.InsertAll(keys);
        articleDao.InsertAll(articleEntities);
        return Success(endOfPaginationReached);
    }
  }
}
