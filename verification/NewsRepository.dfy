/** `NewsRepositoryImpl`: the bookmark update, the single-article lookup and
    the one-page background sync of the top headlines into the article table. */
module NewsRepository {
  import opened Nullable
  import opened Remote
  import opened Entities
  import opened Domain
  import Table
  import ArticleMapper
  import ArticleDao

  /** `Constants.PAGE_SIZE` */
  const PageSize := 20

  /** The only request a sync sends: page 1 of the top headlines. */
  function SyncRequest(country: string, category: Option<string>): (r: HeadlinesRequest)
    ensures r.page == 1 && r.pageSize == PageSize
    ensures r.country == country && r.category == category
  {
    HeadlinesRequest(country, category, 1, PageSize)
  }

  /** `syncHeadlines` as a function of the reply and the article table before
      the call: the count it returns and the table after it. */
  function Sync(reply: ApiReply, now: int, rows: map<string, ArticleEntity>): (int, map<string, ArticleEntity>) {
    if reply.Response? && IsSuccessful(reply.code) then
      var articleEntities := ArticleMapper.ValidEntities(ArticlesOf(reply.body), now);
      if articleEntities != [] then (|articleEntities|, Table.Upsert(rows, articleEntities, ArticleUrl))
      else (0, rows)
    else (0, rows)
  }

  /** The row for `url`, as the domain model. */
  function ArticleAt(rows: map<string, ArticleEntity>, url: string): Option<Article> {
    if url in rows then Some(ArticleMapper.ToDomainArticle(rows[url])) else None
  }

  // ---- properties of the sync ----

  /** The count is the number of records of the reply that carry url, title
      and publication time: at most the number of records, positive exactly
      when one of them is valid, and 0 on any failure. */
  lemma SyncCount(reply: ApiReply, now: int, rows: map<string, ArticleEntity>)
    ensures var count := Sync(reply, now, rows).0;
      && (reply.Response? && IsSuccessful(reply.code) ==>
            && count == |ArticleMapper.ValidDtos(ArticlesOf(reply.body))|
            && count <= |ArticlesOf(reply.body)|
            && (count > 0 <==> exists d :: d in ArticlesOf(reply.body) && ArticleMapper.HasMandatoryFields(d)))
      && (!(reply.Response? && IsSuccessful(reply.code)) ==> count == 0)
  {
    if reply.Response? && IsSuccessful(reply.code) {
      var raw := ArticlesOf(reply.body);
      ArticleMapper.ValidEntitiesCount(raw, now);
      if exists d :: d in raw && ArticleMapper.HasMandatoryFields(d) {
        var d :| d in raw && ArticleMapper.HasMandatoryFields(d);
        assert d in ArticleMapper.ValidDtos(raw);
      }
    }
  }

  /** A failed request, or a reply without a single valid record, returns 0
      and writes nothing. */
  lemma SyncWithoutValidRecordsWritesNothing(reply: ApiReply, now: int, rows: map<string, ArticleEntity>)
    requires !(reply.Response? && IsSuccessful(reply.code))
          || forall d :: d in ArticlesOf(reply.body) ==> !ArticleMapper.HasMandatoryFields(d)
    ensures Sync(reply, now, rows) == (0, rows)
  {
  }

  /** After a sync every valid record of the reply is stored as a fresh row:
      in particular a bookmarked article that the sync fetches again loses its
      bookmark, because the whole row is replaced. */
  lemma SyncClearsBookmarks(reply: ApiReply, now: int, rows: map<string, ArticleEntity>, u: string)
    requires reply.Response? && IsSuccessful(reply.code)
    requires exists d :: d in ArticlesOf(reply.body) && ArticleMapper.HasMandatoryFields(d) && d.url == Some(u)
    ensures var rows' := Sync(reply, now, rows).1;
      u in rows' && !rows'[u].isBookmarked && rows'[u].insertedTimestamp == now
  {
    var raw := ArticlesOf(reply.body);
    var entities := ArticleMapper.ValidEntities(raw, now);
    var d :| d in raw && ArticleMapper.HasMandatoryFields(d) && d.url == Some(u);
    var e := ArticleMapper.ToArticleEntity(d, now).value;
    assert e in entities;
    assert u in Table.Ids(entities, ArticleUrl);
    Table.UpsertValueFromBatch(rows, entities, ArticleUrl, u);
  }

  /** Rows the reply does not mention keep their contents. */
  lemma SyncKeepsOtherRows(reply: ApiReply, now: int, rows: map<string, ArticleEntity>, u: string)
    requires reply.Response?
    requires forall d :: d in ArticlesOf(reply.body) && ArticleMapper.HasMandatoryFields(d) ==> d.url != Some(u)
    ensures var rows' := Sync(reply, now, rows).1;
      (u in rows' <==> u in rows) && (u in rows ==> rows'[u] == rows[u])
  {
    var entities := ArticleMapper.ValidEntities(ArticlesOf(reply.body), now);
    forall e | e in entities ensures e.url != u {
      var d :| d in ArticlesOf(reply.body) && ArticleMapper.ToArticleEntity(d, now) == Some(e);
    }
    Table.UpsertElsewhere(rows, entities, ArticleUrl, u);
  }

  /** The count is not a count of new articles: syncing again against an
      unchanged server reports the same count and leaves the same table. */
  lemma SyncRepeatReportsSameCount(reply: ApiReply, now: int, rows: map<string, ArticleEntity>)
    ensures var once := Sync(reply, now, rows);
      Sync(reply, now, once.1) == once
  {
    if reply.Response? && IsSuccessful(reply.code) {
      Table.UpsertIdempotent(rows, ArticleMapper.ValidEntities(ArticlesOf(reply.body), now), ArticleUrl);
    }
  }

  /** The sync writes article rows only and never deletes one, so every key
      row that belonged to an article row still does. */
  lemma SyncKeepsKeysWithinArticles(reply: ApiReply, now: int, rows: map<string, ArticleEntity>,
                                    keys: map<string, RemoteKeyEntity>)
    requires keys.Keys <= rows.Keys
    ensures keys.Keys <= Sync(reply, now, rows).1.Keys
  {
    if reply.Response? && IsSuccessful(reply.code) {
      Table.UpsertGrows(rows, ArticleMapper.ValidEntities(ArticlesOf(reply.body), now), ArticleUrl);
    }
  }

  /** Reading an article back after setting its bookmark shows the new flag
      and nothing else changed; an absent url reads back as null. */
  lemma BookmarkThenRead(rows: map<string, ArticleEntity>, u: string, b: bool)
    ensures ArticleAt(ArticleDao.WithBookmark(rows, u, b), u) ==
      if u in rows then Some(ArticleMapper.ToDomainArticle(rows[u]).(isBookmarked := b)) else None
  {
  }

  class NewsRepositoryImpl {
    const articleDao: ArticleDao.ArticleDao

    constructor (articleDao: ArticleDao.ArticleDao)
      ensures this.articleDao == articleDao
    {
      this.articleDao := articleDao;
    }

    /** `setBookmark(articleId, isBookmarked)` */
    method SetBookmark(articleId: string, isBookmarked: bool)
      requires articleDao.Valid()
      modifies articleDao
      ensures articleDao.Valid()
      ensures articleDao.rows == ArticleDao.WithBookmark(old(articleDao.rows), articleId, isBookmarked)
    {
      articleDao.SetBookmarkStatus(articleId, isBookmarked);
    }

    /** `syncHeadlines(country, category)`; `fetch` answers the request and
        `now` is the clock reading stamped on the new rows. Never fails. */
    method SyncHeadlines(country: string, category: Option<string>, fetch: HeadlinesRequest -> ApiReply, now: int)
      returns (newArticlesCount: int)
      requires articleDao.Valid()
      modifies articleDao
      ensures articleDao.Valid()
      ensures (newArticlesCount, articleDao.rows) == Sync(fetch(SyncRequest(country, category)), now, old(articleDao.rows))
    {
      newArticlesCount := 0;
      var response := fetch(HeadlinesRequest(country, category, 1, PageSize));
      if response.Response? && IsSuccessful(response.code) {
        var articlesDto := ArticlesOf(response.body);
        var articleEntities := ArticleMapper.ValidEntities(articlesDto, now);
        if articleEntities != [] {
          articleDao.InsertAll(articleEntities);
          newArticlesCount := |articleEntities|;
        }
      }
    }

    /** `getArticle(url)`: the stored row as the domain model, or null. */
    method GetArticle(url: string) returns (a: Option<Article>)
      requires articleDao.Valid()
      ensures a == ArticleAt(articleDao.rows, url)
      ensures a.Some? ==> a.value.url == url && a.value.id == url
    {
      var entity := articleDao.GetArticleByUrl(url);
      a := if entity.Some? then Some(ArticleMapper.ToDomainArticle(entity.value)) else None;
    }
  }
}
