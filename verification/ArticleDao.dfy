/** The `articles` table and the queries of `ArticleDao`. */
module ArticleDao {
  import opened Nullable
  import opened Entities
  import opened ArticleOrder
  import Table

  /** The table after `UPDATE articles SET isBookmarked = :b WHERE url = :u`. */
  function WithBookmark(rows: map<string, ArticleEntity>, u: string, b: bool): map<string, ArticleEntity> {
    if u in rows then rows[u := rows[u].(isBookmarked := b)] else rows
  }

  /** The bookmark update touches only the flag of row `u`: same urls, every
      other row unchanged, row `u` unchanged but for its flag; nothing happens
      when `u` is absent. */
  lemma SetBookmarkTouchesOnlyTheFlag(rows: map<string, ArticleEntity>, u: string, b: bool)
    ensures WithBookmark(rows, u, b).Keys == rows.Keys
    ensures forall v :: v in rows && v != u ==> WithBookmark(rows, u, b)[v] == rows[v]
    ensures u in rows ==> WithBookmark(rows, u, b)[u].isBookmarked == b
    ensures u in rows ==> WithBookmark(rows, u, b)[u].(isBookmarked := rows[u].isBookmarked) == rows[u]
    ensures u !in rows ==> WithBookmark(rows, u, b) == rows
  {
  }

  /** Setting the same flag twice is the same as setting it once. */
  lemma SetBookmarkIdempotent(rows: map<string, ArticleEntity>, u: string, b: bool)
    ensures WithBookmark(WithBookmark(rows, u, b), u, b) == WithBookmark(rows, u, b)
  {
  }

  lemma SetBookmarkKeyedBy(rows: map<string, ArticleEntity>, u: string, b: bool)
    requires Table.KeyedBy(rows, ArticleUrl)
    ensures Table.KeyedBy(WithBookmark(rows, u, b), ArticleUrl)
  {
  }

  /** `view` is the result of a `SELECT * FROM articles [WHERE isBookmarked = 1]
      ORDER BY ...`: sorted by `o`, holding each selected row exactly once and
      nothing else. */
  ghost predicate IsOrderedView(view: seq<ArticleEntity>, rows: map<string, ArticleEntity>, o: Order, onlyBookmarked: bool) {
    && SortedBy(view, o)
    && (forall e :: e in view <==> e.url in rows && rows[e.url] == e && (onlyBookmarked ==> e.isBookmarked))
    && (forall e :: multiset(view)[e] <= 1)
  }

  class ArticleDao {
    var rows: map<string, ArticleEntity>

    ghost predicate Valid()
      reads this
    {
      Table.KeyedBy(rows, ArticleUrl)
    }

    constructor ()
      ensures Valid() && rows == map[]
    {
      rows := map[];
    }

    /** `@Insert(onConflict = REPLACE) insertAll(articles)` */
    method InsertAll(articles: seq<ArticleEntity>)
      requires Valid()
      modifies this
      ensures Valid()
      ensures rows == Table.Upsert(old(rows), articles, ArticleUrl)
    {
      for i := 0 to |articles|
        invariant Table.KeyedBy(rows, ArticleUrl)
        invariant Table.Upsert(rows, articles[i..], ArticleUrl) == Table.Upsert(old(rows), articles, ArticleUrl)
      {
        assert articles[i..][1..] == articles[i + 1..];
        rows := rows[articles[i].url := articles[i]];
      }
    }

    /** `SELECT * FROM articles ORDER BY insertedTimestamp DESC` */
    method GetArticlesPagingSource() returns (view: seq<ArticleEntity>)
      requires Valid()
      ensures IsOrderedView(view, rows, ByInsertedDesc, false)
    {
      view := Select(ByInsertedDesc, false);
    }

    /** `SELECT * FROM articles WHERE isBookmarked = 1 ORDER BY publishedAt DESC`,
        the query of both `getBookmarkedArticlesPagingSource` and
        `getBookmarkedArticlesFlow`. */
    method GetBookmarkedArticles() returns (view: seq<ArticleEntity>)
      requires Valid()
      ensures IsOrderedView(view, rows, ByPublishedDesc, true)
    {
      view := Select(ByPublishedDesc, true);
    }

    /** The query engine: visit the rows in any order, keeping the selected
        ones sorted. */
    method Select(o: Order, onlyBookmarked: bool) returns (view: seq<ArticleEntity>)
      requires Valid()
      ensures IsOrderedView(view, rows, o, onlyBookmarked)
    {
      view := [];
      var todo := rows.Keys;
      while todo != {}
        invariant todo <= rows.Keys
        invariant SortedBy(view, o)
        invariant forall e :: e in view <==>
          e.url in rows && rows[e.url] == e && e.url !in todo && (onlyBookmarked ==> e.isBookmarked)
        invariant forall e :: multiset(view)[e] <= 1
        decreases todo
      {
        var u :| u in todo;
        var row := rows[u];
        if !onlyBookmarked || row.isBookmarked {
          assert row !in view;
          view := InsertSorted(row, view, o);
          assert forall e :: e in view <==> e in multiset(view);
        }
        todo := todo - {u};
      }
    }

    /** `UPDATE articles SET isBookmarked = :isBookmarked WHERE url = :articleUrl` */
    method SetBookmarkStatus(articleUrl: string, isBookmarked: bool)
      requires Valid()
      modifies this
      ensures Valid()
      ensures rows == WithBookmark(old(rows), articleUrl, isBookmarked)
    {
      if articleUrl in rows {
        rows := rows[articleUrl := rows[articleUrl].(isBookmarked := isBookmarked)];
      }
    }

    /** `SELECT * FROM articles WHERE url = :articleUrl` */
    method GetArticleByUrl(articleUrl: string) returns (r: Option<ArticleEntity>)
      requires Valid()
      ensures r.Some? <==> articleUrl in rows
      ensures r.Some? ==> r.value == rows[articleUrl] && r.value.url == articleUrl
    {
      r := if articleUrl in rows then Some(rows[articleUrl]) else None;
    }

    /** `DELETE FROM articles` */
    method ClearAllArticles()
      modifies this
      ensures Valid() && rows == map[]
    {
      rows := map[];
    }

    /** `SELECT COUNT(url) FROM articles` */
    method CountArticles() returns (n: int)
      ensures n == |rows|
      ensures n == 0 <==> rows == map[]
    {
      n := |rows|;
    }
  }
}
