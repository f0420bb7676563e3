/** The two `ORDER BY` clauses of the article queries, as SQLite evaluates
    them: integers numerically, TEXT (BINARY collation) lexicographically by
    character, and NULL below every other value, so last in a DESC order. */
module ArticleOrder {
  import opened Nullable
  import opened Entities

  datatype Order =
    | ByInsertedDesc   // ORDER BY insertedTimestamp DESC
    | ByPublishedDesc  // ORDER BY publishedAt DESC

  /** `a <= b` for TEXT under the BINARY collation. */
  predicate LexLe(a: string, b: string) {
    a == [] || (b != [] && (a[0] < b[0] || (a[0] == b[0] && LexLe(a[1..], b[1..]))))
  }

  /** `a >= b` for a nullable TEXT column, NULL being the least value. */
  predicate NullableTextGe(a: Option<string>, b: Option<string>) {
    match (a, b)
    case (_, None) => true
    case (None, Some(_)) => false
    case (Some(x), Some(y)) => LexLe(y, x)
  }

  /** `a` may be listed before `b` in order `o`. */
  predicate Precedes(a: ArticleEntity, b: ArticleEntity, o: Order) {
    match o
    case ByInsertedDesc => a.insertedTimestamp >= b.insertedTimestamp
    case ByPublishedDesc => NullableTextGe(a.publishedAt, b.publishedAt)
  }

  predicate SortedBy(s: seq<ArticleEntity>, o: Order) {
    forall i, j :: 0 <= i < j < |s| ==> Precedes(s[i], s[j], o)
  }

  lemma {:induction false} LexLeTotal(a: string, b: string)
    ensures LexLe(a, b) || LexLe(b, a)
  {
    if a != [] && b != [] && a[0] == b[0] {
      LexLeTotal(a[1..], b[1..]);
    }
  }

  lemma {:induction false} LexLeTransitive(a: string, b: string, c: string)
    requires LexLe(a, b) && LexLe(b, c)
    ensures LexLe(a, c)
  {
    if a != [] && a[0] == b[0] && b[0] == c[0] {
      LexLeTransitive(a[1..], b[1..], c[1..]);
    }
  }

  /** Any two rows can be compared: the orders are total. */
  lemma PrecedesTotal(a: ArticleEntity, b: ArticleEntity, o: Order)
    ensures Precedes(a, b, o) || Precedes(b, a, o)
  {
    if o == ByPublishedDesc && a.publishedAt.Some? && b.publishedAt.Some? {
      LexLeTotal(a.publishedAt.value, b.publishedAt.value);
    }
  }

  lemma PrecedesTransitive(a: ArticleEntity, b: ArticleEntity, c: ArticleEntity, o: Order)
    requires Precedes(a, b, o) && Precedes(b, c, o)
    ensures Precedes(a, c, o)
  {
    if o == ByPublishedDesc && a.publishedAt.Some? && b.publishedAt.Some? && c.publishedAt.Some? {
      LexLeTransitive(c.publishedAt.value, b.publishedAt.value, a.publishedAt.value);
    }
  }

  /** `x` placed into the sorted `s` ahead of the first row it may precede. */
  function InsertSorted(x: ArticleEntity, s: seq<ArticleEntity>, o: Order): (r: seq<ArticleEntity>)
    requires SortedBy(s, o)
    ensures SortedBy(r, o)
    ensures multiset(r) == multiset(s) + multiset{x}
  {
    if s == [] then [x]
    else if Precedes(x, s[0], o) then
      assert forall j :: 0 < j < |s| ==> Precedes(s[0], s[j], o);
      forall j | 0 < j < |s| ensures Precedes(x, s[j], o) {
        PrecedesTransitive(x, s[0], s[j], o);
      }
      [x] + s
    else
      var rest := InsertSorted(x, s[1..], o);
      PrecedesTotal(x, s[0], o);
      assert s == [s[0]] + s[1..];
      forall j | 0 <= j < |rest| ensures Precedes(s[0], rest[j], o) {
        assert multiset(rest)[rest[j]] > 0;
        if rest[j] != x {
          assert rest[j] in multiset(s[1..]);
        }
      }
      [s[0]] + rest
  }
}
