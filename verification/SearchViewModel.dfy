/** `SearchViewModel`: the saved query, the search trigger and the pipeline
    from trigger values to searches (debounce, length filter, empty-query
    short cut), and the bookmark toggle of a search result. */
module SearchViewModel {
  import opened Domain
  import ArticleDao
  import NewsRepository

  /** `SEARCH_DEBOUNCE_MS` */
  const DebounceMillis := 500

  /** The sort order every search uses. */
  const Relevancy := "relevancy"

  /** A value the trigger flow emitted, and when (milliseconds). */
  datatype Emission = Emission(time: int, value: string)

  /** What the pipeline does with a value that got through: show an empty
      result list without a request, or search. */
  datatype SearchAction = ShowEmpty | Search(query: string, sortBy: string)

  // ---- the searchResults pipeline, over the trigger's emissions ----

  /** `debounce(timeout)` over a finite run of emissions: a value is passed on
      when no newer value arrives within `timeout` of it; the latest value is
      always passed on once the timeout has elapsed. */
  function Debounce(es: seq<Emission>, timeout: int): seq<Emission> {
    if |es| <= 1 then es
    else if es[1].time - es[0].time >= timeout then [es[0]] + Debounce(es[1..], timeout)
    else Debounce(es[1..], timeout)
  }

  /** Whether emission `i` survives the debounce. */
  predicate Quiet(es: seq<Emission>, i: int, timeout: int)
    requires 0 <= i < |es|
  {
    i == |es| - 1 || es[i + 1].time - es[i].time >= timeout
  }

  /** Kotlin's `String.length`: the number of UTF-16 code units, two for a
      character beyond U+FFFF. */
  function Utf16Length(s: string): (n: nat)
    ensures |s| <= n <= 2 * |s|
    ensures (forall i :: 0 <= i < |s| ==> s[i] as int <= 0xFFFF) ==> n == |s|
  {
    if s == [] then 0
    else (if s[0] as int > 0xFFFF then 2 else 1) + Utf16Length(s[1..])
  }

  /** `filter { query -> query.length > 2 || query.isEmpty() }` */
  predicate PassesFilter(query: string) {
    Utf16Length(query) > 2 || query == []
  }

  /** The `flatMapLatest` body: the empty query shows empty results, any other
      query searches by relevancy. */
  function Select(query: string): SearchAction {
    if query == [] then ShowEmpty else Search(query, Relevancy)
  }

  function SelectAll(qs: seq<string>): seq<SearchAction> {
    if qs == [] then [] else [Select(qs[0])] + SelectAll(qs[1..])
  }

  function FilterQueries(es: seq<Emission>): seq<string> {
    if es == [] then []
    else if PassesFilter(es[0].value) then [es[0].value] + FilterQueries(es[1..])
    else FilterQueries(es[1..])
  }

  /** What the pipeline does for a run of trigger emissions, in order. */
  function SearchResults(es: seq<Emission>): seq<SearchAction> {
    SelectAll(FilterQueries(Debounce(es, DebounceMillis)))
  }

  // ---- properties of the pipeline ----

  /** Exactly the quiet emissions survive the debounce, and never more than
      came in. */
  lemma {:induction false} DebounceKeepsQuietValues(es: seq<Emission>, timeout: int)
    ensures |Debounce(es, timeout)| <= |es|
    ensures forall e :: e in Debounce(es, timeout) <==>
      exists i :: 0 <= i < |es| && es[i] == e && Quiet(es, i, timeout)
  {
    if |es| > 1 {
      DebounceKeepsQuietValues(es[1..], timeout);
      forall e ensures e in Debounce(es, timeout) <==> exists i :: 0 <= i < |es| && es[i] == e && Quiet(es, i, timeout) {
        if e in Debounce(es[1..], timeout) {
          var j :| 0 <= j < |es[1..]| && es[1..][j] == e && Quiet(es[1..], j, timeout);
          assert es[j + 1] == e && Quiet(es, j + 1, timeout);
        }
        if exists i :: 0 <= i < |es| && es[i] == e && Quiet(es, i, timeout) {
          var i :| 0 <= i < |es| && es[i] == e && Quiet(es, i, timeout);
          if i > 0 {
            assert es[1..][i - 1] == e && Quiet(es[1..], i - 1, timeout);
          }
        }
      }
    }
  }

  /** The latest value always gets through the debounce, last. */
  lemma {:induction false} DebounceKeepsLatest(es: seq<Emission>, timeout: int)
    requires es != []
    ensures Debounce(es, timeout) != []
    ensures Debounce(es, timeout)[|Debounce(es, timeout)| - 1] == es[|es| - 1]
  {
    if |es| > 1 {
      DebounceKeepsLatest(es[1..], timeout);
    }
  }

  /** A burst of values each arriving within the timeout of the one before
      collapses into its latest value. */
  lemma {:induction false} BurstCollapses(es: seq<Emission>, timeout: int)
    requires es != []
    requires forall i :: 0 <= i < |es| - 1 ==> es[i + 1].time - es[i].time < timeout
    ensures Debounce(es, timeout) == [es[|es| - 1]]
  {
    if |es| > 1 {
      BurstCollapses(es[1..], timeout);
    }
  }

  lemma {:induction false} FilterQueriesPass(es: seq<Emission>)
    ensures forall q :: q in FilterQueries(es) <==> exists e :: e in es && e.value == q && PassesFilter(q)
  {
    if es != [] {
      FilterQueriesPass(es[1..]);
      assert forall e :: e in es <==> e == es[0] || e in es[1..];
    }
  }

  lemma {:induction false} SelectAllActions(qs: seq<string>)
    ensures |SelectAll(qs)| == |qs|
    ensures forall i :: 0 <= i < |qs| ==> SelectAll(qs)[i] == Select(qs[i])
  {
    if qs != [] {
      SelectAllActions(qs[1..]);
    }
  }

  /** Every search the pipeline starts is for a value the trigger held, that
      stayed quiet for the debounce time and is longer than two characters,
      and it sorts by relevancy; the empty query only ever shows empty
      results. */
  lemma PipelineSearchesOnlyQuietLongQueries(es: seq<Emission>, a: SearchAction)
    requires a in SearchResults(es)
    ensures a.Search? ==> Utf16Length(a.query) > 2 && a.sortBy == "relevancy"
    ensures exists i :: (0 <= i < |es| && Quiet(es, i, DebounceMillis) && PassesFilter(es[i].value) &&
      a == Select(es[i].value))
  {
    var d := Debounce(es, DebounceMillis);
    var qs := FilterQueries(d);
    SelectAllActions(qs);
    var k :| 0 <= k < |qs| && SearchResults(es)[k] == a;
    FilterQueriesPass(d);
    assert qs[k] in qs;
    var e :| e in d && e.value == qs[k] && PassesFilter(qs[k]);
    DebounceKeepsQuietValues(es, DebounceMillis);
    var i :| 0 <= i < |es| && es[i] == e && Quiet(es, i, DebounceMillis);
  }

  lemma {:induction false} FilterQueriesSnoc(es: seq<Emission>, x: Emission)
    ensures FilterQueries(es + [x]) == FilterQueries(es) + (if PassesFilter(x.value) then [x.value] else [])
  {
    if es == [] {
      assert es + [x] == [x];
    } else {
      assert (es + [x])[0] == es[0];
      assert (es + [x])[1..] == es[1..] + [x];
      FilterQueriesSnoc(es[1..], x);
    }
  }

  /** The value the trigger settles on is always acted on, last, when it
      passes the length filter; otherwise it is dropped. */
  lemma LatestQueryIsActedOn(es: seq<Emission>)
    requires es != []
    ensures var latest := es[|es| - 1].value;
      PassesFilter(latest) ==>
        SearchResults(es) != [] && SearchResults(es)[|SearchResults(es)| - 1] == Select(latest)
  {
    var d := Debounce(es, DebounceMillis);
    DebounceKeepsLatest(es, DebounceMillis);
    assert d == d[..|d| - 1] + [es[|es| - 1]];
    FilterQueriesSnoc(d[..|d| - 1], es[|es| - 1]);
    SelectAllActions(FilterQueries(d));
  }

  /** Typing "k", "ko", "kot" quickly and then pausing starts exactly one
      search, for "kot". */
  lemma TypingBurstSearchesOnce()
    ensures SearchResults([Emission(0, "k"), Emission(120, "ko"), Emission(260, "kot")])
         == [Search("kot", "relevancy")]
  {
    var es := [Emission(0, "k"), Emission(120, "ko"), Emission(260, "kot")];
    BurstCollapses(es, DebounceMillis);
    assert Utf16Length("kot") == 3;
    assert FilterQueries([Emission(260, "kot")]) == ["kot"];
    assert SelectAll(["kot"]) == [Select("kot")];
  }

  /** Pausing on a two-character query starts no search at all. */
  lemma ShortQueryIgnored()
    ensures SearchResults([Emission(0, "ab")]) == []
  {
    assert Utf16Length("ab") == 2;
  }

  /** The length is counted in UTF-16 units: a letter followed by an emoji
      is two characters but three units long, so it is searched. */
  lemma EmojiQuerySearched()
    ensures |"a\U{1F600}"| == 2
    ensures SearchResults([Emission(0, "a\U{1F600}")]) == [Search("a\U{1F600}", "relevancy")]
  {
    assert Utf16Length("a\U{1F600}") == 3;
    assert FilterQueries([Emission(0, "a\U{1F600}")]) == ["a\U{1F600}"];
    assert SelectAll(["a\U{1F600}"]) == [Select("a\U{1F600}")];
  }

  // ---- the view model ----

  class SearchViewModel {
    /** `savedStateHandle[SEARCH_QUERY_KEY]`, exposed as `searchQuery`. */
    var savedQuery: string
    /** `_searchTrigger.value` */
    var trigger: string
    /** Everything the trigger flow emitted so far; like every `StateFlow` it
        emits only when its value changes. */
    var emissions: seq<Emission>
    const repository: NewsRepository.NewsRepositoryImpl

    predicate Valid()
      reads this
    {
      trigger == savedQuery && emissions != [] && emissions[|emissions| - 1].value == trigger
    }

    /** The trigger starts at the saved query (restored, or "" by default). */
    constructor (restoredQuery: string, now: int, repository: NewsRepository.NewsRepositoryImpl)
      ensures Valid()
      ensures savedQuery == restoredQuery && emissions == [Emission(now, restoredQuery)]
      ensures this.repository == repository
    {
      savedQuery := restoredQuery;
      trigger := restoredQuery;
      emissions := [Emission(now, restoredQuery)];
      this.repository := repository;
    }

    /** Assigning the trigger flow: an emission only if the value changes. */
    method SetTrigger(value: string, now: int)
      modifies this
      ensures savedQuery == old(savedQuery) && trigger == value
      ensures emissions == old(emissions) + (if old(trigger) == value then [] else [Emission(now, value)])
    {
      if trigger != value {
        emissions := emissions + [Emission(now, value)];
      }
      trigger := value;
    }

    /** `onQueryChanged(query)` at time `now`. */
    method OnQueryChanged(query: string, now: int)
      requires Valid()
      modifies this
      ensures Valid()
      ensures savedQuery == query && trigger == query
      ensures emissions == old(emissions) + (if old(trigger) == query then [] else [Emission(now, query)])
    {
      savedQuery := query;
      SetTrigger(query, now);
    }

    /** `performSearchNow()`: sets the trigger to the saved query, which it
        already holds, so nothing is emitted and nothing bypasses the
        debounce. */
    method PerformSearchNow(now: int)
      requires Valid()
      modifies this
      ensures Valid()
      ensures savedQuery == old(savedQuery) && trigger == old(trigger) && emissions == old(emissions)
    {
      SetTrigger(savedQuery, now);
    }

    /** `toggleBookmark(article)`: asks for the opposite of the flag the
        result carries, for the url that is its id. */
    method ToggleBookmark(article: Article)
      requires repository.articleDao.Valid()
      modifies repository.articleDao
      ensures repository.articleDao.Valid()
      ensures repository.articleDao.rows ==
        ArticleDao.WithBookmark(old(repository.articleDao.rows), article.id, !article.isBookmarked)
    {
      repository.SetBookmark(article.id, !article.isBookmarked);
    }
  }
}
