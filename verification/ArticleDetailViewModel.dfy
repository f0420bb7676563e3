/** `ArticleDetailViewModel`: the detail screen's UI state for one article
    url, loaded from the local table, and its bookmark toggle. */
module ArticleDetailViewModel {
  import opened Nullable
  import opened Domain
  import opened Entities
  import ArticleMapper
  import ArticleDao
  import NewsRepository
  import Table

  /** The navigation argument holding the url. */
  const ArticleUrlKey := "articleUrl"

  const NotFoundMessage := "Article not found"
  const LoadFailedMessage := "Failed to load article"

  /** `ArticleDetailUiState` */
  datatype UiState = Loading | Success(article: Article) | Error(message: string)

  /** How a load resolves: `found` is what the repository returned, `thrown`
      is `Some(localizedMessage)` when the load threw. */
  function Resolve(found: Option<Article>, thrown: Option<Option<string>>): (s: UiState)
    ensures s != Loading
    ensures s.Success? <==> thrown.None? && found.Some?
    ensures s.Success? ==> s.article == found.value
  {
    match thrown
    case Some(message) => Error(message.GetOr(LoadFailedMessage))
    case None => if found.Some? then Success(found.value) else Error(NotFoundMessage)
  }

  /** The error messages: a missing row reads "Article not found"; a load that
      threw shows the exception's message, or "Failed to load article" when it
      has none. */
  lemma ResolveErrors(found: Option<Article>, thrown: Option<Option<string>>)
    ensures thrown.None? && found.None? ==> Resolve(found, thrown) == Error("Article not found")
    ensures thrown == Some(None) ==> Resolve(found, thrown) == Error("Failed to load article")
    ensures thrown.Some? && thrown.value.Some? ==>
      Resolve(found, thrown) == Error(thrown.value.value)
  {
  }

  /** Toggling from `Success(a)`, with `a` read from the row it shows, and
      reloading shows the same article with the flag flipped. */
  lemma ToggleFlipsShownFlag(rows: map<string, ArticleEntity>, url: string, a: Article)
    requires Table.KeyedBy(rows, ArticleUrl)
    requires url in rows && a == ArticleMapper.ToDomainArticle(rows[url])
    ensures Resolve(NewsRepository.ArticleAt(ArticleDao.WithBookmark(rows, a.id, !a.isBookmarked), url), None)
         == Success(a.(isBookmarked := !a.isBookmarked))
  {
  }

  /** Toggling twice from the state each toggle shows puts the row back as it
      was. */
  lemma ToggleTwiceRestoresRow(rows: map<string, ArticleEntity>, url: string, a: Article)
    requires Table.KeyedBy(rows, ArticleUrl)
    requires url in rows && a == ArticleMapper.ToDomainArticle(rows[url])
    ensures var once := ArticleDao.WithBookmark(rows, a.id, !a.isBookmarked);
      ArticleDao.WithBookmark(once, a.id, !!a.isBookmarked) == rows
  {
    var once := ArticleDao.WithBookmark(rows, a.id, !a.isBookmarked);
    assert once[url := once[url].(isBookmarked := a.isBookmarked)] == rows;
  }

  class ArticleDetailViewModel {
    const articleUrl: string
    const repository: NewsRepository.NewsRepositoryImpl
    /** `_uiState.value` */
    var uiState: UiState
    /** Every value `_uiState` took, in order; like every `StateFlow` it
        changes only when assigned a different value. */
    ghost var trace: seq<UiState>

    ghost predicate Valid()
      reads this
    {
      && trace != [] && trace[0] == Loading && trace[|trace| - 1] == uiState
      && (uiState.Success? ==> uiState.article.id == articleUrl)
    }

    /** Construction with the url argument; `init` runs the first load,
        `thrown` telling whether it throws. */
    constructor (articleUrl: string, repository: NewsRepository.NewsRepositoryImpl, thrown: Option<Option<string>>)
      requires repository.articleDao.Valid()
      ensures Valid()
      ensures this.articleUrl == articleUrl && this.repository == repository
      ensures uiState == Resolve(NewsRepository.ArticleAt(repository.articleDao.rows, articleUrl), thrown)
      ensures trace == [Loading, uiState]
    {
      this.articleUrl := articleUrl;
      this.repository := repository;
      uiState := Loading;
      trace := [Loading];
      new;
      LoadArticleDetails(thrown);
    }

    /** Assigning `_uiState.value`. */
    method SetState(s: UiState)
      modifies this
      ensures uiState == s
      ensures trace == old(trace) + (if old(uiState) == s then [] else [s])
    {
      if uiState != s {
        trace := trace + [s];
      }
      uiState := s;
    }

    /** `loadArticleDetails()`: Loading first, then the outcome. */
    method LoadArticleDetails(thrown: Option<Option<string>>)
      requires repository.articleDao.Valid()
      requires trace != [] && trace[0] == Loading && trace[|trace| - 1] == uiState
      modifies this
      ensures Valid()
      ensures uiState == Resolve(NewsRepository.ArticleAt(repository.articleDao.rows, articleUrl), thrown)
      ensures trace == old(trace) + (if old(uiState) == Loading then [] else [Loading]) + [uiState]
    {
      SetState(Loading);
      if thrown.Some? {
        SetState(Error(thrown.value.GetOr(LoadFailedMessage)));
      } else {
        var article := repository.GetArticle(articleUrl);
        if article.Some? {
          SetState(Success(article.value));
        } else {
          SetState(Error(NotFoundMessage));
        }
      }
    }

    /** `toggleBookmark()`: only from `Success(a)`, set the flag of `a.id` to
        `!a.isBookmarked` and reload. `writeThrows` tells whether the update
        throws (then it is caught and nothing else happens), `reloadThrown`
        how the reload goes. */
    method ToggleBookmark(writeThrows: bool, reloadThrown: Option<Option<string>>)
      requires Valid() && repository.articleDao.Valid()
      modifies this, repository.articleDao
      ensures Valid() && repository.articleDao.Valid()
      ensures !old(uiState).Success? || writeThrows ==>
        uiState == old(uiState) && trace == old(trace) && repository.articleDao.rows == old(repository.articleDao.rows)
      ensures old(uiState).Success? && !writeThrows ==>
        && repository.articleDao.rows == ArticleDao.WithBookmark(old(repository.articleDao.rows),
             old(uiState).article.id, !old(uiState).article.isBookmarked)
        && uiState == Resolve(NewsRepository.ArticleAt(repository.articleDao.rows, articleUrl), reloadThrown)
        && trace == old(trace) + [Loading, uiState]
    {
      if uiState.Success? {
        var currentArticle := uiState.article;
        if !writeThrows {
          repository.SetBookmark(currentArticle.id, !currentArticle.isBookmarked);
          LoadArticleDetails(reloadThrown);
        }
      }
    }
  }

  /** `savedStateHandle.get("articleUrl") ?: throw IllegalStateException`:
      without the argument no view model is made. */
  method Create(args: map<string, string>, repository: NewsRepository.NewsRepositoryImpl, thrown: Option<Option<string>>)
    returns (vm: Option<ArticleDetailViewModel>)
    requires repository.articleDao.Valid()
    ensures vm.None? <==> ArticleUrlKey !in args
    ensures vm.Some? ==>
      (fresh(vm.value) && vm.value.Valid() && vm.value.articleUrl == args[ArticleUrlKey] &&
       vm.value.trace == [Loading, vm.value.uiState])
  {
    if ArticleUrlKey !in args {
      return None;
    }
    var v := new ArticleDetailViewModel(args[ArticleUrlKey], repository, thrown);
    vm := Some(v);
  }
}
