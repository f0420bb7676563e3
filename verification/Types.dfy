/** Kotlin's nullable types `T?`. */
module Nullable {
  datatype Option<+T> = None | Some(value: T) {
    /** `this ?: default` */
    function GetOr(default: T): T {
      match this
      case Some(v) => v
      case None => default
    }
  }
}

/** The JSON records of the NewsAPI responses and the abstract HTTP call. */
module Remote {
  import opened Nullable

  datatype SourceDto = SourceDto(id: Option<string>, name: Option<string>)

  datatype ArticleDto = ArticleDto(
    source: Option<SourceDto>,
    author: Option<string>,
    title: Option<string>,
    description: Option<string>,
    url: Option<string>,
    urlToImage: Option<string>,
    publishedAt: Option<string>,
    content: Option<string>)

  datatype NewsResponseDto = NewsResponseDto(
    status: string,
    totalResults: Option<int>,
    articles: Option<seq<ArticleDto>>,
    code: Option<string>,
    message: Option<string>)

  /** Parameters of `getTopHeadlines`. */
  datatype HeadlinesRequest = HeadlinesRequest(country: string, category: Option<string>, page: int, pageSize: int)

  /** Parameters of `searchEverything`. */
  datatype SearchRequest = SearchRequest(query: string, sortBy: string, page: int, pageSize: int)

  /** What one call to the news service can come back with: a response with an
      HTTP status code and a possibly absent body, an `IOException`, or any
      other exception. */
  datatype ApiReply = Response(code: int, body: Option<NewsResponseDto>) | IoFailure | OtherFailure

  /** Retrofit's `Response.isSuccessful`: a status code in 200..299. */
  predicate IsSuccessful(code: int) {
    200 <= code <= 299
  }

  /** `body?.articles ?: emptyList()` */
  function ArticlesOf(body: Option<NewsResponseDto>): seq<ArticleDto> {
    if body.Some? && body.value.articles.Some? then body.value.articles.value else []
  }

  /** `body?.totalResults ?: 0` */
  function TotalResultsOf(body: Option<NewsResponseDto>): int {
    if body.Some? then body.value.totalResults.GetOr(0) else 0
  }

  /** Why a paged load failed: a non-2xx `HttpException`, an `IOException`, or
      any other exception. */
  datatype Failure = HttpError(code: int) | IoError | OtherError
}

/** The Room entities. */
module Entities {
  import opened Nullable

  datatype SourceEmbeddable = SourceEmbeddable(id: Option<string>, name: Option<string>)

  /** A row of the `articles` table; `url` is the primary key. */
  datatype ArticleEntity = ArticleEntity(
    url: string,
    source: Option<SourceEmbeddable>,
    author: Option<string>,
    title: Option<string>,
    description: Option<string>,
    urlToImage: Option<string>,
    publishedAt: Option<string>,
    content: Option<string>,
    isBookmarked: bool,
    insertedTimestamp: int)

  /** A row of the `remote_keys` table; `articleUrl` is the primary key. */
  datatype RemoteKeyEntity = RemoteKeyEntity(articleUrl: string, prevKey: Option<int>, nextKey: Option<int>)

  /** Primary key of an article row. */
  function ArticleUrl(e: ArticleEntity): string {
    e.url
  }

  /** Primary key of a remote-key row. */
  function KeyArticleUrl(k: RemoteKeyEntity): string {
    k.articleUrl
  }
}

/** The domain model the UI consumes. */
module Domain {
  import opened Nullable

  datatype Source = Source(id: Option<string>, name: string)

  datatype Article = Article(
    id: string,
    source: Source,
    author: Option<string>,
    title: string,
    description: Option<string>,
    url: string,
    urlToImage: Option<string>,
    publishedAt: string,
    content: Option<string>,
    isBookmarked: bool)
}
