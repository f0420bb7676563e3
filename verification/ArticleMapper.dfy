/** Validating conversions of articles: API record -> Room row -> domain
    article, and the direct API record -> domain article used by search. */
module ArticleMapper {
  import opened Nullable
  import opened Remote
  import opened Entities
  import opened Domain
  import SourceMapper

  const NoTitle: string := "No Title"

  /** The three fields without which an API record is dropped. */
  predicate HasMandatoryFields(dto: ArticleDto) {
    dto.url.Some? && dto.title.Some? && dto.publishedAt.Some?
  }

  /** `ArticleDto.toArticleEntity()`; `now` stands for the clock reading that
      becomes `insertedTimestamp`. */
  function ToArticleEntity(dto: ArticleDto, now: int): (e: Option<ArticleEntity>)
    ensures e.Some? <==> HasMandatoryFields(dto)
    ensures e.Some? ==>
      && Some(e.value.url) == dto.url
      && e.value.title == dto.title
      && e.value.publishedAt == dto.publishedAt
      && e.value.author == dto.author
      && e.value.description == dto.description
      && e.value.urlToImage == dto.urlToImage
      && e.value.content == dto.content
      && e.value.source == (if dto.source.Some?
           then Some(SourceMapper.ToEntitySourceEmbeddable(SourceMapper.DtoToDomainSource(dto.source)))
           else None)
      && !e.value.isBookmarked
      && e.value.insertedTimestamp == now
  {
    if dto.url.None? then None
    else if dto.title.None? then None
    else if dto.publishedAt.None? then None
    else
      var source := if dto.source.Some?
        then Some(SourceMapper.ToEntitySourceEmbeddable(SourceMapper.DtoToDomainSource(dto.source)))
        else None;
      Some(ArticleEntity(
        dto.url.value, source, dto.author, dto.title, dto.description,
        dto.urlToImage, dto.publishedAt, dto.content, false, now))
  }

  /** `ArticleEntity.toDomainArticle()` */
  function ToDomainArticle(e: ArticleEntity): (a: Article)
    ensures a.id == e.url && a.url == e.url
    ensures a.title == e.title.GetOr(NoTitle)
    ensures a.publishedAt == e.publishedAt.GetOr("")
    ensures a.source == SourceMapper.EmbeddableToDomainSource(e.source)
    ensures a.author == e.author && a.description == e.description
    ensures a.urlToImage == e.urlToImage && a.content == e.content
    ensures a.isBookmarked == e.isBookmarked
  {
    Article(
      e.url, SourceMapper.EmbeddableToDomainSource(e.source), e.author,
      e.title.GetOr(NoTitle), e.description, e.url, e.urlToImage,
      e.publishedAt.GetOr(""), e.content, e.isBookmarked)
  }

  /** `List<ArticleEntity>.toDomainArticleList()` */
  function ToDomainArticleList(es: seq<ArticleEntity>): (r: seq<Article>)
    ensures |r| == |es|
    ensures forall i :: 0 <= i < |es| ==> r[i] == ToDomainArticle(es[i])
  {
    if es == [] then [] else [ToDomainArticle(es[0])] + ToDomainArticleList(es[1..])
  }

  /** `ArticleDto.toSimpleDomainArticle()` */
  function ToSimpleDomainArticle(dto: ArticleDto): (a: Option<Article>)
    ensures a.Some? <==> HasMandatoryFields(dto)
    ensures a.Some? ==>
      && Some(a.value.id) == dto.url && Some(a.value.url) == dto.url
      && a.value.title == dto.title.value && a.value.publishedAt == dto.publishedAt.value
      && a.value.source == SourceMapper.DtoToDomainSource(dto.source)
      && a.value.author == dto.author && a.value.description == dto.description
      && a.value.urlToImage == dto.urlToImage && a.value.content == dto.content
      && !a.value.isBookmarked
  {
    if dto.url.None? then None
    else if dto.title.None? then None
    else if dto.publishedAt.None? then None
    else
      Some(Article(
        dto.url.value, SourceMapper.DtoToDomainSource(dto.source), dto.author,
        dto.title.value, dto.description, dto.url.value, dto.urlToImage,
        dto.publishedAt.value, dto.content, false))
  }

  /** Storing a record in Room and reading it back gives the same domain article
      as the direct conversion, and both drop exactly the same records. */
  lemma EntityPathAgreesWithDirectPath(dto: ArticleDto, now: int)
    ensures (match ToArticleEntity(dto, now)
             case None => None
             case Some(e) => Some(ToDomainArticle(e)))
            == ToSimpleDomainArticle(dto)
  {
    if HasMandatoryFields(dto) {
      SourceMapper.StoredSourceAgreesWithDirect(dto.source);
    }
  }

  /** `dtos.mapNotNull { it.toArticleEntity() }`: the valid records, in order,
      as fresh un-bookmarked rows. */
  function ValidEntities(dtos: seq<ArticleDto>, now: int): (es: seq<ArticleEntity>)
    ensures |es| <= |dtos|
    ensures es == [] <==> forall i :: 0 <= i < |dtos| ==> !HasMandatoryFields(dtos[i])
    ensures forall e :: e in es ==> !e.isBookmarked && e.insertedTimestamp == now
    ensures forall e :: e in es <==> exists d :: d in dtos && ToArticleEntity(d, now) == Some(e)
  {
    if dtos == [] then []
    else
      var rest := ValidEntities(dtos[1..], now);
      assert forall d :: d in dtos <==> d == dtos[0] || d in dtos[1..];
      match ToArticleEntity(dtos[0], now)
      case None => rest
      case Some(e) => [e] + rest
  }

  /** `filter { it.url != null && it.title != null && it.publishedAt != null }` */
  function ValidDtos(dtos: seq<ArticleDto>): (r: seq<ArticleDto>)
    ensures |r| <= |dtos|
    ensures forall d :: d in r <==> d in dtos && HasMandatoryFields(d)
  {
    if dtos == [] then []
    else
      var rest := ValidDtos(dtos[1..]);
      assert forall d :: d in dtos <==> d == dtos[0] || d in dtos[1..];
      if HasMandatoryFields(dtos[0]) then [dtos[0]] + rest else rest
  }

  /** The filter keeps input order: filtering a concatenation filters each
      part. */
  lemma {:induction false} ValidDtosAppend(a: seq<ArticleDto>, b: seq<ArticleDto>)
    ensures ValidDtos(a + b) == ValidDtos(a) + ValidDtos(b)
  {
    if a == [] {
      assert a + b == b;
    } else {
      assert (a + b)[0] == a[0];
      assert (a + b)[1..] == a[1..] + b;
      ValidDtosAppend(a[1..], b);
    }
  }

  /** A record with its mandatory fields survives the filter, one without does
      not. */
  lemma ValidDtosSingle(d: ArticleDto)
    ensures ValidDtos([d]) == if HasMandatoryFields(d) then [d] else []
  {
    assert [d][1..] == [];
  }

  /** One entity per record that passes the filter. */
  lemma {:induction false} ValidEntitiesCount(dtos: seq<ArticleDto>, now: int)
    ensures |ValidEntities(dtos, now)| == |ValidDtos(dtos)|
  {
    if dtos != [] {
      ValidEntitiesCount(dtos[1..], now);
    }
  }

  /** `mapNotNull { it.toSimpleDomainArticle() }` */
  function SimpleArticles(dtos: seq<ArticleDto>): seq<Article> {
    if dtos == [] then []
    else
      match ToSimpleDomainArticle(dtos[0])
      case None => SimpleArticles(dtos[1..])
      case Some(a) => [a] + SimpleArticles(dtos[1..])
  }

  /** On records that all have their mandatory fields, the null-dropping map
      drops nothing: one article per record, in order. */
  lemma {:induction false} SimpleArticlesOfValid(dtos: seq<ArticleDto>)
    requires forall i :: 0 <= i < |dtos| ==> HasMandatoryFields(dtos[i])
    ensures |SimpleArticles(dtos)| == |dtos|
    ensures forall i :: 0 <= i < |dtos| ==> Some(SimpleArticles(dtos)[i]) == ToSimpleDomainArticle(dtos[i])
  {
    if dtos != [] {
      SimpleArticlesOfValid(dtos[1..]);
    }
  }

  /** Filtering before the null-dropping map changes nothing: the filter that
      search applies first is redundant with the mapper's own validation. */
  lemma {:induction false} FilterIsRedundant(dtos: seq<ArticleDto>)
    ensures SimpleArticles(ValidDtos(dtos)) == SimpleArticles(dtos)
  {
    if dtos != [] {
      FilterIsRedundant(dtos[1..]);
    }
  }

  /** The cached path (records -> rows -> domain list) and the search path
      (records -> domain) produce the same list of articles from one page. */
  lemma {:induction false} CachedPageAgreesWithSearchPage(dtos: seq<ArticleDto>, now: int)
    ensures ToDomainArticleList(ValidEntities(dtos, now)) == SimpleArticles(dtos)
  {
    if dtos != [] {
      CachedPageAgreesWithSearchPage(dtos[1..], now);
      EntityPathAgreesWithDirectPath(dtos[0], now);
    }
  }
}
