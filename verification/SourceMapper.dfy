/** Conversions of an article's news source between the API, Room and the
    domain, with "Unknown Source" standing in for a missing name. */
module SourceMapper {
  import opened Nullable
  import opened Remote
  import opened Entities
  import opened Domain

  const UnknownSource: string := "Unknown Source"

  /** `SourceDto?.toDomainSource()` */
  function DtoToDomainSource(dto: Option<SourceDto>): (s: Source)
    ensures s.id == (if dto.Some? then dto.value.id else None)
    ensures s.name == (if dto.Some? && dto.value.name.Some? then dto.value.name.value else UnknownSource)
  {
    var id := if dto.Some? then dto.value.id else None;
    var name := if dto.Some? && dto.value.name.Some? then dto.value.name.value else UnknownSource;
    Source(id, name)
  }

  /** `Source.toEntitySourceEmbeddable()` */
  function ToEntitySourceEmbeddable(s: Source): (e: SourceEmbeddable)
    ensures e.id == s.id && e.name == Some(s.name)
  {
    SourceEmbeddable(s.id, Some(s.name))
  }

  /** `SourceEmbeddable?.toDomainSource()` */
  function EmbeddableToDomainSource(e: Option<SourceEmbeddable>): (s: Source)
    ensures s.id == (if e.Some? then e.value.id else None)
    ensures s.name == (if e.Some? && e.value.name.Some? then e.value.name.value else UnknownSource)
  {
    var name := if e.Some? && e.value.name.Some? then e.value.name.value else UnknownSource;
    Source(if e.Some? then e.value.id else None, name)
  }

  /** Storing a domain source in Room and reading it back loses nothing. */
  lemma EmbeddableRoundTrip(s: Source)
    ensures EmbeddableToDomainSource(Some(ToEntitySourceEmbeddable(s))) == s
  {
  }

  /** The path API -> domain -> Room -> domain gives the same source as the
      direct API -> domain conversion, including for a missing source (which
      Room stores as a null embeddable). */
  lemma StoredSourceAgreesWithDirect(dto: Option<SourceDto>)
    ensures EmbeddableToDomainSource(
              if dto.Some? then Some(ToEntitySourceEmbeddable(DtoToDomainSource(dto))) else None)
            == DtoToDomainSource(dto)
  {
  }
}
