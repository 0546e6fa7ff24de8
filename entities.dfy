/** The rows the client reads from the data service, and the one-of-two
    target pair that favorites and comments carry. */
module Entities {
  import opened Wrappers

  /** `type: 'celebrity' | 'film'`. */
  datatype EntityKind = CelebrityKind | FilmKind

  /** A row of `celebrities`; every page reads the columns it needs. */
  datatype Celebrity = Celebrity(
    id: string,
    name: string,
    imageUrl: Option<string>,
    knownFor: Option<string>,
    nationality: Option<string>,
    bio: Option<string>,
    birthDate: Option<string>,
    birthPlace: Option<string>)

  /** A row of `films`. The rating is kept as a real number: only its order
      matters to the client. */
  datatype Film = Film(
    id: string,
    title: string,
    posterUrl: Option<string>,
    synopsis: Option<string>,
    releaseYear: Option<int>,
    genre: Option<string>,
    director: Option<string>,
    rating: Option<real>,
    durationMinutes: Option<int>)

  /** The profile columns joined onto comments:
      `user_id, username, full_name, avatar_url`. */
  datatype AuthorProfile = AuthorProfile(
    userId: string,
    username: Option<string>,
    fullName: Option<string>,
    avatarUrl: Option<string>)

  /** `Number(f.rating) || 0`. */
  function RatingOrZero(f: Film): real {
    f.rating.GetOr(0.0)
  }

  /** `f.release_year || 0`. */
  function YearOrZero(f: Film): int {
    f.releaseYear.GetOr(0)
  }

  /** What a favorite or a comment is about. */
  datatype Target = Target(kind: EntityKind, id: string)

  /** The pair `(celebrity_id, film_id)` that stores a target: the field of
      its kind holds the id, the other is null. */
  function TargetColumns(t: Target): (Option<string>, Option<string>) {
    if t.kind == CelebrityKind then (Some(t.id), None) else (None, Some(t.id))
  }

  /** Reads a stored pair back; a pair with both or neither field set names
      no target. */
  function TargetOf(celebrityId: Option<string>, filmId: Option<string>): (r: Option<Target>)
    ensures r.Some? ==> TargetColumns(r.value) == (celebrityId, filmId)
    ensures r.None? <==> celebrityId.Some? == filmId.Some?
  {
    if celebrityId.Some? && filmId.None? then Some(Target(CelebrityKind, celebrityId.value))
    else if celebrityId.None? && filmId.Some? then Some(Target(FilmKind, filmId.value))
    else None
  }

  /** Storing a target and reading it back gives the same target. */
  lemma TargetRoundTrip(t: Target)
    ensures TargetOf(TargetColumns(t).0, TargetColumns(t).1) == Some(t)
  {
  }
}
