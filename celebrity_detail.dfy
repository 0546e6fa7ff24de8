/** The celebrity detail page: the celebrity, the filmography built from
    the cast links, and whether the celebrity is a favorite. */
module CelebrityDetail {
  import opened Wrappers
  import opened Text
  import opened Sorting
  import Seqs
  import opened Entities
  import opened Cast
  import opened UseFavorites

  /** The page's state. */
  datatype Detail = Detail(celebrity: Option<Celebrity>, films: seq<Credit<Film>>, loading: bool)

  /** The state before any fetch. */
  const Initial := Detail(None, [], true)

  /** `b.release_year || 0` against `a.release_year || 0`: newest first. */
  function YearRank(c: Credit<Film>): Rank {
    Desc(YearOrZero(c.entity) as real)
  }

  /** The cast links with a film, merged with their role fields and sorted
      newest first. */
  function Filmography(rows: seq<CastLink<Film>>): (r: seq<Credit<Film>>)
    ensures |r| <= |rows|
  {
    Sort(Credits(rows), YearRank)
  }

  /** The filmography holds exactly the merged links that have a film, newest
      first with a missing year counted as 0, and is no longer than the cast
      reply. */
  lemma FilmographyCorrect(rows: seq<CastLink<Film>>)
    ensures multiset(Filmography(rows)) == multiset(Credits(rows))
    ensures |Filmography(rows)| <= |rows|
    ensures forall i, j :: 0 <= i < j < |Filmography(rows)| ==>
              YearOrZero(Filmography(rows)[i].entity) >= YearOrZero(Filmography(rows)[j].entity)
    ensures forall c :: c in Filmography(rows) <==> exists i :: 0 <= i < |rows| && rows[i].joined.Some? && c == Merge(rows[i])
  {
    SortCorrect(Credits(rows), YearRank);
    CreditsMembers(rows);
    forall c ensures c in Filmography(rows) <==> c in Credits(rows) {
      assert c in Filmography(rows) <==> c in multiset(Filmography(rows));
    }
  }

  /** Films from the same year keep the order of the cast reply. */
  lemma FilmographyStable(rows: seq<CastLink<Film>>, year: int, sameYear: Credit<Film> -> bool)
    requires forall c :: sameYear(c) <==> YearOrZero(c.entity) == year
    ensures Seqs.Filter(Filmography(rows), sameYear) == Seqs.Filter(Credits(rows), sameYear)
  {
    SortStable(Credits(rows), YearRank, Desc(year as real), sameYear);
  }

  /** `fetchData`, given the route id, the state before, the reply to the
      celebrity query and the data of the cast query. Also says whether the
      cast query was issued. */
  function FetchData(id: Option<string>, before: Detail, celebReply: Reply<Celebrity>,
                     castData: Option<seq<CastLink<Film>>>): (r: (Detail, bool))
    ensures !Truthy(id) ==> r.0 == before && !r.1
    ensures Truthy(id) && celebReply.Err? ==> r.0 == before.(loading := false) && !r.1
    ensures Truthy(id) && celebReply.Ok? ==>
              && r.1 && !r.0.loading
              && r.0.celebrity == celebReply.data
              && r.0.films == (if castData.Some? then Filmography(castData.value) else before.films)
  {
    if !Truthy(id) then (before, false)
    else if celebReply.Err? then (before.(loading := false), false)
    else
      var films := if castData.Some? then Filmography(castData.value) else before.films;
      (Detail(celebReply.data, films, false), true)
  }

  /** A failed celebrity fetch on a fresh page stops the loading state and
      shows no celebrity and no films. */
  lemma FetchErrorShowsNothing(id: string, castData: Option<seq<CastLink<Film>>>)
    requires id != ""
    ensures FetchData(Some(id), Initial, Err, castData).0 == Detail(None, [], false)
  {
  }

  /** `id ? isFavorite(id, 'celebrity') : false`. */
  function IsFav(id: Option<string>, favs: seq<Favorite>): (b: bool)
    ensures !Truthy(id) ==> !b
    ensures Truthy(id) ==> (b <==> exists i :: 0 <= i < |favs| && favs[i].celebrityId == id)
  {
    Truthy(id) && IsFavorite(favs, id.value, CelebrityKind)
  }
}
