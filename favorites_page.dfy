/** The favorites page: the cached favorites are split into celebrity ids
    and film ids, and the matching celebrities and films are looked up. */
module FavoritesPage {
  import opened Wrappers
  import opened Text
  import opened Seqs
  import opened Entities
  import opened UseFavorites

  /** What the page shows. */
  datatype Details = Details(celebrities: seq<Celebrity>, films: seq<Film>, loading: bool)

  /** The id lists each lookup was sent; None for a lookup not issued. */
  datatype Queries = Queries(celebIds: Option<seq<string>>, filmIds: Option<seq<string>>)

  function CelebrityIdOf(f: Favorite): Option<string> {
    f.celebrityId
  }

  function FilmIdOf(f: Favorite): Option<string> {
    f.filmId
  }

  /** `favorites.filter(f => f.celebrity_id).map(f => f.celebrity_id!)`. */
  function CelebIds(favs: seq<Favorite>): seq<string> {
    TruthyValues(favs, CelebrityIdOf)
  }

  /** The same for `film_id`. */
  function FilmIds(favs: seq<Favorite>): seq<string> {
    TruthyValues(favs, FilmIdOf)
  }

  /** A favorite names exactly one target, by a non-empty id. */
  predicate OneTarget(f: Favorite) {
    TargetOf(f.celebrityId, f.filmId).Some? && TargetOf(f.celebrityId, f.filmId).value.id != ""
  }

  /** When every favorite names one target, each favorite contributes
      exactly one id to exactly one of the two lists. */
  lemma {:induction false} IdsCoverFavorites(favs: seq<Favorite>)
    requires forall i :: 0 <= i < |favs| ==> OneTarget(favs[i])
    ensures |CelebIds(favs)| + |FilmIds(favs)| == |favs|
    decreases |favs|
  {
    if favs != [] {
      assert forall i :: 0 <= i < |favs[1..]| ==> favs[1..][i] == favs[i + 1];
      IdsCoverFavorites(favs[1..]);
      assert OneTarget(favs[0]);
    }
  }

  /** `fetchFavoriteDetails`, given the signed-in user (if any), the cached
      favorites, the state before and the data of the two lookups. An empty
      id list skips its lookup and stands for an empty result; a list is
      replaced only when its lookup returned data. */
  function FetchDetails(user: Option<string>, favs: seq<Favorite>, before: Details,
                        celebsData: Option<seq<Celebrity>>, filmsData: Option<seq<Film>>): (r: (Details, Queries))
    ensures !r.0.loading
    ensures user.None? || favs == [] ==> r.0.celebrities == [] && r.0.films == [] && r.1 == Queries(None, None)
    ensures user.Some? && favs != [] ==>
              && (r.1.celebIds.Some? <==> CelebIds(favs) != [])
              && (r.1.celebIds.Some? ==> r.1.celebIds.value == CelebIds(favs))
              && (r.1.filmIds.Some? <==> FilmIds(favs) != [])
              && (r.1.filmIds.Some? ==> r.1.filmIds.value == FilmIds(favs))
    ensures user.Some? && favs != [] ==>
              && (CelebIds(favs) == [] ==> r.0.celebrities == [])
              && (CelebIds(favs) != [] ==> r.0.celebrities == celebsData.GetOr(before.celebrities))
              && (FilmIds(favs) == [] ==> r.0.films == [])
              && (FilmIds(favs) != [] ==> r.0.films == filmsData.GetOr(before.films))
  {
    if user.None? || favs == [] then
      (Details([], [], false), Queries(None, None))
    else
      var celebIds := CelebIds(favs);
      var filmIds := FilmIds(favs);
      var celebResult := if |celebIds| > 0 then celebsData else Some([]);
      var filmResult := if |filmIds| > 0 then filmsData else Some([]);
      (Details(celebResult.GetOr(before.celebrities), filmResult.GetOr(before.films), false),
       Queries(if |celebIds| > 0 then Some(celebIds) else None, if |filmIds| > 0 then Some(filmIds) else None))
  }

  /** The id sent for each favorite is its own celebrity or film id: the
      lists are the celebrity ids and the film ids of the favorites, in the
      order of the favorites. */
  lemma IdsInOrder(favs: seq<Favorite>)
    ensures var kept := Filter(favs, HasTruthy(CelebrityIdOf));
            |CelebIds(favs)| == |kept|
            && forall i :: 0 <= i < |kept| ==> Some(CelebIds(favs)[i]) == kept[i].celebrityId
    ensures var kept := Filter(favs, HasTruthy(FilmIdOf));
            |FilmIds(favs)| == |kept|
            && forall i :: 0 <= i < |kept| ==> Some(FilmIds(favs)[i]) == kept[i].filmId
  {
    TruthyValuesAreFiltered(favs, CelebrityIdOf);
    TruthyValuesAreFiltered(favs, FilmIdOf);
  }
}
