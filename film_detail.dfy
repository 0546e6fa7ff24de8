/** The film detail page: the film, the cast list built from the cast
    links with leads first, and the subtitle each cast card shows. */
module FilmDetail {
  import opened Wrappers
  import opened Text
  import opened Sorting
  import Seqs
  import opened Entities
  import opened Cast
  import opened UseFavorites

  /** The page's state. */
  datatype Detail = Detail(film: Option<Film>, cast: seq<Credit<Celebrity>>, loading: bool)

  /** The state before any fetch. */
  const Initial := Detail(None, [], true)

  /** `(b.is_lead ? 1 : 0) - (a.is_lead ? 1 : 0)`: leads first. */
  function LeadRank(c: Credit<Celebrity>): Rank {
    Desc(if c.isLead then 1.0 else 0.0)
  }

  /** The cast links with a celebrity, merged with their role fields and
      sorted leads first. */
  function CastList(rows: seq<CastLink<Celebrity>>): (r: seq<Credit<Celebrity>>)
    ensures |r| <= |rows|
  {
    Sort(Credits(rows), LeadRank)
  }

  /** Every lead stands before every other member, and the list holds
      exactly the merged links that have a celebrity. */
  lemma CastListCorrect(rows: seq<CastLink<Celebrity>>)
    ensures multiset(CastList(rows)) == multiset(Credits(rows))
    ensures |CastList(rows)| <= |rows|
    ensures forall i, j :: 0 <= i < j < |CastList(rows)| && CastList(rows)[j].isLead ==> CastList(rows)[i].isLead
    ensures forall c :: c in CastList(rows) <==> exists i :: 0 <= i < |rows| && rows[i].joined.Some? && c == Merge(rows[i])
  {
    SortCorrect(Credits(rows), LeadRank);
    CreditsMembers(rows);
    forall c ensures c in CastList(rows) <==> c in Credits(rows) {
      assert c in CastList(rows) <==> c in multiset(CastList(rows));
    }
  }

  /** Leads keep the order of the cast reply among themselves, and so do
      the other members. */
  lemma CastListStable(rows: seq<CastLink<Celebrity>>, lead: bool, sameRole: Credit<Celebrity> -> bool)
    requires forall c :: sameRole(c) <==> c.isLead == lead
    ensures Seqs.Filter(CastList(rows), sameRole) == Seqs.Filter(Credits(rows), sameRole)
  {
    SortStable(Credits(rows), LeadRank, Desc(if lead then 1.0 else 0.0), sameRole);
  }

  /** `fetchData`, given the route id, the state before, the reply to the
      film query and the data of the cast query. Also says whether the cast
      query was issued. */
  function FetchData(id: Option<string>, before: Detail, filmReply: Reply<Film>,
                     castData: Option<seq<CastLink<Celebrity>>>): (r: (Detail, bool))
    ensures !Truthy(id) ==> r.0 == before && !r.1
    ensures Truthy(id) && filmReply.Err? ==> r.0 == before.(loading := false) && !r.1
    ensures Truthy(id) && filmReply.Ok? ==>
              && r.1 && !r.0.loading
              && r.0.film == filmReply.data
              && r.0.cast == (if castData.Some? then CastList(castData.value) else before.cast)
  {
    if !Truthy(id) then (before, false)
    else if filmReply.Err? then (before.(loading := false), false)
    else
      var cast := if castData.Some? then CastList(castData.value) else before.cast;
      (Detail(filmReply.data, cast, false), true)
  }

  /** A failed film fetch on a fresh page stops the loading state and shows
      no film and no cast. */
  lemma FetchErrorShowsNothing(id: string, castData: Option<seq<CastLink<Celebrity>>>)
    requires id != ""
    ensures FetchData(Some(id), Initial, Err, castData).0 == Detail(None, [], false)
  {
  }

  /** `id ? isFavorite(id, 'film') : false`. */
  function IsFav(id: Option<string>, favs: seq<Favorite>): (b: bool)
    ensures !Truthy(id) ==> !b
    ensures Truthy(id) ==> (b <==> exists i :: 0 <= i < |favs| && favs[i].filmId == id)
  {
    Truthy(id) && IsFavorite(favs, id.value, FilmKind)
  }

  /** `member.role_name || member.known_for`: the role when there is one,
      otherwise what the celebrity is known for. */
  function Subtitle(member: Credit<Celebrity>): (s: Option<string>)
    ensures Truthy(member.roleName) ==> s == member.roleName
    ensures !Truthy(member.roleName) ==> s == member.entity.knownFor
  {
    Or(member.roleName, member.entity.knownFor)
  }
}
