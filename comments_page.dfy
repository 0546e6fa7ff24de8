/** The recent-comments page: the latest comments joined with their
    authors' profiles and with the name of the celebrity or the title of
    the film each is about, and the link and labels each card shows. */
module CommentsPage {
  import opened Wrappers
  import opened Text
  import opened Seqs
  import opened Entities
  import UseComments

  /** A comment row with every column: `select('*')`. */
  datatype RecentRow = RecentRow(
    id: string,
    content: string,
    createdAt: string,
    userId: string,
    celebrityId: Option<string>,
    filmId: Option<string>)

  /** A row of the celebrity lookup (`id, name`) or the film lookup
      (`id, title`). */
  datatype NamedRow = NamedRow(id: string, name: string)

  /** A comment as the page shows it. */
  datatype Recent = Recent(
    row: RecentRow,
    username: Option<string>,
    fullName: Option<string>,
    avatarUrl: Option<string>,
    celebrityName: Option<string>,
    filmTitle: Option<string>)

  /** The id lists each lookup was sent; None for a lookup not issued. */
  datatype Lookups = Lookups(profiles: Option<seq<string>>, celebs: Option<seq<string>>, films: Option<seq<string>>)

  function CelebrityIdOf(r: RecentRow): Option<string> {
    r.celebrityId
  }

  function FilmIdOf(r: RecentRow): Option<string> {
    r.filmId
  }

  function UserIdOf(r: RecentRow): string {
    r.userId
  }

  function NamedKey(n: NamedRow): string {
    n.id
  }

  function NamedLabel(n: NamedRow): string {
    n.name
  }

  /** `[...new Set(commentsData.map(c => c.user_id))]`. */
  function AuthorIds(rows: seq<RecentRow>): seq<string> {
    DistinctBy(rows, UserIdOf)
  }

  /** `commentsData.filter(c => c.celebrity_id).map(c => c.celebrity_id!)`. */
  function CelebIds(rows: seq<RecentRow>): seq<string> {
    TruthyValues(rows, CelebrityIdOf)
  }

  /** The same for `film_id`. */
  function FilmIds(rows: seq<RecentRow>): seq<string> {
    TruthyValues(rows, FilmIdOf)
  }

  /** A missing key reads as undefined. */
  function Lookup<V>(m: map<string, V>, k: string): Option<V> {
    if k in m then Some(m[k]) else None
  }

  /** The shown form of one row, given the three tables. */
  function EnrichOne(r: RecentRow, profiles: map<string, AuthorProfile>,
                     celebs: map<string, string>, films: map<string, string>): Recent {
    var p := Lookup(profiles, r.userId);
    Recent(r,
      if p.Some? then p.value.username else None,
      if p.Some? then p.value.fullName else None,
      if p.Some? then p.value.avatarUrl else None,
      if Truthy(r.celebrityId) then Lookup(celebs, r.celebrityId.value) else None,
      if Truthy(r.filmId) then Lookup(films, r.filmId.value) else None)
  }

  /** The enriched list for the fetched rows and lookup replies. */
  function RecentList(rows: seq<RecentRow>, profiles: seq<AuthorProfile>,
                      celebs: seq<NamedRow>, films: seq<NamedRow>): (r: seq<Recent>)
    ensures |r| == |rows|
    ensures forall i :: 0 <= i < |rows| ==> r[i].row == rows[i]
    ensures forall i :: 0 <= i < |rows| ==> (r[i].celebrityName.Some? ==> Truthy(rows[i].celebrityId))
    ensures forall i :: 0 <= i < |rows| ==> (r[i].filmTitle.Some? ==> Truthy(rows[i].filmId))
  {
    var pm := UseComments.ProfilesMap(profiles);
    var cm := Indexed(celebs, NamedKey, NamedLabel);
    var fm := Indexed(films, NamedKey, NamedLabel);
    seq(|rows|, i requires 0 <= i < |rows| => EnrichOne(rows[i], pm, cm, fm))
  }

  /** A name looked up in a table filled from `rows` is the label of the last
      row with that id, and undefined when no row has it. */
  lemma LookupLastWins(rows: seq<NamedRow>, id: string)
    ensures (forall j :: 0 <= j < |rows| ==> rows[j].id != id) ==> Lookup(Indexed(rows, NamedKey, NamedLabel), id).None?
    ensures forall j :: 0 <= j < |rows| && rows[j].id == id && (forall k :: j < k < |rows| ==> rows[k].id != id) ==>
              Lookup(Indexed(rows, NamedKey, NamedLabel), id) == Some(rows[j].name)
  {
    IndexedKeys(rows, NamedKey, NamedLabel, id);
    forall j | 0 <= j < |rows| && rows[j].id == id && (forall k :: j < k < |rows| ==> rows[k].id != id)
      ensures Lookup(Indexed(rows, NamedKey, NamedLabel), id) == Some(rows[j].name)
    {
      IndexedLastWins(rows, NamedKey, NamedLabel, j);
    }
  }

  /** The celebrity name and the film title of a shown comment come from the
      last lookup row with its id, and are undefined when the comment has no
      such id or no lookup row has it. */
  lemma RecentTargetJoin(rows: seq<RecentRow>, profiles: seq<AuthorProfile>,
                         celebs: seq<NamedRow>, films: seq<NamedRow>, i: int)
    requires 0 <= i < |rows|
    ensures var r := RecentList(rows, profiles, celebs, films)[i];
            var cid := rows[i].celebrityId.GetOr("");
            (!Truthy(rows[i].celebrityId) || (forall j :: 0 <= j < |celebs| ==> celebs[j].id != cid)) ==> r.celebrityName.None?
    ensures var r := RecentList(rows, profiles, celebs, films)[i];
            var cid := rows[i].celebrityId.GetOr("");
            forall j :: (0 <= j < |celebs| && Truthy(rows[i].celebrityId) && celebs[j].id == cid
                         && (forall k :: j < k < |celebs| ==> celebs[k].id != cid)) ==> r.celebrityName == Some(celebs[j].name)
    ensures var r := RecentList(rows, profiles, celebs, films)[i];
            var fid := rows[i].filmId.GetOr("");
            (!Truthy(rows[i].filmId) || (forall j :: 0 <= j < |films| ==> films[j].id != fid)) ==> r.filmTitle.None?
    ensures var r := RecentList(rows, profiles, celebs, films)[i];
            var fid := rows[i].filmId.GetOr("");
            forall j :: (0 <= j < |films| && Truthy(rows[i].filmId) && films[j].id == fid
                         && (forall k :: j < k < |films| ==> films[k].id != fid)) ==> r.filmTitle == Some(films[j].name)
  {
    LookupLastWins(celebs, rows[i].celebrityId.GetOr(""));
    LookupLastWins(films, rows[i].filmId.GetOr(""));
  }

  /** The author fields of a shown comment come from the last profile with
      its user id, and are undefined when there is none. */
  lemma RecentAuthorJoin(rows: seq<RecentRow>, profiles: seq<AuthorProfile>,
                         celebs: seq<NamedRow>, films: seq<NamedRow>, i: int)
    requires 0 <= i < |rows|
    ensures var r := RecentList(rows, profiles, celebs, films)[i];
            (forall j :: 0 <= j < |profiles| ==> profiles[j].userId != rows[i].userId) ==>
              r.username.None? && r.fullName.None? && r.avatarUrl.None?
    ensures var r := RecentList(rows, profiles, celebs, films)[i];
            forall j :: 0 <= j < |profiles| && profiles[j].userId == rows[i].userId
                        && (forall k :: j < k < |profiles| ==> profiles[k].userId != rows[i].userId) ==>
              r.username == profiles[j].username && r.fullName == profiles[j].fullName && r.avatarUrl == profiles[j].avatarUrl
  {
    var u := rows[i].userId;
    IndexedKeys(profiles, UseComments.ProfileKey, UseComments.ProfileValue, u);
    forall j | 0 <= j < |profiles| && profiles[j].userId == u && (forall k :: j < k < |profiles| ==> profiles[k].userId != u)
      ensures RecentList(rows, profiles, celebs, films)[i].username == profiles[j].username
              && RecentList(rows, profiles, celebs, films)[i].fullName == profiles[j].fullName
              && RecentList(rows, profiles, celebs, films)[i].avatarUrl == profiles[j].avatarUrl
    {
      IndexedLastWins(profiles, UseComments.ProfileKey, UseComments.ProfileValue, j);
    }
  }

  /** `comment.full_name || comment.username || 'Anonymous'`. */
  function AuthorLabel(c: Recent): (s: string)
    ensures s != ""
    ensures Truthy(c.fullName) ==> s == c.fullName.value
    ensures !Truthy(c.fullName) && Truthy(c.username) ==> s == c.username.value
    ensures !Truthy(c.fullName) && !Truthy(c.username) ==> s == "Anonymous"
  {
    FirstOf(c.fullName, c.username, "Anonymous")
  }

  /** The link under a comment: its path and its text. The celebrity is
      linked when the comment has a celebrity id, and the film otherwise,
      even when the comment has no film id. */
  function TargetLink(c: Recent): (link: (string, string))
    ensures link.1 != ""
    ensures Truthy(c.row.celebrityId) ==> link.0 == "/celebrity/" + c.row.celebrityId.value
    ensures !Truthy(c.row.celebrityId) ==> link.0 == "/film/" + c.row.filmId.GetOr("null")
    ensures Truthy(c.row.celebrityId) ==> link.1 == FirstOf(c.celebrityName, None, "Celebrity")
    ensures !Truthy(c.row.celebrityId) ==> link.1 == FirstOf(c.filmTitle, None, "Film")
  {
    if Truthy(c.row.celebrityId) then
      ("/celebrity/" + c.row.celebrityId.value, FirstOf(c.celebrityName, None, "Celebrity"))
    else
      ("/film/" + c.row.filmId.GetOr("null"), FirstOf(c.filmTitle, None, "Film"))
  }

  /** The detail page of a target. */
  function TargetPath(t: Target): string {
    if t.kind == CelebrityKind then "/celebrity/" + t.id else "/film/" + t.id
  }

  /** A comment that names one target with a non-empty id links to that
      target's page. */
  lemma LinkNamesTarget(c: Recent, t: Target)
    requires TargetOf(c.row.celebrityId, c.row.filmId) == Some(t) && t.id != ""
    ensures TargetLink(c).0 == TargetPath(t)
  {
  }

  /** The page's state. */
  class Page {
    var comments: seq<Recent>
    var loading: bool

    constructor()
      ensures comments == [] && loading
    {
      comments := [];
      loading := true;
    }

    /** `fetchComments`, given the reply to the comments query and the data
        of the three lookups. Returns the id lists of the lookups issued. */
    method Fetch(reply: Reply<seq<RecentRow>>, profilesData: Option<seq<AuthorProfile>>,
                 celebsData: Option<seq<NamedRow>>, filmsData: Option<seq<NamedRow>>)
      returns (sent: Lookups)
      modifies this
      ensures !loading
      ensures reply.Data().GetOr([]) == [] ==> comments == [] && sent == Lookups(None, None, None)
      ensures reply.Data().GetOr([]) != [] ==>
                var rows := reply.Data().value;
                && sent.profiles == Some(AuthorIds(rows))
                && sent.celebs == (if CelebIds(rows) != [] then Some(CelebIds(rows)) else None)
                && sent.films == (if FilmIds(rows) != [] then Some(FilmIds(rows)) else None)
                && comments == RecentList(rows, profilesData.GetOr([]),
                                          if CelebIds(rows) != [] then celebsData.GetOr([]) else [],
                                          if FilmIds(rows) != [] then filmsData.GetOr([]) else [])
    {
      if reply.Data().GetOr([]) == [] {
        comments := [];
        loading := false;
        return Lookups(None, None, None);
      }
      var rows := reply.Data().value;
      var userIds := AuthorIds(rows);
      var profilesMap := IndexInto(profilesData.GetOr([]), UseComments.ProfileKey, UseComments.ProfileValue);

      var celebIds := CelebIds(rows);
      var celebsMap: map<string, string> := map[];
      var celebsSent: Option<seq<string>> := None;
      if |celebIds| > 0 {
        celebsSent := Some(celebIds);
        celebsMap := IndexInto(celebsData.GetOr([]), NamedKey, NamedLabel);
      }

      var filmIds := FilmIds(rows);
      var filmsMap: map<string, string> := map[];
      var filmsSent: Option<seq<string>> := None;
      if |filmIds| > 0 {
        filmsSent := Some(filmIds);
        filmsMap := IndexInto(filmsData.GetOr([]), NamedKey, NamedLabel);
      }

      comments := seq(|rows|, i requires 0 <= i < |rows| => EnrichOne(rows[i], profilesMap, celebsMap, filmsMap));
      loading := false;
      sent := Lookups(Some(userIds), celebsSent, filmsSent);
    }
  }
}
