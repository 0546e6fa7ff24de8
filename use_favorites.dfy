/** The favorites hook: the signed-in user's favorite rows, a membership
    test, and a toggle that deletes the matching row or inserts a new one
    and then updates the cached list the same way. */
module UseFavorites {
  import opened Wrappers
  import opened Entities
  import opened Seqs

  /** A cached row: `id, celebrity_id, film_id`. */
  datatype Favorite = Favorite(id: string, celebrityId: Option<string>, filmId: Option<string>)

  /** The row a toggle inserts. */
  datatype NewFavorite = NewFavorite(userId: string, celebrityId: Option<string>, filmId: Option<string>)

  /** The remote write a toggle issues. */
  datatype Call = NoCall | DeleteRow(rowId: string) | InsertRow(payload: NewFavorite)

  /** The field of this kind holds id. */
  predicate Matches(fav: Favorite, id: string, kind: EntityKind) {
    if kind == CelebrityKind then fav.celebrityId == Some(id) else fav.filmId == Some(id)
  }

  /** `isFavorite(id, type)`: some cached row matches. */
  predicate IsFavorite(favs: seq<Favorite>, id: string, kind: EntityKind) {
    exists i :: 0 <= i < |favs| && Matches(favs[i], id, kind)
  }

  /** `favorites.find(...)`: the first matching row, if there is one. */
  function Find(favs: seq<Favorite>, id: string, kind: EntityKind): (r: Option<Favorite>)
    ensures r.Some? <==> IsFavorite(favs, id, kind)
    ensures r.Some? ==> exists i :: 0 <= i < |favs| && favs[i] == r.value && Matches(favs[i], id, kind)
                                    && forall j :: 0 <= j < i ==> !Matches(favs[j], id, kind)
    decreases |favs|
  {
    if favs == [] then None
    else if Matches(favs[0], id, kind) then Some(favs[0])
    else
      var r := Find(favs[1..], id, kind);
      assert forall i :: 0 < i < |favs| ==> favs[i] == favs[1..][i - 1];
      if r.Some? then
        var i :| 0 <= i < |favs[1..]| && favs[1..][i] == r.value && Matches(favs[1..][i], id, kind)
                 && forall j :: 0 <= j < i ==> !Matches(favs[1..][j], id, kind);
        assert favs[i + 1] == r.value;
        r
      else r
  }

  /** `prev.filter(f => f.id !== rowId)`: every row with another id, each as
      often as before and in the same order. */
  function RemoveById(favs: seq<Favorite>, rowId: string): (r: seq<Favorite>)
    ensures forall f :: f in r <==> f in favs && f.id != rowId
    ensures forall f | f in favs && f.id != rowId :: multiset(r)[f] == multiset(favs)[f]
    ensures IsSubsequence(r, favs)
  {
    var keep := (f: Favorite) => f.id != rowId;
    FilterSpec(favs, keep);
    Filter(favs, keep)
  }

  /** The insert payload: the field of this kind holds id and the other is
      null, so the row names exactly this target. */
  function InsertPayload(userId: string, id: string, kind: EntityKind): (p: NewFavorite)
    ensures p.userId == userId
    ensures TargetOf(p.celebrityId, p.filmId) == Some(Target(kind, id))
  {
    NewFavorite(userId, if kind == CelebrityKind then Some(id) else None, if kind == FilmKind then Some(id) else None)
  }

  /** The row the service returns for an inserted payload carries its
      target. */
  predicate Echoes(row: Favorite, p: NewFavorite) {
    row.celebrityId == p.celebrityId && row.filmId == p.filmId
  }

  /** Inserting the row for a target makes it a favorite. */
  lemma InsertMakesFavorite(favs: seq<Favorite>, userId: string, id: string, kind: EntityKind, row: Favorite)
    requires Echoes(row, InsertPayload(userId, id, kind))
    ensures IsFavorite(favs + [row], id, kind)
  {
    assert (favs + [row])[|favs|] == row;
  }

  /** When only one row matches a target, deleting the row `find` returns
      leaves the target no longer a favorite. */
  lemma RemoveFoundUnfavorites(favs: seq<Favorite>, id: string, kind: EntityKind)
    requires IsFavorite(favs, id, kind)
    requires forall i, j :: 0 <= i < |favs| && 0 <= j < |favs| && Matches(favs[i], id, kind) && Matches(favs[j], id, kind) ==> i == j
    ensures !IsFavorite(RemoveById(favs, Find(favs, id, kind).value.id), id, kind)
  {
    var found := Find(favs, id, kind).value;
    var k :| 0 <= k < |favs| && favs[k] == found && Matches(favs[k], id, kind);
    var r := RemoveById(favs, found.id);
    forall i | 0 <= i < |r| ensures !Matches(r[i], id, kind) {
      assert r[i] in favs && r[i].id != found.id;
      var m :| 0 <= m < |favs| && favs[m] == r[i];
    }
  }

  /** Toggling a target that is not a favorite and then toggling it again
      gives back the list it started from, provided the inserted row has an
      id no cached row has. */
  lemma {:induction false} ToggleTwiceRestores(favs: seq<Favorite>, userId: string, id: string, kind: EntityKind, row: Favorite)
    requires !IsFavorite(favs, id, kind)
    requires Echoes(row, InsertPayload(userId, id, kind))
    requires forall f :: f in favs ==> f.id != row.id
    ensures Find(favs + [row], id, kind) == Some(row)
    ensures RemoveById(favs + [row], Find(favs + [row], id, kind).value.id) == favs
  {
    InsertMakesFavorite(favs, userId, id, kind, row);
    var both := favs + [row];
    var i :| 0 <= i < |both| && both[i] == Find(both, id, kind).value && Matches(both[i], id, kind)
             && forall j :: 0 <= j < i ==> !Matches(both[j], id, kind);
    assert forall j :: 0 <= j < |favs| ==> both[j] == favs[j];
    assert i == |favs|;
    var keep := (f: Favorite) => f.id != row.id;
    FilterConcat(favs, [row], keep);
    FilterAll(favs, keep);
    assert Filter([row], keep) == [];
  }

  /** The hook's state. */
  class Store {
    var favorites: seq<Favorite>
    var isLoading: bool

    constructor()
      ensures favorites == [] && !isLoading
    {
      favorites := [];
      isLoading := false;
    }

    /** `fetchFavorites`, given the signed-in user's id (if any) and the
        reply to the query for that user's rows. Returns the user whose rows
        were queried. */
    method Fetch(user: Option<string>, reply: Reply<seq<Favorite>>) returns (queried: Option<string>)
      modifies this
      ensures queried == user
      ensures isLoading == old(isLoading)
      ensures user.None? ==> favorites == []
      ensures user.Some? && reply.Err? ==> favorites == old(favorites)
      ensures user.Some? && reply.Ok? ==> favorites == reply.data.GetOr([])
    {
      if user.None? {
        favorites := [];
        return None;
      }
      queried := user;
      if reply.Err? {
        return;
      }
      favorites := reply.data.GetOr([]);
    }

    /** `toggleFavorite(id, type)`, given the outcome of the delete and of the
        insert; only the call it returns is issued. */
    method Toggle(user: Option<string>, id: string, kind: EntityKind, deleted: Status, inserted: Result<Favorite>)
      returns (call: Call)
      modifies this
      ensures user.None? ==> call == NoCall && favorites == old(favorites) && isLoading == old(isLoading)
      ensures user.Some? ==> !isLoading
      ensures user.Some? && IsFavorite(old(favorites), id, kind) ==>
                call == DeleteRow(Find(old(favorites), id, kind).value.id)
                && favorites == (if deleted == Done then RemoveById(old(favorites), call.rowId) else old(favorites))
      ensures user.Some? && !IsFavorite(old(favorites), id, kind) ==>
                call == InsertRow(InsertPayload(user.value, id, kind))
                && favorites == (if inserted.Success? then old(favorites) + [inserted.value] else old(favorites))
    {
      if user.None? {
        return NoCall;
      }
      isLoading := true;
      var existing := Find(favorites, id, kind);
      if existing.Some? {
        call := DeleteRow(existing.value.id);
        if deleted == Done {
          favorites := RemoveById(favorites, existing.value.id);
        }
      } else {
        call := InsertRow(InsertPayload(user.value, id, kind));
        if inserted.Success? {
          favorites := favorites + [inserted.value];
        }
      }
      isLoading := false;
    }
  }
}
