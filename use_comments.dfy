/** The comments hook for one celebrity or film: it loads the comments,
    joins each with its author's profile, adds a comment and re-fetches,
    and deletes a comment by id. */
module UseComments {
  import opened Wrappers
  import opened Entities
  import opened Seqs

  /** A row as the hook selects it: `id, user_id, content, created_at`. */
  datatype CommentRow = CommentRow(id: string, userId: string, content: string, createdAt: string)

  /** A row joined with its author's profile fields; a field is None when no
      profile has the row's user id. */
  datatype Comment = Comment(
    id: string,
    userId: string,
    content: string,
    createdAt: string,
    username: Option<string>,
    fullName: Option<string>,
    avatarUrl: Option<string>)

  /** The row that a comment was built from. */
  function Base(c: Comment): CommentRow {
    CommentRow(c.id, c.userId, c.content, c.createdAt)
  }

  /** The insert payload of `addComment`. */
  datatype NewComment = NewComment(userId: string, content: string, celebrityId: Option<string>, filmId: Option<string>)

  /** The column the comments query filters on. */
  function Column(kind: EntityKind): (col: string)
    ensures col == "celebrity_id" || col == "film_id"
    ensures col == "celebrity_id" <==> kind == CelebrityKind
  {
    if kind == CelebrityKind then "celebrity_id" else "film_id"
  }

  function UserIdOf(r: CommentRow): string {
    r.userId
  }

  /** `[...new Set(commentsData.map(c => c.user_id))]`: the ids the profile
      query asks for. */
  function AuthorIds(rows: seq<CommentRow>): seq<string> {
    DistinctBy(rows, UserIdOf)
  }

  function ProfileKey(p: AuthorProfile): string {
    p.userId
  }

  function ProfileValue(p: AuthorProfile): AuthorProfile {
    p
  }

  /** `new Map(profilesData.map(p => [p.user_id, p]))`. */
  function ProfilesMap(profiles: seq<AuthorProfile>): map<string, AuthorProfile> {
    Indexed(profiles, ProfileKey, ProfileValue)
  }

  /** One comment joined with the profile of its author, if any. */
  function EnrichOne(row: CommentRow, profiles: map<string, AuthorProfile>): Comment {
    if row.userId in profiles then
      var p := profiles[row.userId];
      Comment(row.id, row.userId, row.content, row.createdAt, p.username, p.fullName, p.avatarUrl)
    else
      Comment(row.id, row.userId, row.content, row.createdAt, None, None, None)
  }

  /** `commentsData.map(comment => ({ ...comment, username: ..., ... }))`:
      one comment per row, in the same order, each keeping the row's own
      fields. */
  function Enrich(rows: seq<CommentRow>, profiles: map<string, AuthorProfile>): (r: seq<Comment>)
    ensures |r| == |rows|
    ensures forall i :: 0 <= i < |rows| ==> Base(r[i]) == rows[i]
  {
    seq(|rows|, i requires 0 <= i < |rows| => EnrichOne(rows[i], profiles))
  }

  /** The list a successful fetch stores. */
  function Fetched(rows: seq<CommentRow>, profiles: seq<AuthorProfile>): seq<Comment> {
    Enrich(rows, ProfilesMap(profiles))
  }

  /** The author fields of a fetched comment come from the last profile
      with its user id; with no such profile they are all None. */
  lemma FetchedJoin(rows: seq<CommentRow>, profiles: seq<AuthorProfile>, i: int)
    requires 0 <= i < |rows|
    ensures (forall j :: 0 <= j < |profiles| ==> profiles[j].userId != rows[i].userId) ==>
              Fetched(rows, profiles)[i].username.None?
              && Fetched(rows, profiles)[i].fullName.None?
              && Fetched(rows, profiles)[i].avatarUrl.None?
    ensures forall j :: 0 <= j < |profiles| && profiles[j].userId == rows[i].userId
                        && (forall k :: j < k < |profiles| ==> profiles[k].userId != rows[i].userId) ==>
              Fetched(rows, profiles)[i].username == profiles[j].username
              && Fetched(rows, profiles)[i].fullName == profiles[j].fullName
              && Fetched(rows, profiles)[i].avatarUrl == profiles[j].avatarUrl
  {
    IndexedKeys(profiles, ProfileKey, ProfileValue, rows[i].userId);
    forall j | 0 <= j < |profiles| && profiles[j].userId == rows[i].userId
               && (forall k :: j < k < |profiles| ==> profiles[k].userId != rows[i].userId)
      ensures Fetched(rows, profiles)[i].username == profiles[j].username
              && Fetched(rows, profiles)[i].fullName == profiles[j].fullName
              && Fetched(rows, profiles)[i].avatarUrl == profiles[j].avatarUrl
    {
      IndexedLastWins(profiles, ProfileKey, ProfileValue, j);
    }
  }

  /** The payload of `addComment`: the field of this kind holds the entity
      id and the other is null. */
  function AddPayload(userId: string, content: string, entityId: string, kind: EntityKind): (p: NewComment)
    ensures p.userId == userId && p.content == content
    ensures TargetOf(p.celebrityId, p.filmId) == Some(Target(kind, entityId))
  {
    NewComment(userId, content, if kind == CelebrityKind then Some(entityId) else None, if kind == FilmKind then Some(entityId) else None)
  }

  /** `prev.filter(c => c.id !== commentId)`. */
  function RemoveComment(comments: seq<Comment>, commentId: string): (r: seq<Comment>)
    ensures forall c :: c in r <==> c in comments && c.id != commentId
    ensures forall c | c in comments && c.id != commentId :: multiset(r)[c] == multiset(comments)[c]
    ensures IsSubsequence(r, comments)
  {
    var keep := (c: Comment) => c.id != commentId;
    FilterSpec(comments, keep);
    Filter(comments, keep)
  }

  /** The state of one `useComments(entityId, type)` instance. */
  class Store {
    var comments: seq<Comment>
    var isLoading: bool
    const entityId: string
    const kind: EntityKind

    constructor(entityId: string, kind: EntityKind)
      ensures this.entityId == entityId && this.kind == kind
      ensures comments == [] && isLoading
    {
      this.entityId := entityId;
      this.kind := kind;
      comments := [];
      isLoading := true;
    }

    /** `fetchComments`, given the reply to the comments query and the data
        of the profile query. Returns the column filtered on and the user ids
        the profile query asked for (None when it was not issued). */
    method Fetch(reply: Reply<seq<CommentRow>>, profilesData: Option<seq<AuthorProfile>>)
      returns (column: string, asked: Option<seq<string>>)
      modifies this
      ensures column == Column(kind)
      ensures !isLoading
      ensures reply.Err? ==> asked.None? && comments == old(comments)
      ensures reply.Ok? ==> asked == Some(AuthorIds(reply.data.GetOr([])))
                            && comments == Fetched(reply.data.GetOr([]), profilesData.GetOr([]))
    {
      isLoading := true;
      column := Column(kind);
      if reply.Err? {
        isLoading := false;
        return column, None;
      }
      var rows := reply.data.GetOr([]);
      asked := Some(AuthorIds(rows));
      var profilesMap := ProfilesMap(profilesData.GetOr([]));
      comments := Enrich(rows, profilesMap);
      isLoading := false;
    }

    /** `addComment(content)`, given the insert's outcome and the replies the
        re-fetch that follows a successful insert receives. Returns the
        payload inserted, if any. */
    method Add(user: Option<string>, content: string, inserted: Status,
               refetch: Reply<seq<CommentRow>>, refetchProfiles: Option<seq<AuthorProfile>>)
      returns (call: Option<NewComment>)
      modifies this
      ensures user.None? ==> call.None? && comments == old(comments) && isLoading == old(isLoading)
      ensures user.Some? ==> call == Some(AddPayload(user.value, content, entityId, kind))
      ensures user.Some? && inserted == Failed ==> comments == old(comments) && isLoading == old(isLoading)
      ensures user.Some? && inserted == Done ==>
                !isLoading
                && comments == (if refetch.Err? then old(comments)
                                else Fetched(refetch.data.GetOr([]), refetchProfiles.GetOr([])))
    {
      if user.None? {
        return None;
      }
      call := Some(AddPayload(user.value, content, entityId, kind));
      if inserted == Failed {
        return;
      }
      var _, _ := Fetch(refetch, refetchProfiles);
    }

    /** `deleteComment(commentId)`, given the outcome of the delete. Returns
        the delete issued, as the comment id and the user id it is scoped
        to, if any. The service deletes only the signed-in user's own row,
        but the cache drops the comment whenever the call reports no
        error. */
    method Delete(user: Option<string>, commentId: string, deleted: Status)
      returns (call: Option<(string, string)>)
      modifies this
      ensures user.None? <==> call.None?
      ensures user.Some? ==> call == Some((commentId, user.value))
      ensures isLoading == old(isLoading)
      ensures user.None? || deleted == Failed ==> comments == old(comments)
      ensures user.Some? && deleted == Done ==> comments == RemoveComment(old(comments), commentId)
    {
      if user.None? {
        return None;
      }
      call := Some((commentId, user.value));
      if deleted == Done {
        comments := RemoveComment(comments, commentId);
      }
    }
  }
}
