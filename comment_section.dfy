/** The comment section of a celebrity or film page: a draft box whose
    trimmed text is posted through the comments hook, and the list of
    comments with their author names and delete buttons. */
module CommentSection {
  import opened Wrappers
  import opened Text
  import opened Entities
  import opened UseComments

  /** The post button is disabled exactly when the draft is nothing but
      white space. */
  function SubmitDisabled(draft: string): (disabled: bool)
    ensures disabled <==> forall k :: 0 <= k < |draft| ==> IsSpace(draft[k])
  {
    BlankIffAllSpace(draft);
    IsBlank(draft)
  }

  /** The delete button is shown exactly on the signed-in user's own
      comments. */
  function DeleteVisible(user: Option<string>, c: Comment): (visible: bool)
    ensures visible <==> user == Some(c.userId)
  {
    user.Some? && user.value == c.userId
  }

  /** The author shown above a comment: the full name, else the username,
      else "Anonymous"; never empty. */
  function AuthorLabel(c: Comment): (s: string)
    ensures s != ""
    ensures Truthy(c.fullName) ==> s == c.fullName.value
    ensures !Truthy(c.fullName) && Truthy(c.username) ==> s == c.username.value
    ensures !Truthy(c.fullName) && !Truthy(c.username) ==> s == "Anonymous"
  {
    FirstOf(c.fullName, c.username, "Anonymous")
  }

  /** The component's state: the draft and the hook it posts through. */
  class Section {
    var draft: string
    const store: Store

    constructor(store: Store)
      ensures this.store == store && draft == ""
    {
      this.store := store;
      draft := "";
    }

    /** Typing into the draft box. */
    method SetDraft(text: string)
      modifies this`draft
      ensures draft == text
    {
      draft := text;
    }

    /** `handleSubmit`, given the signed-in user and the outcomes of the
        hook's remote calls. A blank draft does nothing; any other draft is
        trimmed, handed to `addComment` and then cleared, whether or not the
        comment was stored. Returns the text handed over and the row the
        hook inserted. */
    method HandleSubmit(user: Option<string>, inserted: Status,
                        refetch: Reply<seq<CommentRow>>, refetchProfiles: Option<seq<AuthorProfile>>)
      returns (sent: Option<string>, call: Option<NewComment>)
      modifies this, store
      ensures IsBlank(old(draft)) ==>
                && sent.None? && call.None? && draft == old(draft)
                && store.comments == old(store.comments) && store.isLoading == old(store.isLoading)
      ensures !IsBlank(old(draft)) ==> sent == Some(Trim(old(draft))) && draft == ""
      ensures sent.Some? ==> sent.value != "" && Trim(sent.value) == sent.value
      ensures !IsBlank(old(draft)) && user.None? ==> call.None?
      ensures !IsBlank(old(draft)) && user.Some? ==>
                call == Some(AddPayload(user.value, Trim(old(draft)), store.entityId, store.kind))
      ensures !IsBlank(old(draft)) && (user.None? || inserted == Failed) ==>
                store.comments == old(store.comments) && store.isLoading == old(store.isLoading)
      ensures !IsBlank(old(draft)) && user.Some? && inserted == Done ==>
                && !store.isLoading
                && store.comments == (if refetch.Err? then old(store.comments)
                                      else Fetched(refetch.data.GetOr([]), refetchProfiles.GetOr([])))
    {
      if IsBlank(draft) {
        return None, None;
      }
      var content := Trim(draft);
      TrimIdempotent(draft);
      call := store.Add(user, content, inserted, refetch, refetchProfiles);
      draft := "";
      sent := Some(content);
    }
  }
}
