/** The profile page: the stored profile is copied into an edit form, the
    form is saved back, and the user's favorite and comment counts are
    shown. */
module ProfilePage {
  import opened Wrappers
  import opened Text

  /** The five editable columns of a profile, each nullable; the same shape
      is sent back as the update. */
  datatype Fields = Fields(
    username: Option<string>,
    fullName: Option<string>,
    bio: Option<string>,
    favoriteGenre: Option<string>,
    avatarUrl: Option<string>)

  /** A row of `profiles`. */
  datatype ProfileRow = ProfileRow(id: string, userId: string, fields: Fields)

  /** The edit form: plain strings. */
  datatype Form = Form(username: string, fullName: string, bio: string, favoriteGenre: string, avatarUrl: string)

  /** The empty form the page starts with. */
  const EmptyForm := Form("", "", "", "", "")

  /** `value || ''`. */
  function OrEmpty(o: Option<string>): (s: string)
    ensures o.Some? ==> s == o.value
    ensures o.None? ==> s == ""
  {
    if Truthy(o) then o.value else ""
  }

  /** `value || null`: the empty string becomes null. */
  function OrNull(s: string): (o: Option<string>)
    ensures o.None? <==> s == ""
    ensures o.Some? ==> o.value == s
  {
    if s == "" then None else Some(s)
  }

  /** The form filled from the stored columns. */
  function FormOf(f: Fields): Form {
    Form(OrEmpty(f.username), OrEmpty(f.fullName), OrEmpty(f.bio), OrEmpty(f.favoriteGenre), OrEmpty(f.avatarUrl))
  }

  /** The update a save sends. */
  function UpdateOf(form: Form): Fields {
    Fields(OrNull(form.username), OrNull(form.fullName), OrNull(form.bio), OrNull(form.favoriteGenre), OrNull(form.avatarUrl))
  }

  /** A stored column holds the empty string. */
  predicate HoldsEmpty(f: Fields) {
    f.username == Some("") || f.fullName == Some("") || f.bio == Some("")
    || f.favoriteGenre == Some("") || f.avatarUrl == Some("")
  }

  /** Loading what a save sent gives back the form that was saved. */
  lemma SaveThenLoad(form: Form)
    ensures FormOf(UpdateOf(form)) == form
  {
  }

  /** Saving an unedited form writes back the stored columns, except that a
      stored empty string comes back as null: the round trip is exact
      exactly when no column holds the empty string. */
  lemma LoadThenSave(f: Fields)
    ensures UpdateOf(FormOf(f)) == f <==> !HoldsEmpty(f)
  {
    if UpdateOf(FormOf(f)) == f {
      assert OrNull(OrEmpty(f.username)) == f.username;
    }
  }

  /** `count || 0`. */
  function CountOrZero(count: Option<nat>): (n: nat)
    ensures count.Some? ==> n == count.value
    ensures count.None? ==> n == 0
  {
    if count.Some? then count.value else 0
  }

  /** `formData.full_name || formData.username || 'Your Profile'`. */
  function HeaderName(form: Form): (s: string)
    ensures s != ""
    ensures form.fullName != "" ==> s == form.fullName
    ensures form.fullName == "" && form.username != "" ==> s == form.username
    ensures form.fullName == "" && form.username == "" ==> s == "Your Profile"
  {
    FirstOf(Some(form.fullName), Some(form.username), "Your Profile")
  }

  /** The page's state. */
  class Page {
    var profile: Option<ProfileRow>
    var form: Form
    var loading: bool
    var saving: bool
    var favoriteCount: nat
    var commentCount: nat

    constructor()
      ensures profile.None? && form == EmptyForm && loading && !saving
      ensures favoriteCount == 0 && commentCount == 0
    {
      profile := None;
      form := EmptyForm;
      loading := true;
      saving := false;
      favoriteCount := 0;
      commentCount := 0;
    }

    /** `fetchProfile`, given the signed-in user (if any), the reply to the
        profile query and the two counts. The counts are fetched even when
        the profile query fails. */
    method Load(user: Option<string>, reply: Reply<ProfileRow>, favorites: Option<nat>, comments: Option<nat>)
      modifies this
      ensures saving == old(saving)
      ensures user.None? ==> profile == old(profile) && form == old(form) && loading == old(loading)
                             && favoriteCount == old(favoriteCount) && commentCount == old(commentCount)
      ensures user.Some? ==> !loading && favoriteCount == CountOrZero(favorites) && commentCount == CountOrZero(comments)
      ensures user.Some? && reply.Data().Some? ==> profile == reply.Data() && form == FormOf(reply.Data().value.fields)
      ensures user.Some? && reply.Data().None? ==> profile == old(profile) && form == old(form)
    {
      if user.None? {
        return;
      }
      if reply.Data().Some? {
        profile := reply.Data();
        form := FormOf(reply.Data().value.fields);
      }
      favoriteCount := CountOrZero(favorites);
      commentCount := CountOrZero(comments);
      loading := false;
    }

    method Edit(f: Form)
      modifies this`form
      ensures form == f
    {
      form := f;
    }

    /** `handleSubmit`: with a user, sends the form as an update, whatever
        the outcome, and is no longer saving afterwards. Returns the update
        sent, if any. */
    method Save(user: Option<string>) returns (sent: Option<Fields>)
      modifies this`saving
      ensures user.None? ==> sent.None? && saving == old(saving)
      ensures user.Some? ==> sent == Some(UpdateOf(form)) && !saving
    {
      if user.None? {
        return None;
      }
      saving := true;
      sent := Some(UpdateOf(form));
      saving := false;
    }
  }
}
