/** The sign-in / sign-up page: the form is validated against the schema,
    schema issues become per-field errors, and the service's error messages
    are rewritten for two known cases. */
module AuthPage {
  import opened Wrappers
  import opened Text

  /** One schema issue: the path of the offending field and its message. */
  datatype Issue = Issue(path: seq<string>, message: string)

  const EmailMessage := "Please enter a valid email"
  const PasswordMessage := "Password must be at least 6 characters"

  /** The issues the schema reports, in the order of its fields: email, then
      password. Whether the email is well formed is decided by the schema
      library and given here as a flag; the full name is optional and never
      fails. */
  function SchemaIssues(emailValid: bool, password: string): (r: seq<Issue>)
    ensures r == [] <==> emailValid && |password| >= 6
    ensures Issue(["password"], PasswordMessage) in r <==> |password| < 6
    ensures Issue(["email"], EmailMessage) in r <==> !emailValid
  {
    (if emailValid then [] else [Issue(["email"], EmailMessage)])
    + (if |password| >= 6 then [] else [Issue(["password"], PasswordMessage)])
  }

  /** `if (err.path[0])`: the issue names a field. */
  predicate HasKey(i: Issue) {
    |i.path| > 0 && i.path[0] != ""
  }

  /** The field errors `forEach` leaves behind: for each issue naming a
      field, in order, the field's entry is set to its message. */
  function FieldErrors(issues: seq<Issue>): map<string, string>
    decreases |issues|
  {
    if issues == [] then map[]
    else
      var front := FieldErrors(issues[..|issues| - 1]);
      var last := issues[|issues| - 1];
      if HasKey(last) then front[last.path[0] := last.message] else front
  }

  /** A field has an error exactly when some issue names it. */
  lemma {:induction false} FieldErrorsKeys(issues: seq<Issue>, field: string)
    ensures field in FieldErrors(issues) <==> exists i :: 0 <= i < |issues| && HasKey(issues[i]) && issues[i].path[0] == field
  {
    if issues != [] {
      var front := issues[..|issues| - 1];
      FieldErrorsKeys(front, field);
      if field in FieldErrors(issues) && !(HasKey(issues[|issues| - 1]) && issues[|issues| - 1].path[0] == field) {
        var i :| 0 <= i < |front| && HasKey(front[i]) && front[i].path[0] == field;
        assert issues[i] == front[i];
      }
      if exists i :: 0 <= i < |issues| && HasKey(issues[i]) && issues[i].path[0] == field {
        var i :| 0 <= i < |issues| && HasKey(issues[i]) && issues[i].path[0] == field;
        if i < |issues| - 1 {
          assert front[i] == issues[i];
        }
      }
    }
  }

  /** A later issue for the same field overwrites an earlier one: the error
      shown is the message of the last issue naming the field. */
  lemma {:induction false} FieldErrorsLastWins(issues: seq<Issue>, j: int)
    requires 0 <= j < |issues| && HasKey(issues[j])
    requires forall i :: j < i < |issues| && HasKey(issues[i]) ==> issues[i].path[0] != issues[j].path[0]
    ensures issues[j].path[0] in FieldErrors(issues)
    ensures FieldErrors(issues)[issues[j].path[0]] == issues[j].message
    decreases |issues|
  {
    if j < |issues| - 1 {
      var front := issues[..|issues| - 1];
      assert front[j] == issues[j];
      forall i | j < i < |front| && HasKey(front[i]) ensures front[i].path[0] != front[j].path[0] {
        assert front[i] == issues[i];
      }
      FieldErrorsLastWins(front, j);
    }
  }

  /** The `forEach` over the issues that fills `fieldErrors`. */
  method CollectFieldErrors(issues: seq<Issue>) returns (fieldErrors: map<string, string>)
    ensures fieldErrors == FieldErrors(issues)
  {
    fieldErrors := map[];
    var k := 0;
    while k < |issues|
      invariant 0 <= k <= |issues|
      invariant fieldErrors == FieldErrors(issues[..k])
    {
      assert issues[..k + 1][..k] == issues[..k];
      var err := issues[k];
      if HasKey(err) {
        fieldErrors := fieldErrors[err.path[0] := err.message];
      }
      k := k + 1;
    }
    assert issues[..|issues|] == issues;
  }

  /** The sign-in error shown: the known credentials message is replaced,
      any other passes through. */
  function SignInText(message: string): (shown: string)
    ensures Contains(message, "Invalid login credentials") ==> shown == "Invalid email or password"
    ensures !Contains(message, "Invalid login credentials") ==> shown == message
  {
    if Contains(message, "Invalid login credentials") then "Invalid email or password" else message
  }

  /** The phrase a sign-up error is recognised by. */
  const AlreadyRegistered := "already registered"

  /** "This email is already registered. Please sign in instead." */
  const RegisteredText := "This email is " + AlreadyRegistered + ". Please sign in instead."

  /** The sign-up error shown: any message about an already registered
      address is replaced, any other passes through. */
  function SignUpText(message: string): (shown: string)
    ensures Contains(message, AlreadyRegistered) ==> shown == RegisteredText
    ensures !Contains(message, AlreadyRegistered) ==> shown == message
  {
    if Contains(message, AlreadyRegistered) then RegisteredText else message
  }

  /** Rewriting a sign-in message twice is rewriting it once: the
      replacement no longer contains the credentials phrase. */
  lemma SignInTextIdempotent(message: string)
    ensures SignInText(SignInText(message)) == SignInText(message)
  {
    var shown := "Invalid email or password";
    var phrase := "Invalid login credentials";
    ContainsAt(shown, phrase);
    if exists i :: OccursAt(shown, phrase, i) {
      var i :| OccursAt(shown, phrase, i);
      assert i == 0;
      assert shown[8] != phrase[8];
    }
  }

  /** Rewriting a sign-up message twice is rewriting it once: the
      replacement itself mentions an already registered address. */
  lemma SignUpTextIdempotent(message: string)
    ensures SignUpText(SignUpText(message)) == SignUpText(message)
  {
    ContainsInfix("This email is ", AlreadyRegistered, ". Please sign in instead.");
  }

  /** The reply of the authentication service. */
  datatype AuthReply = Accepted | Rejected(message: string) | Crashed

  /** The call the submit handler makes. */
  datatype AuthCall = NoCall | SignIn(email: string, password: string) | SignUp(email: string, password: string, fullName: string)

  /** The page's state. */
  class Page {
    var isLogin: bool
    var errors: map<string, string>
    var isLoading: bool

    constructor()
      ensures isLogin && errors == map[] && !isLoading
    {
      isLogin := true;
      errors := map[];
      isLoading := false;
    }

    /** `validateForm`: no errors when the schema accepts the form,
        otherwise one error per named field. */
    method Validate(emailValid: bool, password: string) returns (ok: bool)
      modifies this`errors
      ensures ok <==> SchemaIssues(emailValid, password) == []
      ensures errors == FieldErrors(SchemaIssues(emailValid, password))
    {
      var issues := SchemaIssues(emailValid, password);
      if issues == [] {
        errors := map[];
        return true;
      }
      errors := CollectFieldErrors(issues);
      ok := false;
    }

    /** `handleSubmit`, given the form's inputs and the service's reply.
        Nothing is called when validation fails. Returns the call made and
        the notice shown (None when nothing was submitted). */
    method Submit(emailValid: bool, email: string, password: string, fullName: string, reply: AuthReply)
      returns (call: AuthCall, notice: Option<string>)
      modifies this
      ensures isLogin == old(isLogin)
      ensures errors == FieldErrors(SchemaIssues(emailValid, password))
      ensures SchemaIssues(emailValid, password) != [] ==> call == NoCall && notice.None? && isLoading == old(isLoading)
      ensures SchemaIssues(emailValid, password) == [] ==>
                && !isLoading && notice.Some?
                && call == (if isLogin then SignIn(email, password) else SignUp(email, password, fullName))
                && (reply.Crashed? ==> notice.value == "An unexpected error occurred")
                && (reply.Rejected? ==> notice.value == (if isLogin then SignInText(reply.message) else SignUpText(reply.message)))
                && (reply.Accepted? ==> notice.value == (if isLogin then "Welcome back!" else "Account created successfully!"))
    {
      var ok := Validate(emailValid, password);
      if !ok {
        return NoCall, None;
      }
      isLoading := true;
      call := if isLogin then SignIn(email, password) else SignUp(email, password, fullName);
      match reply {
        case Crashed =>
          notice := Some("An unexpected error occurred");
        case Rejected(message) =>
          notice := Some(if isLogin then SignInText(message) else SignUpText(message));
        case Accepted =>
          notice := Some(if isLogin then "Welcome back!" else "Account created successfully!");
      }
      isLoading := false;
    }

    /** The mode switch: sign-in and sign-up swap and the errors are
        cleared. */
    method ToggleMode()
      modifies this`isLogin, this`errors
      ensures isLogin == !old(isLogin) && errors == map[]
    {
      isLogin := !isLogin;
      errors := map[];
    }
  }

  /** A password shorter than six characters never passes validation, and
      the schema then reports it under the password field. */
  lemma ShortPasswordFails(emailValid: bool, password: string)
    requires |password| < 6
    ensures SchemaIssues(emailValid, password) != []
    ensures FieldErrors(SchemaIssues(emailValid, password))["password"] == PasswordMessage
  {
    var issues := SchemaIssues(emailValid, password);
    FieldErrorsLastWins(issues, |issues| - 1);
  }
}
