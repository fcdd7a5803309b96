/**
 The sign-up form's submit handler: a cascade of checks where the first failing
 one sets the form's message and nothing is dispatched, and a passing form
 dispatches `signupStart` then `signupSuccess`.
 */
module Signup {
  import opened Types
  import opened Strings
  import opened AuthSlice

  /** What `validatePassword` returns. */
  datatype PasswordValidation = PasswordValidation(isValid: bool, message: string)

  /** `validateEmail` and `validatePassword`, whose definitions are not part of this model. */
  datatype Validators = Validators(
    validateEmail: string -> bool,
    validatePassword: string -> PasswordValidation)

  datatype Form = Form(email: string, username: string, password: string, confirmPassword: string)

  /** The outcome of the checks: the first one that fails, or `Passed`. */
  datatype Check = InvalidEmail | WeakPassword(message: string) | Mismatch | ShortUsername | Passed

  const InvalidEmailMessage := "Please enter a valid email address"
  const MismatchMessage := "Passwords do not match"
  const ShortUsernameMessage := "Username must be at least 3 characters long"
  const MinUsernameLength := 3

  /** The checks in order: email, password policy, confirmation, username length
      (in UTF-16 code units, as `username.length` counts). Each outcome is described by
      its own check failing and every earlier one passing. */
  function FirstFailure(f: Form, v: Validators): (c: Check)
    ensures c == InvalidEmail <==> !v.validateEmail(f.email)
    ensures c.WeakPassword? <==> v.validateEmail(f.email) && !v.validatePassword(f.password).isValid
    ensures c.WeakPassword? ==> c.message == v.validatePassword(f.password).message
    ensures c == Mismatch <==>
              && v.validateEmail(f.email) && v.validatePassword(f.password).isValid
              && f.password != f.confirmPassword
    ensures c == ShortUsername <==>
              && v.validateEmail(f.email) && v.validatePassword(f.password).isValid
              && f.password == f.confirmPassword && Utf16Length(f.username) < MinUsernameLength
    ensures c == Passed <==>
              && v.validateEmail(f.email) && v.validatePassword(f.password).isValid
              && f.password == f.confirmPassword && Utf16Length(f.username) >= MinUsernameLength
  {
    if !v.validateEmail(f.email) then InvalidEmail
    else
      var pv := v.validatePassword(f.password);
      if !pv.isValid then WeakPassword(pv.message)
      else if f.password != f.confirmPassword then Mismatch
      else if Utf16Length(f.username) < MinUsernameLength then ShortUsername
      else Passed
  }

  /** The message a check outcome shows; a passing form shows none. */
  function Message(c: Check): (m: string)
    ensures c == Passed ==> m == ""
    ensures c.WeakPassword? ==> m == c.message
    ensures c == InvalidEmail ==> m == "Please enter a valid email address"
    ensures c == Mismatch ==> m == "Passwords do not match"
    ensures c == ShortUsername ==> m == "Username must be at least 3 characters long"
    ensures !c.WeakPassword? && c != Passed ==> m != ""
  {
    match c
    case InvalidEmail => InvalidEmailMessage
    case WeakPassword(m) => m
    case Mismatch => MismatchMessage
    case ShortUsername => ShortUsernameMessage
    case Passed => ""
  }

  /** The user `signupSuccess` receives: a clock-derived id and the form's names. */
  function NewUser(f: Form, id: string): (u: User)
    ensures u.id == id && u.email == f.email && u.username == f.username && u.name == f.username
  {
    User(id, f.email, f.username, f.username)
  }

  datatype Outcome = Outcome(validationError: string, dispatched: seq<AuthAction>)

  /** `handleSubmit`. The previous message is cleared first, so the resulting message
      depends on the form alone. `id` is the clock reading `Date.now().toString()`. */
  function HandleSubmit(previousError: string, f: Form, v: Validators, id: string): (r: Outcome)
    ensures r.validationError == Message(FirstFailure(f, v))
    ensures r.dispatched != [] <==> FirstFailure(f, v) == Passed
    ensures FirstFailure(f, v) == Passed ==>
              r.dispatched == [SignupStart, SignupSuccessAction(NewUser(f, id))]
  {
    var cleared := "";
    match FirstFailure(f, v)
    case Passed => Outcome(cleared, [SignupStart, SignupSuccessAction(NewUser(f, id))])
    case c => Outcome(Message(c), [])
  }

  /** The handler composed with the auth store: the form's message and the new session. */
  function Submit(s: Session, previousError: string, f: Form, v: Validators, id: string): (r: (string, Session))
    ensures r.0 == Message(FirstFailure(f, v))
    ensures FirstFailure(f, v) != Passed ==> r.1 == s
    ensures FirstFailure(f, v) == Passed ==>
              && r.1.state.isAuthenticated && r.1.state.user == Some(NewUser(f, id))
              && !r.1.state.loading && r.1.state.error == None
              && r.1.state.theme == s.state.theme
              && IsUserRegistered(r.1.storage, f.email)
              && GetRegisteredUser(r.1.storage, f.email) == Some(NewUser(f, id))
              && r.1.storage.auth == Some(SessionBlob(NewUser(f, id)))
    ensures forall e :: e != f.email ==> GetRegisteredUser(r.1.storage, e) == GetRegisteredUser(s.storage, e)
  {
    var out := HandleSubmit(previousError, f, v, id);
    if out.dispatched == [] then
      assert ReduceAll(s, []) == s;
      (out.validationError, ReduceAll(s, out.dispatched))
    else
      ReduceAllPair(s, out.dispatched[0], out.dispatched[1]);
      (out.validationError, ReduceAll(s, out.dispatched))
  }

  /** The message under the form: the form's own message if there is one, else the store's. */
  function DisplayedError(validationError: string, storeError: Option<string>): (r: Option<string>)
    ensures r.Some? <==> validationError != "" || Truthy(storeError)
    ensures validationError != "" ==> r == Some(validationError)
    ensures validationError == "" && Truthy(storeError) ==> r == storeError
  {
    if validationError != "" then Some(validationError)
    else if Truthy(storeError) then storeError
    else None
  }

  /** After a successful sign-up nothing is displayed as an error. */
  lemma SuccessShowsNoError(s: Session, previousError: string, f: Form, v: Validators, id: string)
    requires FirstFailure(f, v) == Passed
    ensures var r := Submit(s, previousError, f, v, id);
            DisplayedError(r.0, r.1.state.error) == None
  {
  }

  /** Signing up with email "a@b.com", username "bob" and a matching password that the
      validators accept registers "a@b.com" and authenticates the session. */
  lemma SignupScenario(s: Session, id: string)
    ensures var v := Validators(e => true, p => PasswordValidation(true, ""));
            var f := Form("a@b.com", "bob", "Abcdef1!", "Abcdef1!");
            var r := Submit(s, "", f, v, id);
            IsUserRegistered(r.1.storage, "a@b.com") && r.1.state.isAuthenticated
  {
    var v := Validators(e => true, p => PasswordValidation(true, ""));
    var f := Form("a@b.com", "bob", "Abcdef1!", "Abcdef1!");
    assert Utf16Length("bob") == 3 by {
      assert "bob"[1..] == "ob" && "ob"[1..] == "b" && "b"[1..] == "";
    }
    assert FirstFailure(f, v) == Passed;
  }

  /** A password the policy rejects stops the sign-up before the directory is touched. */
  lemma WeakPasswordLeavesDirectory(s: Session, f: Form, v: Validators, id: string)
    requires v.validateEmail(f.email)
    requires !v.validatePassword(f.password).isValid
    ensures Submit(s, "", f, v, id).1.storage.registeredUsers == s.storage.registeredUsers
  {
  }
}
