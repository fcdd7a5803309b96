/**
 The sign-in form's submit handler. It checks only that the three fields are
 non-empty; it neither looks up the registered-user directory nor checks the password.
 */
module Login {
  import opened Types
  import opened AuthSlice

  datatype Form = Form(email: string, username: string, password: string)

  const RequiredMessage := "All fields are required"

  /** The user a successful sign-in authenticates as: a fixed id and the form's names. */
  function MockUser(f: Form): (u: User)
    ensures u.id == "1" && u.email == f.email && u.username == f.username && u.name == f.username
  {
    User("1", f.email, f.username, f.username)
  }

  predicate Filled(f: Form)
  {
    f.email != "" && f.password != "" && f.username != ""
  }

  /** `handleSubmit`: the actions dispatched, in order. `loginStart` always comes first,
      followed by success when every field is non-empty and by the required-fields
      failure otherwise. */
  function HandleSubmit(f: Form): (r: seq<AuthAction>)
    ensures |r| == 2 && r[0] == LoginStart
    ensures f.email != "" && f.password != "" && f.username != "" ==> r[1] == LoginSuccessAction(MockUser(f))
    ensures f.email == "" || f.password == "" || f.username == "" ==> r[1] == LoginFailure(RequiredMessage)
  {
    if Filled(f) then [LoginStart, LoginSuccessAction(MockUser(f))]
    else [LoginStart, LoginFailure(RequiredMessage)]
  }

  /** The password's value never matters, only whether it is empty. */
  lemma PasswordNotChecked(f: Form, other: string)
    requires (f.password == "") == (other == "")
    ensures HandleSubmit(f.(password := other)) == HandleSubmit(f)
  {
  }

  /** The handler composed with the auth store. */
  function Submit(s: Session, f: Form): (r: Session)
    ensures !r.state.loading
    ensures r.state.theme == s.state.theme
    ensures r.storage.registeredUsers == s.storage.registeredUsers && r.storage.theme == s.storage.theme
    ensures Filled(f) ==> && r.state.isAuthenticated && r.state.user == Some(MockUser(f))
                          && r.state.error == None && r.storage.auth == Some(SessionBlob(MockUser(f)))
    ensures !Filled(f) ==> && r.state.error == Some(RequiredMessage)
                           && r.state.user == s.state.user
                           && r.state.isAuthenticated == s.state.isAuthenticated
                           && r.storage == s.storage
  {
    var actions := HandleSubmit(f);
    ReduceAllPair(s, actions[0], actions[1]);
    assert actions == [actions[0], actions[1]];
    ReduceAll(s, actions)
  }

  /** The outcome does not depend on the registered-user directory: two sessions that
      differ only in storage end in the same in-memory state. */
  lemma DirectoryNotConsulted(s1: Session, s2: Session, f: Form)
    requires s1.state == s2.state
    ensures Submit(s1, f).state == Submit(s2, f).state
  {
  }
}
