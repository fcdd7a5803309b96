/**
 The auth store: the session state machine, the theme, and the registered-user
 directory. Browser storage is an explicit `Storage` record that every reducer
 returns next to the in-memory `AuthState`; reading a key that is absent, empty
 or not valid JSON is `None`.
 */
module AuthSlice {
  import opened Types

  /** The `auth` record as parsed back from storage: the `user` and `isAuthenticated`
      properties, each reduced to what the store keeps of it. */
  datatype AuthBlob = AuthBlob(user: Option<User>, isAuthenticated: bool)

  /** The three storage keys this store uses. */
  datatype Storage = Storage(
    auth: Option<AuthBlob>,
    registeredUsers: Option<map<string, User>>,
    theme: Option<string>)

  /** What the store reads once at start-up besides storage. */
  datatype Environment = Environment(hasWindow: bool, prefersDark: bool)

  /** The in-memory session together with what it has persisted. */
  datatype Session = Session(state: AuthState, storage: Storage)

  /** The session invariant: an authenticated session has a user. */
  predicate Consistent(st: AuthState)
  {
    st.isAuthenticated ==> st.user.Some?
  }

  /** A persisted `auth` record that would reload as a consistent session. */
  predicate BlobConsistent(storage: Storage)
  {
    storage.auth.Some? ==> (storage.auth.value.isAuthenticated ==> storage.auth.value.user.Some?)
  }

  /** `getInitialTheme`: a saved "dark" or "light" wins; otherwise the platform's
      dark-mode preference when there is a window; otherwise light. */
  function GetInitialTheme(hasWindow: bool, savedTheme: Option<string>, prefersDark: bool): (r: Theme)
    ensures !hasWindow ==> r == Light
    ensures hasWindow && savedTheme.Some? && ParseTheme(savedTheme.value).Some? ==>
              r == ParseTheme(savedTheme.value).value
    ensures hasWindow && (savedTheme.None? || ParseTheme(savedTheme.value).None?) ==>
              (r == Dark <==> prefersDark)
  {
    if hasWindow then
      if savedTheme == Some("dark") then Dark
      else if savedTheme == Some("light") then Light
      else if prefersDark then Dark else Light
    else Light
  }

  /** `loadStoredAuth`: the stored record if it could be read. Without a window there is
      no storage object, and the failed read is caught like a malformed one. */
  function LoadStoredAuth(hasWindow: bool, storage: Storage): (r: Option<AuthBlob>)
    ensures !hasWindow ==> r == None
    ensures hasWindow ==> r == storage.auth
  {
    if hasWindow then storage.auth else None
  }

  /** `initialState`: the defaults, the resolved theme, then whatever `user` and
      `isAuthenticated` the stored record carried, overriding the defaults. */
  function InitialState(env: Environment, storage: Storage): (st: AuthState)
    ensures !st.loading && st.error == None
    ensures st.theme == GetInitialTheme(env.hasWindow, storage.theme, env.prefersDark)
    ensures LoadStoredAuth(env.hasWindow, storage).None? ==> st.user == None && !st.isAuthenticated
    ensures LoadStoredAuth(env.hasWindow, storage).Some? ==>
              st.user == storage.auth.value.user && st.isAuthenticated == storage.auth.value.isAuthenticated
    ensures env.hasWindow && BlobConsistent(storage) ==> Consistent(st)
  {
    var base := AuthState(None, false, false, None,
                          GetInitialTheme(env.hasWindow, storage.theme, env.prefersDark));
    match LoadStoredAuth(env.hasWindow, storage)
    case None => base
    case Some(blob) => base.(user := blob.user, isAuthenticated := blob.isAuthenticated)
  }

  /** Start-up does NOT establish the session invariant: a stored record claiming
      authentication without a user is copied as it is. */
  lemma InitialStateMayBeInconsistent(env: Environment)
    requires env.hasWindow
    ensures !Consistent(InitialState(env, Storage(Some(AuthBlob(None, true)), None, None)))
  {
  }

  /** `getRegisteredUsers`: the stored directory, or an empty one when it is missing or unreadable. */
  function GetRegisteredUsers(storage: Storage): (dir: map<string, User>)
    ensures storage.registeredUsers.None? ==> dir == map[]
    ensures storage.registeredUsers.Some? ==> dir == storage.registeredUsers.value
  {
    match storage.registeredUsers
    case None => map[]
    case Some(m) => m
  }

  /** `isUserRegistered`, reading the directory as a map from emails to users
      (see `IsUserRegisteredAsWritten` for the plain-object lookup the code does). */
  function IsUserRegistered(storage: Storage, email: string): (r: bool)
    ensures r <==> storage.registeredUsers.Some? && email in storage.registeredUsers.value
  {
    email in GetRegisteredUsers(storage)
  }

  /** `getRegisteredUser`: the user stored under the email, if any. */
  function GetRegisteredUser(storage: Storage, email: string): (r: Option<User>)
    ensures r.Some? <==> IsUserRegistered(storage, email)
    ensures r.Some? ==> r.value == GetRegisteredUsers(storage)[email]
  {
    var dir := GetRegisteredUsers(storage);
    if email in dir then Some(dir[email]) else None
  }

  /** The names every plain JavaScript object inherits from `Object.prototype`; indexing
      an object parsed from JSON with one of them yields a truthy function or object. */
  const InheritedKeys: set<string> := {
    "constructor", "hasOwnProperty", "isPrototypeOf", "propertyIsEnumerable",
    "toLocaleString", "toString", "valueOf", "__proto__",
    "__defineGetter__", "__defineSetter__", "__lookupGetter__", "__lookupSetter__"
  }

  /** `isUserRegistered` as written: `!!registeredUsers[email]` on a plain object is true
      for an own property holding a user and for every inherited property name. */
  function IsUserRegisteredAsWritten(storage: Storage, email: string): (r: bool)
    ensures r <==> IsUserRegistered(storage, email) || email in InheritedKeys
  {
    email in GetRegisteredUsers(storage) || email in InheritedKeys
  }

  /** What `registeredUsers[email] || null` yields on a plain object: a stored user, the
      inherited `Object.prototype` member of that name (a function or object, never null),
      or null. */
  datatype Lookup = Stored(user: User) | Inherited(name: string) | Null

  /** `getRegisteredUser` as written: an own property wins, then an inherited name. */
  function GetRegisteredUserAsWritten(storage: Storage, email: string): (r: Lookup)
    ensures r.Stored? <==> IsUserRegistered(storage, email)
    ensures r.Stored? ==> r.user == GetRegisteredUsers(storage)[email]
    ensures r == Inherited(email) <==> !IsUserRegistered(storage, email) && email in InheritedKeys
    ensures r == Null <==> !IsUserRegisteredAsWritten(storage, email)
  {
    var dir := GetRegisteredUsers(storage);
    if email in dir then Stored(dir[email])
    else if email in InheritedKeys then Inherited(email)
    else Null
  }

  /** The as-written lookup agrees with the corrected one on every name `Object.prototype`
      does not carry, and differs exactly on the inherited names nobody registered. */
  lemma AsWrittenLookupAgreesOffInherited(storage: Storage, email: string)
    ensures email !in InheritedKeys ==>
              && (IsUserRegisteredAsWritten(storage, email) == IsUserRegistered(storage, email))
              && (GetRegisteredUserAsWritten(storage, email) ==
                    match GetRegisteredUser(storage, email)
                    case Some(u) => Stored(u)
                    case None => Null)
    ensures GetRegisteredUserAsWritten(storage, email).Inherited? <==>
              GetRegisteredUser(storage, email).None? && email in InheritedKeys
  {
  }

  /** On an empty directory, the lookups as written report "constructor" as registered and
      return an inherited member for it, while no user with that email exists. */
  lemma InheritedKeyLooksRegistered()
    ensures IsUserRegisteredAsWritten(Storage(None, None, None), "constructor")
    ensures GetRegisteredUserAsWritten(Storage(None, None, None), "constructor") == Inherited("constructor")
    ensures !IsUserRegistered(Storage(None, None, None), "constructor")
    ensures GetRegisteredUser(Storage(None, None, None), "constructor") == None
  {
  }

  /** `loginStart` / `signupStart`: mark the session as loading and clear the error. */
  function Start(s: Session): (r: Session)
    ensures r.state.loading && r.state.error == None
    ensures r.state.user == s.state.user && r.state.isAuthenticated == s.state.isAuthenticated
    ensures r.state.theme == s.state.theme
    ensures r.storage == s.storage
  {
    s.(state := s.state.(loading := true, error := None))
  }

  /** The record `loginSuccess` and `signupSuccess` persist under `auth`. */
  function SessionBlob(u: User): (b: AuthBlob)
    ensures b.isAuthenticated && b.user == Some(u)
  {
    AuthBlob(Some(u), true)
  }

  /** `loginSuccess`: authenticate as the payload and persist the session. */
  function LoginSuccess(s: Session, u: User): (r: Session)
    ensures !r.state.loading && r.state.isAuthenticated && r.state.user == Some(u) && r.state.error == None
    ensures r.state.theme == s.state.theme
    ensures r.storage.auth == Some(AuthBlob(Some(u), true))
    ensures r.storage.registeredUsers == s.storage.registeredUsers && r.storage.theme == s.storage.theme
  {
    Session(
      s.state.(loading := false, isAuthenticated := true, user := Some(u), error := None),
      s.storage.(auth := Some(SessionBlob(u))))
  }

  /** `loginFailure` / `signupFailure`: stop loading and record the message; the user and
      the authenticated flag stay as they were. */
  function Failure(s: Session, message: string): (r: Session)
    ensures !r.state.loading && r.state.error == Some(message)
    ensures r.state.user == s.state.user && r.state.isAuthenticated == s.state.isAuthenticated
    ensures r.state.theme == s.state.theme
    ensures r.storage == s.storage
  {
    s.(state := s.state.(loading := false, error := Some(message)))
  }

  /** `signupSuccess`: authenticate as the payload, store it in the directory under its
      email (overwriting), and persist the session. */
  function SignupSuccess(s: Session, u: User): (r: Session)
    ensures !r.state.loading && r.state.isAuthenticated && r.state.user == Some(u) && r.state.error == None
    ensures r.state.theme == s.state.theme
    ensures r.storage.auth == Some(AuthBlob(Some(u), true))
    ensures IsUserRegistered(r.storage, u.email) && GetRegisteredUser(r.storage, u.email) == Some(u)
    ensures forall e :: e != u.email ==> GetRegisteredUser(r.storage, e) == GetRegisteredUser(s.storage, e)
    ensures r.storage.theme == s.storage.theme
  {
    var dir := GetRegisteredUsers(s.storage)[u.email := u];
    Session(
      s.state.(loading := false, isAuthenticated := true, user := Some(u), error := None),
      s.storage.(registeredUsers := Some(dir), auth := Some(SessionBlob(u))))
  }

  /** `logout`: clear the session and its persisted record; theme and directory survive. */
  function Logout(s: Session): (r: Session)
    ensures r.state.user == None && !r.state.isAuthenticated && !r.state.loading && r.state.error == None
    ensures r.state.theme == s.state.theme
    ensures r.storage.auth == None
    ensures r.storage.registeredUsers == s.storage.registeredUsers && r.storage.theme == s.storage.theme
  {
    Session(
      s.state.(user := None, isAuthenticated := false, loading := false, error := None),
      s.storage.(auth := None))
  }

  /** `toggleTheme`: switch to the other theme and persist it. */
  function ToggleTheme(s: Session): (r: Session)
    ensures r.state.theme != s.state.theme
    ensures r.storage.theme == Some(ThemeName(r.state.theme))
    ensures r.state.(theme := s.state.theme) == s.state
    ensures r.storage.auth == s.storage.auth && r.storage.registeredUsers == s.storage.registeredUsers
  {
    var t := Flip(s.state.theme);
    Session(s.state.(theme := t), s.storage.(theme := Some(ThemeName(t))))
  }

  /** Toggling twice restores the in-memory session; storage then holds the original theme. */
  lemma ToggleThemeTwice(s: Session)
    ensures ToggleTheme(ToggleTheme(s)).state == s.state
    ensures ToggleTheme(ToggleTheme(s)).storage.theme == Some(ThemeName(s.state.theme))
  {
  }

  /** The persisted theme reloads as the in-memory theme, whatever the platform prefers. */
  lemma ToggleThemeReloads(s: Session, prefersDark: bool)
    ensures GetInitialTheme(true, ToggleTheme(s).storage.theme, prefersDark) == ToggleTheme(s).state.theme
  {
  }

  /** A successful login reloads as the same authenticated user. */
  lemma LoginSuccessReloads(s: Session, u: User, env: Environment)
    requires env.hasWindow
    ensures InitialState(env, LoginSuccess(s, u).storage).user == Some(u)
    ensures InitialState(env, LoginSuccess(s, u).storage).isAuthenticated
  {
  }

  /** After logout a reload starts signed out. */
  lemma LogoutReloads(s: Session, env: Environment)
    ensures InitialState(env, Logout(s).storage).user == None
    ensures !InitialState(env, Logout(s).storage).isAuthenticated
  {
  }

  /** The actions the auth store accepts. */
  datatype AuthAction =
    | LoginStart
    | LoginSuccessAction(user: User)
    | LoginFailure(message: string)
    | SignupStart
    | SignupSuccessAction(user: User)
    | SignupFailure(message: string)
    | LogoutAction
    | ToggleThemeAction

  /** The auth store's reducer. Every action preserves the session invariant and the
      consistency of the persisted record; only `signupSuccess` writes the directory. */
  function Reduce(s: Session, a: AuthAction): (r: Session)
    ensures Consistent(s.state) ==> Consistent(r.state)
    ensures BlobConsistent(s.storage) ==> BlobConsistent(r.storage)
    ensures !a.SignupSuccessAction? ==> r.storage.registeredUsers == s.storage.registeredUsers
  {
    match a
    case LoginStart => Start(s)
    case LoginSuccessAction(u) => LoginSuccess(s, u)
    case LoginFailure(m) => Failure(s, m)
    case SignupStart => Start(s)
    case SignupSuccessAction(u) => SignupSuccess(s, u)
    case SignupFailure(m) => Failure(s, m)
    case LogoutAction => Logout(s)
    case ToggleThemeAction => ToggleTheme(s)
  }

  /** Dispatch a sequence of actions in order; the invariants carry over the whole run. */
  function ReduceAll(s: Session, actions: seq<AuthAction>): (r: Session)
    ensures Consistent(s.state) ==> Consistent(r.state)
    ensures BlobConsistent(s.storage) ==> BlobConsistent(r.storage)
    ensures (forall i :: 0 <= i < |actions| ==> !actions[i].SignupSuccessAction?) ==>
              r.storage.registeredUsers == s.storage.registeredUsers
    decreases |actions|
  {
    if |actions| == 0 then s else ReduceAll(Reduce(s, actions[0]), actions[1..])
  }

  /** Dispatching two actions is reducing by one, then the other. */
  lemma ReduceAllPair(s: Session, a: AuthAction, b: AuthAction)
    ensures ReduceAll(s, [a, b]) == Reduce(Reduce(s, a), b)
  {
    assert [a, b][1..] == [b];
    assert [b][1..] == [];
    assert ReduceAll(Reduce(s, a), [b]) == ReduceAll(Reduce(Reduce(s, a), b), []);
  }
}
