/**
  The authentication context (auth.tsx). There is no server: `login` accepts
  any e-mail containing '@' and signs in the fixed mock user, `register`
  checks three rules and signs in a copy of the mock user, and every change of
  user is mirrored into one storage entry ("forumx-user") that the next mount
  reads back. The storage entry is modelled as an optional user; the JSON
  encoding of it is not modelled.
 */
module Auth {
  import opened Wrappers

  datatype User = User(
    id: string,
    username: string,
    email: string,
    avatarUrl: string,
    createdAt: string,
    karma: int)

  /** `MOCK_USER`; its `createdAt` is the moment the module loads, which is not modelled. */
  function MockUser(createdAt: string): (u: User)
    ensures u.id == "1" && u.username == "johnsmith" && u.email == "john@example.com"
    ensures u.avatarUrl == "" && u.karma == 235 && u.createdAt == createdAt
  {
    User("1", "johnsmith", "john@example.com", "", createdAt, 235)
  }

  /** The context's `user` and `loading`, and the stored entry. */
  datatype AuthState = AuthState(user: Option<User>, loading: bool, stored: Option<User>)

  /** The signed-in user and the stored entry agree. */
  predicate Synced(s: AuthState)
  {
    s.user == s.stored
  }

  /** The provider before its mount effect has run: nobody signed in, loading. */
  function Fresh(stored: Option<User>): (s: AuthState)
    ensures s.user.None? && s.loading && s.stored == stored
  {
    AuthState(None, true, stored)
  }

  /** The mount effect: a stored user is signed in again, and loading ends. */
  function Mount(s: AuthState): (r: AuthState)
    ensures !r.loading && r.stored == s.stored
    ensures s.stored.Some? ==> r.user == s.stored
    ensures s.stored.None? ==> r.user == s.user
  {
    AuthState(if s.stored.Some? then s.stored else s.user, false, s.stored)
  }

  /** `email.includes('@')`. */
  predicate HasAt(email: string)
  {
    '@' in email
  }

  /**
    `login`: the password is never looked at. An e-mail without '@' fails with
    "Invalid email format" and changes nothing but `loading`; any other signs in
    the mock user and stores it. `loading` is false afterwards either way.
   */
  function Login(s: AuthState, email: string, password: string, mockCreatedAt: string)
    : (r: (AuthState, Result<User>))
    ensures !r.0.loading
    ensures r.1.Err? <==> !HasAt(email)
    ensures r.1.Err? ==> r.1.message == "Invalid email format"
    ensures r.1.Err? ==> r.0.user == s.user && r.0.stored == s.stored
    ensures r.1.Ok? ==> r.1.value == MockUser(mockCreatedAt)
    ensures r.1.Ok? ==> r.0.user == Some(r.1.value) && r.0.stored == Some(r.1.value)
  {
    if !HasAt(email) then (s.(loading := false), Err("Invalid email format"))
    else
      var u := MockUser(mockCreatedAt);
      (AuthState(Some(u), false, Some(u)), Ok(u))
  }

  /**
    `register`: the first failing rule wins, in the order username length,
    e-mail '@', password length. Success signs in and stores the mock user with
    the given username and e-mail and zero karma.
   */
  function Register(s: AuthState, username: string, email: string, password: string, mockCreatedAt: string)
    : (r: (AuthState, Result<User>))
    ensures !r.0.loading
    ensures r.1.Err? ==> r.0.user == s.user && r.0.stored == s.stored
    ensures r.1 == Err("Username must be at least 3 characters") <==> |username| < 3
    ensures r.1 == Err("Invalid email format") <==> |username| >= 3 && !HasAt(email)
    ensures r.1 == Err("Password must be at least 6 characters") <==>
      |username| >= 3 && HasAt(email) && |password| < 6
    ensures r.1.Ok? <==> |username| >= 3 && HasAt(email) && |password| >= 6
    ensures r.1.Ok? ==> r.0.user == Some(r.1.value) && r.0.stored == Some(r.1.value)
    ensures r.1.Ok? ==> && r.1.value.id == "1" && r.1.value.username == username && r.1.value.email == email
                        && r.1.value.avatarUrl == "" && r.1.value.createdAt == mockCreatedAt
                        && r.1.value.karma == 0
  {
    if |username| < 3 then (s.(loading := false), Err("Username must be at least 3 characters"))
    else if !HasAt(email) then (s.(loading := false), Err("Invalid email format"))
    else if |password| < 6 then (s.(loading := false), Err("Password must be at least 6 characters"))
    else
      var u := MockUser(mockCreatedAt).(username := username, email := email, karma := 0);
      (AuthState(Some(u), false, Some(u)), Ok(u))
  }

  /** `logout`: nobody is signed in and the stored entry is removed. */
  function Logout(s: AuthState): (r: AuthState)
    ensures r.user.None? && r.stored.None? && r.loading == s.loading
  {
    AuthState(None, s.loading, None)
  }

  /** A `Partial<User>`: `None` for a key the patch does not carry. */
  datatype UserPatch = UserPatch(
    id: Option<string>,
    username: Option<string>,
    email: Option<string>,
    avatarUrl: Option<string>,
    createdAt: Option<string>,
    karma: Option<int>)

  function Pick<T>(patch: Option<T>, current: T): T
  {
    if patch.Some? then patch.value else current
  }

  /** `{ ...user, ...userData }`. */
  function Merge(u: User, p: UserPatch): (r: User)
    ensures p.id.Some? ==> r.id == p.id.value
    ensures p.id.None? ==> r.id == u.id
    ensures p.username.Some? ==> r.username == p.username.value
    ensures p.username.None? ==> r.username == u.username
    ensures p.email.Some? ==> r.email == p.email.value
    ensures p.email.None? ==> r.email == u.email
    ensures p.avatarUrl.Some? ==> r.avatarUrl == p.avatarUrl.value
    ensures p.avatarUrl.None? ==> r.avatarUrl == u.avatarUrl
    ensures p.createdAt.Some? ==> r.createdAt == p.createdAt.value
    ensures p.createdAt.None? ==> r.createdAt == u.createdAt
    ensures p.karma.Some? ==> r.karma == p.karma.value
    ensures p.karma.None? ==> r.karma == u.karma
  {
    User(Pick(p.id, u.id), Pick(p.username, u.username), Pick(p.email, u.email),
         Pick(p.avatarUrl, u.avatarUrl), Pick(p.createdAt, u.createdAt), Pick(p.karma, u.karma))
  }

  /** `updateUser`: nothing when signed out; otherwise the merged user is signed in and stored. */
  function UpdateUser(s: AuthState, p: UserPatch): (r: AuthState)
    ensures s.user.None? ==> r == s
    ensures s.user.Some? ==> r.user == Some(Merge(s.user.value, p)) && r.stored == r.user
    ensures r.loading == s.loading
  {
    match s.user
    case None => s
    case Some(u) => AuthState(Some(Merge(u, p)), s.loading, Some(Merge(u, p)))
  }

  /** The patch that applies `p` and then `q`: `q`'s keys win. */
  function Then(p: UserPatch, q: UserPatch): UserPatch
  {
    UserPatch(
      if q.id.Some? then q.id else p.id,
      if q.username.Some? then q.username else p.username,
      if q.email.Some? then q.email else p.email,
      if q.avatarUrl.Some? then q.avatarUrl else p.avatarUrl,
      if q.createdAt.Some? then q.createdAt else p.createdAt,
      if q.karma.Some? then q.karma else p.karma)
  }

  /** Two updates in a row are one update with the combined patch. */
  lemma UpdateUserTwice(s: AuthState, p: UserPatch, q: UserPatch)
    ensures UpdateUser(UpdateUser(s, p), q) == UpdateUser(s, Then(p, q))
  {
  }

  /** An update with an empty patch changes nothing once user and storage agree. */
  lemma UpdateUserEmpty(s: AuthState)
    requires Synced(s)
    ensures UpdateUser(s, UserPatch(None, None, None, None, None, None)) == s
  {
  }

  // ---------------------------------------------------------------------------
  // Storage stays in step with the signed-in user

  /** Mounting over an empty context leaves user and storage in agreement. */
  lemma MountSyncs(stored: Option<User>)
    ensures Synced(Mount(Fresh(stored)))
  {
  }

  /** Every operation after mount keeps user and storage in agreement. */
  lemma OperationsKeepSynced(s: AuthState, email: string, username: string, password: string,
                             mockCreatedAt: string, p: UserPatch)
    requires Synced(s)
    ensures Synced(Login(s, email, password, mockCreatedAt).0)
    ensures Synced(Register(s, username, email, password, mockCreatedAt).0)
    ensures Synced(Logout(s))
    ensures Synced(UpdateUser(s, p))
  {
  }

  /** Reloading the page signs the same user in again: the mount reads back what was stored. */
  lemma ReloadRestoresUser(s: AuthState)
    requires Synced(s)
    ensures Mount(Fresh(s.stored)).user == s.user
  {
  }

  /** After logging in with any e-mail containing '@', whatever the password, a reload finds the mock user. */
  lemma LoginSurvivesReload(s: AuthState, email: string, password: string, mockCreatedAt: string)
    requires HasAt(email)
    ensures Mount(Fresh(Login(s, email, password, mockCreatedAt).0.stored)).user == Some(MockUser(mockCreatedAt))
  {
  }
}
