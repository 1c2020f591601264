/**
 The authentication state of the client (frontend/src/store/slices/authSlice.ts):
 the reducer's response to the login, register, updateProfile and logout
 thunks and to clearError. The thunks' HTTP calls and localStorage writes
 are not modelled; their results arrive as action payloads.
 */
module AuthSlice {
  import opened Wrappers

  /** A user record as the server returns it; any field may be absent from
      a partial payload. */
  datatype User = User(id: Option<string>, name: Option<string>, email: Option<string>, isAdmin: Option<bool>)

  const EmptyUser := User(None, None, None, None)

  datatype AuthState = AuthState(user: Option<User>, loading: bool, error: Option<string>, isAuthenticated: bool)

  const Initial := AuthState(None, false, None, false)

  datatype Thunk = Login | Register | UpdateProfile | Logout

  /** The default message of each thunk's rejection. */
  function DefaultError(t: Thunk): string {
    match t
    case Login => "Error al iniciar sesi\U{00F3}n"
    case Register => "Error al registrarse"
    case UpdateProfile => "Error al actualizar el perfil"
    case Logout => ""
  }

  datatype Action =
    | Pending(thunk: Thunk)
    | LoginFulfilled(payload: User)
    | RegisterFulfilled(payload: User)
    | UpdateProfileFulfilled(patch: User)
    | LogoutFulfilled
    | Rejected(thunk: Thunk, message: Option<string>)
    | ClearError

  /** `{ ...base, ...patch }`: every field the patch carries wins; a null
      base spreads as the empty object. */
  function MergeUser(base: Option<User>, patch: User): (u: User)
    ensures patch.id.Some? ==> u.id == patch.id
    ensures patch.name.Some? ==> u.name == patch.name
    ensures patch.email.Some? ==> u.email == patch.email
    ensures patch.isAdmin.Some? ==> u.isAdmin == patch.isAdmin
    ensures base.None? ==> u == patch
    ensures base.Some? && patch == EmptyUser ==> u == base.value
  {
    var b := base.GetOr(EmptyUser);
    User(
      if patch.id.Some? then patch.id else b.id,
      if patch.name.Some? then patch.name else b.name,
      if patch.email.Some? then patch.email else b.email,
      if patch.isAdmin.Some? then patch.isAdmin else b.isAdmin)
  }

  /** The reducer. The logout thunk has no pending or rejected case, so
      those actions leave the state alone. */
  function Reduce(st: AuthState, a: Action): (r: AuthState)
    ensures a.Pending? && a.thunk != Logout ==>
      r == st.(loading := true, error := None)
    ensures (a.LoginFulfilled? || a.RegisterFulfilled?) ==>
      r.user == Some(a.payload) && r.isAuthenticated && !r.loading && r.error == st.error
    ensures a.UpdateProfileFulfilled? ==>
      r.user == Some(MergeUser(st.user, a.patch)) && r.isAuthenticated == st.isAuthenticated && !r.loading
    ensures a.Rejected? && a.thunk != Logout ==>
      r == st.(loading := false, error := Some(OrElse(a.message, DefaultError(a.thunk))))
    ensures a.LogoutFulfilled? ==> r == st.(user := None, isAuthenticated := false)
    ensures a.ClearError? ==> r == st.(error := None)
    ensures (a.Pending? || a.Rejected?) && a.thunk == Logout ==> r == st
  {
    match a
    case Pending(t) => if t == Logout then st else st.(loading := true, error := None)
    case LoginFulfilled(u) => st.(loading := false, user := Some(u), isAuthenticated := true)
    case RegisterFulfilled(u) => st.(loading := false, user := Some(u), isAuthenticated := true)
    case UpdateProfileFulfilled(p) => st.(loading := false, user := Some(MergeUser(st.user, p)))
    case LogoutFulfilled => st.(user := None, isAuthenticated := false)
    case Rejected(t, m) => if t == Logout then st else st.(loading := false, error := Some(OrElse(m, DefaultError(t))))
    case ClearError => st.(error := None)
  }

  function Replay(st: AuthState, actions: seq<Action>): AuthState
    decreases |actions|
  {
    if |actions| == 0 then st else Replay(Reduce(st, actions[0]), actions[1..])
  }

  /** An authenticated state always holds a user, and while a request is
      in flight no error is shown. */
  predicate Coherent(st: AuthState) {
    (st.isAuthenticated ==> st.user.Some?) && (st.loading ==> st.error.None?)
  }

  lemma ReduceKeepsCoherent(st: AuthState, a: Action)
    requires Coherent(st)
    ensures Coherent(Reduce(st, a))
  {
  }

  /** Every state reachable from the initial one is coherent. */
  lemma {:induction false} ReplayCoherent(st: AuthState, actions: seq<Action>)
    requires Coherent(st)
    ensures Coherent(Replay(st, actions))
    decreases |actions|
  {
    if |actions| > 0 {
      ReduceKeepsCoherent(st, actions[0]);
      ReplayCoherent(Reduce(st, actions[0]), actions[1..]);
    }
  }

  /** The converse fails: a profile update that completes after a logout
      leaves a user in the state while it is not authenticated. */
  lemma UpdateAfterLogoutLeavesUser(patch: User)
    ensures var st := Replay(Initial, [Pending(UpdateProfile), LogoutFulfilled, UpdateProfileFulfilled(patch)]);
      st.user == Some(patch) && !st.isAuthenticated && Coherent(st)
  {
    var acts := [Pending(UpdateProfile), LogoutFulfilled, UpdateProfileFulfilled(patch)];
    var s1 := Reduce(Initial, acts[0]);
    var s2 := Reduce(s1, acts[1]);
    var s3 := Reduce(s2, acts[2]);
    assert acts[1..][1..][1..] == [];
    assert Replay(Initial, acts) == Replay(s1, acts[1..]) == Replay(s2, acts[1..][1..]) == Replay(s3, []);
  }
}
