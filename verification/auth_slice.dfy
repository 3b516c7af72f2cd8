/** The client's authentication state (frontend/src/store/slices/authSlice.js):
    a three-field record and its three reducers. */
module AuthSlice {
  import opened Common
  import UserModel

  /** The user the server sends back (`data.user`): a serialised user document.
      A present profile is an object, so always truthy. */
  type Profile = UserModel.Document

  datatype AuthState = AuthState(user: Option<Profile>, isAuthenticated: bool, loading: bool)

  /** The slice's actions, with their payloads. */
  datatype Action = SetUser(payload: Option<Profile>) | SetLoading(flag: bool) | Logout

  function InitialState(): (s: AuthState)
    ensures s.user.None? && !s.isAuthenticated && !s.loading
  {
    AuthState(None, false, false)
  }

  /** The slice's invariant: authenticated exactly when a user is present. */
  predicate Consistent(s: AuthState) {
    s.isAuthenticated <==> s.user.Some?
  }

  /** `setUser`: store the payload, derive `isAuthenticated` from it, stop loading. */
  function SetUserReducer(s: AuthState, payload: Option<Profile>): (r: AuthState)
    ensures r.user == payload && !r.loading
    ensures Consistent(r)
  {
    AuthState(payload, payload.Some?, false)
  }

  /** `setLoading`: only `loading` changes. */
  function SetLoadingReducer(s: AuthState, flag: bool): (r: AuthState)
    ensures r.user == s.user && r.isAuthenticated == s.isAuthenticated && r.loading == flag
  {
    s.(loading := flag)
  }

  /** `logout`: back to the initial state from anywhere. */
  function LogoutReducer(s: AuthState): (r: AuthState)
    ensures r.user.None? && !r.isAuthenticated && !r.loading
  {
    AuthState(None, false, false)
  }

  /** The slice's reducer: dispatch on the action type. */
  function Reduce(s: AuthState, a: Action): (r: AuthState)
    ensures a.SetUser? ==> r.user == a.payload && r.isAuthenticated == a.payload.Some? && !r.loading
    ensures a.SetLoading? ==> r == s.(loading := a.flag)
    ensures a.Logout? ==> r == InitialState()
  {
    match a
    case SetUser(p) => SetUserReducer(s, p)
    case SetLoading(b) => SetLoadingReducer(s, b)
    case Logout => LogoutReducer(s)
  }

  /** The state after dispatching `actions` in order. */
  function Replay(s: AuthState, actions: seq<Action>): AuthState
    decreases |actions|
  {
    if actions == [] then s else Replay(Reduce(s, actions[0]), actions[1..])
  }

  /** Logout lands on the initial state and is idempotent. */
  lemma LogoutIsInitialAndIdempotent(s: AuthState)
    ensures LogoutReducer(s) == InitialState()
    ensures LogoutReducer(LogoutReducer(s)) == LogoutReducer(s)
  {
  }

  /** Each reducer keeps the invariant. */
  lemma ReduceKeepsConsistent(s: AuthState, a: Action)
    requires Consistent(s)
    ensures Consistent(Reduce(s, a))
  {
  }

  /** Any sequence of dispatches from a consistent state, in particular from the
      initial state, ends in a consistent state. */
  lemma {:induction false} ReplayKeepsConsistent(s: AuthState, actions: seq<Action>)
    requires Consistent(s)
    ensures Consistent(Replay(s, actions))
    decreases |actions|
  {
    if actions != [] {
      ReduceKeepsConsistent(s, actions[0]);
      ReplayKeepsConsistent(Reduce(s, actions[0]), actions[1..]);
    }
  }

  lemma ReachableStatesAreConsistent(actions: seq<Action>)
    ensures Consistent(Replay(InitialState(), actions))
  {
    ReplayKeepsConsistent(InitialState(), actions);
  }
}
