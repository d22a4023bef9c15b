/**
 * The `auth` slice of the Redux store: the signed-in hair artist, whether a
 * request is in flight, whether the session is authenticated, and the last
 * error. Each reducer is a method that changes only the fields its case
 * names.
 */
module AuthSlice {
  import opened Wrappers
  import opened Text

  /** The user `getCurrentUser` answers with. */
  datatype User = User(id: int, email: string, name: string)

  const LoginFailed: string := "Login failed"
  const FetchUserFailed: string := "Failed to fetch user"

  /**
   * The slice's state. Each reducer method changes the state as `Reduce`
   * does for its action, and only the fields that case assigns.
   */
  class AuthState {
    var currentUser: Option<User>
    var loading: bool
    var authenticated: bool
    var error: Option<string>

    function Snapshot(): Auth
      reads this
    {
      Auth(currentUser, loading, authenticated, error)
    }

    /** `initialState`. */
    constructor()
      ensures Snapshot() == Initial
    {
      currentUser := None;
      loading := false;
      authenticated := false;
      error := None;
    }

    /** `clearError`. */
    method ClearError()
      modifies this
      ensures Snapshot() == Reduce(old(Snapshot()), Action.ClearError)
    {
      error := None;
    }

    /** `loginUser.pending` and `fetchCurrentUser.pending`, which are the same case. */
    method Pending()
      modifies this
      ensures Snapshot() == Reduce(old(Snapshot()), LoginPending)
      ensures Snapshot() == Reduce(old(Snapshot()), FetchCurrentUserPending)
    {
      loading := true;
      error := None;
    }

    /** `loginUser.fulfilled` and `fetchCurrentUser.fulfilled`, which are the same case. */
    method UserArrived(user: User)
      modifies this
      ensures Snapshot() == Reduce(old(Snapshot()), LoginFulfilled(user))
      ensures Snapshot() == Reduce(old(Snapshot()), FetchCurrentUserFulfilled(user))
    {
      loading := false;
      currentUser := Some(user);
      authenticated := true;
      error := None;
    }

    /** `loginUser.rejected`. */
    method LoginRejected(payload: Option<string>)
      modifies this
      ensures Snapshot() == Reduce(old(Snapshot()), Action.LoginRejected(payload))
    {
      loading := false;
      error := Some(Reason(payload, LoginFailed));
    }

    /** `fetchCurrentUser.rejected`. */
    method FetchCurrentUserRejected(payload: Option<string>)
      modifies this
      ensures Snapshot() == Reduce(old(Snapshot()), Action.FetchCurrentUserRejected(payload))
    {
      loading := false;
      authenticated := false;
      currentUser := None;
      error := Some(Reason(payload, FetchUserFailed));
    }

    /** `logoutUser.fulfilled`. */
    method LogoutFulfilled()
      modifies this
      ensures Snapshot() == Reduce(old(Snapshot()), Action.LogoutFulfilled)
    {
      currentUser := None;
      authenticated := false;
      error := None;
    }
  }

  /** The state as a value. */
  datatype Auth = Auth(currentUser: Option<User>, loading: bool, authenticated: bool, error: Option<string>)

  /** The actions the slice handles; a payload is the thunk's resolved or rejected value. */
  datatype Action =
    | ClearError
    | LoginPending
    | LoginFulfilled(user: User)
    | LoginRejected(payload: Option<string>)
    | FetchCurrentUserPending
    | FetchCurrentUserFulfilled(user: User)
    | FetchCurrentUserRejected(payload: Option<string>)
    | LogoutFulfilled

  const Initial: Auth := Auth(None, false, false, None)

  /**
   * The reducer: the state after action `a`. Each case changes only the
   * fields it names; `loading` survives a logout and the session survives a
   * failed login, while a failed user fetch ends it.
   */
  function Reduce(s: Auth, a: Action): (t: Auth)
    ensures t.authenticated && !s.authenticated ==> a.LoginFulfilled? || a.FetchCurrentUserFulfilled?
    ensures (s.authenticated ==> s.currentUser.Some?) ==> (t.authenticated ==> t.currentUser.Some?)
    ensures a.LoginRejected? ==> t.currentUser == s.currentUser && t.authenticated == s.authenticated && t.error.Some?
    ensures a.FetchCurrentUserRejected? ==> !t.authenticated && t.currentUser == None && t.error.Some?
    ensures a.LogoutFulfilled? ==> !t.authenticated && t.currentUser == None && t.loading == s.loading
    ensures !a.ClearError? && !a.LogoutFulfilled? ==> t.loading == (a.LoginPending? || a.FetchCurrentUserPending?)
  {
    match a
    case ClearError => s.(error := None)
    case LoginPending => s.(loading := true, error := None)
    case FetchCurrentUserPending => s.(loading := true, error := None)
    case LoginFulfilled(user) => Auth(Some(user), false, true, None)
    case FetchCurrentUserFulfilled(user) => Auth(Some(user), false, true, None)
    case LoginRejected(payload) => s.(loading := false, error := Some(Reason(payload, LoginFailed)))
    case FetchCurrentUserRejected(payload) => Auth(None, false, false, Some(Reason(payload, FetchUserFailed)))
    case LogoutFulfilled => s.(currentUser := None, authenticated := false, error := None)
  }

  function ReduceAll(s: Auth, actions: seq<Action>): Auth
    decreases |actions|
  {
    if actions == [] then s else ReduceAll(Reduce(s, actions[0]), actions[1..])
  }

  /** Once an authenticated session has a user, every sequence of actions keeps it so. */
  lemma {:induction false} AuthenticatedHasUser(s: Auth, actions: seq<Action>)
    requires s.authenticated ==> s.currentUser.Some?
    ensures var t := ReduceAll(s, actions); t.authenticated ==> t.currentUser.Some?
    decreases |actions|
  {
    if actions != [] {
      AuthenticatedHasUser(Reduce(s, actions[0]), actions[1..]);
    }
  }

  /** Only a fulfilled login or user fetch makes an unauthenticated session authenticated. */
  lemma {:induction false} AuthenticationNeedsAUser(s: Auth, actions: seq<Action>)
    requires !s.authenticated
    requires forall k :: 0 <= k < |actions| ==> !actions[k].LoginFulfilled? && !actions[k].FetchCurrentUserFulfilled?
    ensures !ReduceAll(s, actions).authenticated
    decreases |actions|
  {
    if actions != [] {
      AuthenticationNeedsAUser(Reduce(s, actions[0]), actions[1..]);
    }
  }

  /** After logging out, the session stays unauthenticated until a user is fetched or logs in again. */
  lemma LogoutEndsSession(s: Auth, actions: seq<Action>)
    requires forall k :: 0 <= k < |actions| ==> !actions[k].LoginFulfilled? && !actions[k].FetchCurrentUserFulfilled?
    ensures !ReduceAll(s, [LogoutFulfilled] + actions).authenticated
  {
    assert ([LogoutFulfilled] + actions)[1..] == actions;
    AuthenticationNeedsAUser(Reduce(s, LogoutFulfilled), actions);
  }
}
