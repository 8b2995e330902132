/**
  The authentication store: the bearer token, the cached user data (opaque to
  the store, hence the type parameter `U`) and the derived `isAuthenticated`
  flag, with the three actions the store exposes.
 */
module AuthStore {
  import opened JsCore

  datatype Session<U> = Session(token: Option<string>, user: Option<U>, isAuthenticated: bool)

  /** The store's invariant: the flag is exactly the truthiness of the token. */
  predicate Valid<U>(s: Session<U>) {
    s.isAuthenticated == Truthy(s.token)
  }

  /** The state the store is created with. */
  function Initial<U>(): (s: Session<U>)
    ensures Valid(s)
    ensures !s.isAuthenticated && s.token.None? && s.user.None?
  {
    Session(None, None, false)
  }

  /** `setToken(token)`: stores the token; the flag becomes `!!token`, so an empty
      string, `null` or `undefined` leaves the session unauthenticated. */
  function SetToken<U>(s: Session<U>, token: Option<string>): (r: Session<U>)
    ensures Valid(r)
    ensures r.token == token && r.user == s.user
    ensures r.isAuthenticated <==> token.Some? && |token.value| > 0
  {
    s.(token := token, isAuthenticated := Truthy(token))
  }

  /** `setUser(user)`: replaces the user data and nothing else. */
  function SetUser<U>(s: Session<U>, user: Option<U>): (r: Session<U>)
    ensures r.user == user
    ensures r.token == s.token && r.isAuthenticated == s.isAuthenticated
    ensures Valid(s) ==> Valid(r)
  {
    s.(user := user)
  }

  /** `logout()`: back to the initial state, whatever the state was. */
  function Logout<U>(s: Session<U>): (r: Session<U>)
    ensures Valid(r)
    ensures r.token.None? && r.user.None? && !r.isAuthenticated
  {
    Initial()
  }

  lemma LogoutIdempotent<U>(s: Session<U>)
    ensures Logout(Logout(s)) == Logout(s)
    ensures Logout(s) == Initial()
  {
  }

  /** The store's actions, as a caller issues them. */
  datatype Action<U> = SetTokenAction(token: Option<string>) | SetUserAction(user: Option<U>) | LogoutAction

  function Apply<U>(s: Session<U>, a: Action<U>): Session<U> {
    match a
    case SetTokenAction(t) => SetToken(s, t)
    case SetUserAction(u) => SetUser(s, u)
    case LogoutAction => Logout(s)
  }

  /** The state after a sequence of actions, applied left to right. */
  function Run<U>(s: Session<U>, actions: seq<Action<U>>): Session<U>
    decreases |actions|
  {
    if |actions| == 0 then s else Run(Apply(s, actions[0]), actions[1..])
  }

  /** Every state reachable from the initial state satisfies the invariant. */
  lemma {:induction false} RunPreservesValid<U>(s: Session<U>, actions: seq<Action<U>>)
    requires Valid(s)
    ensures Valid(Run(s, actions))
    decreases |actions|
  {
    if |actions| > 0 {
      RunPreservesValid(Apply(s, actions[0]), actions[1..]);
    }
  }

  lemma ReachableValid<U>(actions: seq<Action<U>>)
    ensures Valid(Run(Initial(), actions))
  {
    RunPreservesValid(Initial(), actions);
  }

  /** The user data is only ever changed by `setUser` and `logout`: a run made of
      `setToken` calls alone keeps it. */
  lemma {:induction false} SetTokensKeepUser<U>(s: Session<U>, actions: seq<Action<U>>)
    requires forall i :: 0 <= i < |actions| ==> actions[i].SetTokenAction?
    ensures Run(s, actions).user == s.user
    ensures |actions| > 0 ==> Run(s, actions).token == actions[|actions| - 1].token
    decreases |actions|
  {
    if |actions| > 0 {
      SetTokensKeepUser(Apply(s, actions[0]), actions[1..]);
      if |actions| > 1 {
        assert actions[1..][|actions[1..]| - 1] == actions[|actions| - 1];
      }
    }
  }
}
