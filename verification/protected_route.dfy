/**
  The route guard wrapped around every authenticated page: it either redirects
  to the login page (replacing the history entry) or renders the nested routes.
 */
module ProtectedRoute {
  import opened AuthStore

  const LoginPath: string := "/login"

  /** What the guard renders: `<Navigate to=... replace={...} />` or `<Outlet />`. */
  datatype Element = Navigate(to: string, replace: bool) | Outlet

  /** The guard reads only the `isAuthenticated` flag of the store. */
  function Guard<U>(s: Session<U>): (e: Element)
    ensures !s.isAuthenticated <==> e == Navigate(LoginPath, true)
    ensures s.isAuthenticated <==> e == Outlet
  {
    if !s.isAuthenticated then Navigate(LoginPath, true) else Outlet
  }

  /** Two sessions that agree on the flag are guarded alike, whatever their token or user. */
  lemma GuardDependsOnlyOnFlag<U>(s1: Session<U>, s2: Session<U>)
    requires s1.isAuthenticated == s2.isAuthenticated
    ensures Guard(s1) == Guard(s2)
  {
  }

  /** On a valid session the guard lets through exactly the holders of a truthy token. */
  lemma GuardFollowsToken<U>(s: Session<U>)
    requires Valid(s)
    ensures Guard(s) == Outlet <==> JsCore.Truthy(s.token)
  {
  }

  /** After a logout, from any state, the guard redirects to the login page. */
  lemma LogoutRedirects<U>(s: Session<U>)
    ensures Guard(Logout(s)) == Navigate(LoginPath, true)
  {
  }
}
