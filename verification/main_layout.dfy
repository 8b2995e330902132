/**
  The logic inside the main layout: the theme button (its successor function,
  icon and label) and the logout button's sequence of effects.
 */
module MainLayout {
  import opened JsCore
  import opened ThemeStore
  import opened AuthStore
  import ProtectedRoute

  /** An independent numbering of the modes; -1 for any other string (what `indexOf` reports). */
  function Rank(theme: string): int {
    if theme == "light" then 0
    else if theme == "dark" then 1
    else if theme == "system" then 2
    else -1
  }

  /** The theme `cycleTheme` moves to: `modes[(modes.indexOf(theme) + 1) % modes.length]`.
      The index is never negative, so JavaScript's `%` and Dafny's agree here. */
  function NextTheme(theme: string): (r: string)
    ensures r in Modes
    ensures Rank(r) == (Rank(theme) + 1) % 3
    ensures theme !in Modes ==> r == Light
  {
    Modes[(IndexOf(Modes, theme) + 1) % |Modes|]
  }

  /** `cycleTheme()` */
  function CycleTheme(s: ThemeState): (r: ThemeState)
    ensures r.theme in Modes
    ensures Rank(r.theme) == (Rank(s.theme) + 1) % 3
  {
    SetTheme(s, NextTheme(s.theme))
  }

  /** light, then dark, then system, then light again. */
  lemma CycleOrder()
    ensures NextTheme(Light) == Dark
    ensures NextTheme(Dark) == System
    ensures NextTheme(System) == Light
  {
  }

  /** Three presses bring a mode back; an unknown value ends at system after three presses. */
  lemma CycleThrice(theme: string)
    ensures theme in Modes ==> NextTheme(NextTheme(NextTheme(theme))) == theme
    ensures theme !in Modes ==> NextTheme(NextTheme(NextTheme(theme))) == System
  {
  }

  datatype Icon = Sun | Moon | Laptop

  /** The property names a plain object literal inherits from `Object.prototype`. */
  const ObjectPrototypeKeys: set<string> := {
    "constructor", "hasOwnProperty", "isPrototypeOf", "propertyIsEnumerable",
    "toLocaleString", "toString", "valueOf", "__proto__",
    "__defineGetter__", "__defineSetter__", "__lookupGetter__", "__lookupSetter__"
  }

  /** What indexing an object literal yields: one of its own icons, a member inherited
      from `Object.prototype` (named by its key), or `undefined`. */
  datatype IconLookup = OwnIcon(icon: Icon) | Inherited(key: string) | Undefined

  /** `{ light: Sun, dark: Moon, system: Laptop }[theme]` */
  function ThemeIcon(theme: string): (r: IconLookup)
    ensures r.OwnIcon? <==> theme in Modes
    ensures theme in Modes ==> r.icon == [Sun, Moon, Laptop][Rank(theme)]
    ensures r.Inherited? <==> theme in ObjectPrototypeKeys
    ensures r.Inherited? ==> r.key == theme
    ensures r.Undefined? <==> theme !in Modes && theme !in ObjectPrototypeKeys
  {
    if theme == Light then OwnIcon(Sun)
    else if theme == Dark then OwnIcon(Moon)
    else if theme == System then OwnIcon(Laptop)
    else if theme in ObjectPrototypeKeys then Inherited(theme)
    else Undefined
  }

  /** The button's caption: `Sistema` for system, otherwise the stored string itself. */
  function ThemeLabel(theme: string): (r: string)
    ensures theme == System ==> r == "Sistema"
    ensures theme != System ==> r == theme
  {
    if theme == System then "Sistema" else theme
  }

  /** The three modes have three different captions. */
  lemma LabelsDistinct()
    ensures ThemeLabel(Light) != ThemeLabel(Dark)
    ensures ThemeLabel(Dark) != ThemeLabel(System)
    ensures ThemeLabel(Light) != ThemeLabel(System)
  {
  }

  /** What the application shows: the session and the current location. */
  datatype View<U> = View(session: Session<U>, location: string)

  /** The effects `handleLogout` performs, in program order. */
  datatype Effect = ClearSession | NavigateTo(path: string)

  const LogoutEffects: seq<Effect> := [ClearSession, NavigateTo(ProtectedRoute.LoginPath)]

  function Perform<U>(v: View<U>, e: Effect): View<U> {
    match e
    case ClearSession => v.(session := Logout(v.session))
    case NavigateTo(path) => v.(location := path)
  }

  /** The views after each effect in turn. */
  function Trace<U>(v: View<U>, effects: seq<Effect>): (r: seq<View<U>>)
    ensures |r| == |effects|
    decreases |effects|
  {
    if |effects| == 0 then []
    else
      var next := Perform(v, effects[0]);
      [next] + Trace(next, effects[1..])
  }

  /** `handleLogout()`: the session is cleared while still on the current page, and only
      then does the location change to the login page, so no step after the first sees
      an authenticated session. */
  function HandleLogout<U>(v: View<U>): (trace: seq<View<U>>)
    ensures |trace| == 2
    ensures trace[0] == View(Logout(v.session), v.location)
    ensures trace[1] == View(Logout(v.session), ProtectedRoute.LoginPath)
    ensures forall i :: 0 <= i < |trace| ==> !trace[i].session.isAuthenticated
  {
    var cleared := Perform(v, ClearSession);
    assert LogoutEffects[1..] == [NavigateTo(ProtectedRoute.LoginPath)];
    assert Trace(cleared, LogoutEffects[1..]) == [Perform(cleared, NavigateTo(ProtectedRoute.LoginPath))];
    Trace(v, LogoutEffects)
  }
}
