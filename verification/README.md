# Task-manager web client: a Dafny model of its state logic

This project models the non-visual logic of a single-page task-management
client written in React. The model covers:

- the optimistic mutations of the task list (toggle, delete), with rollback to a snapshot when the request fails;
- the load and create handlers;
- the authentication store (token, user, `isAuthenticated`) and its invariant;
- the HTTP client: base-URL derivation, bearer-token header, and the logout forced by HTTP 401;
- the route guard that redirects unauthenticated users to `/login`;
- the theme store, the theme button's cycle, icon and label, and the effect that puts `light` or `dark` on the root element's class list.

Every operation is a pure function over immutable datatypes. The results of I/O
are explicit parameters:

- an HTTP outcome is a `Settled` value, fulfilled or rejected;
- `window.confirm` is a `confirmed` boolean;
- `matchMedia('(prefers-color-scheme: dark)')` is a `prefersDark` boolean;
- `window.location.protocol` is an optional string, `None` when there is no window;
- `VITE_API_URL` is an optional string.

Modules follow the source files:

- `JsCore` (`js_core.dfy`): the JavaScript value semantics the code relies on. These are null/undefined, truthiness, promise outcomes, `Array.indexOf`, and `startsWith`/`endsWith`/`replace`/`slice`.
- `AuthStore`: `src/store/authStore.js`.
- `ApiClient`: `src/api/client.js`.
- `ProtectedRoute`: `src/components/ProtectedRoute.jsx`.
- `ThemeStore`: `src/store/themeStore.js`.
- `MainLayout`: `src/layouts/MainLayout.jsx`.
- `ThemeEffect`: `src/hooks/useThemeEffect.js`.
- `TaskList` and `TasksPage`: `src/pages/Tasks.jsx`. `TaskList` holds the `map` and `filter` applied to the list; `TasksPage` holds the handlers.
- `App`: the components composed. A page request passes through the response interceptor, so a 401 both rolls the page back and ends the session.

Two behaviours of the code worth knowing:

- `setToken` sets `isAuthenticated` to `!!token`, so an empty-string token leaves the session unauthenticated (`AuthStore.SetToken`).
- A failed load keeps the current list. On the first load after mount that list is empty (`TasksPage.MountLoad`).

## Model

| member | source | states |
|---|---|---|
| JsCore.IndexOf | src/layouts/MainLayout.jsx:39 | `indexOf` returns -1 exactly when the value is absent; otherwise it returns the first index holding the value |
| JsCore.ReplaceFirst | src/api/client.js:16 | `replace` with a string pattern that the string starts with swaps that prefix and keeps the rest; with no occurrence the string is unchanged |
| JsCore.Find | src/api/client.js:16 | the search behind `replace`: the first index at or after the start where the pattern occurs, or -1 when it occurs nowhere |
| JsCore.SliceDropLast | src/api/client.js:19 | `slice(0, -k)` for k of at least 1 (the call here is `slice(0, -1)`) drops exactly the last k characters, or everything when the string is shorter |
| AuthStore.Initial | src/store/authStore.js:13-15 | the store starts with no token, no user and unauthenticated, which satisfies the invariant |
| AuthStore.SetToken | src/store/authStore.js:16 | the token is stored and the user kept; authenticated iff the token is a non-empty string; the invariant holds afterwards |
| AuthStore.SetUser | src/store/authStore.js:17 | only the user changes; token and flag are kept, so is the invariant |
| AuthStore.Logout | src/store/authStore.js:18 | from any state: no token, no user, unauthenticated, invariant holds |
| AuthStore.LogoutIdempotent | src/store/authStore.js:18 | logging out twice equals logging out once, and both equal the initial state |
| AuthStore.RunPreservesValid | src/store/authStore.js:13-18 | any sequence of setToken/setUser/logout keeps `isAuthenticated == !!token` |
| AuthStore.ReachableValid | src/store/authStore.js:13-18 | every state reachable from the initial state satisfies the invariant |
| AuthStore.SetTokensKeepUser | src/store/authStore.js:16 | a run of setToken calls never touches the user, and the last token written is the one stored |
| ApiClient.ConfiguredUrl | src/api/client.js:12 | an absent or empty setting gives `http://localhost:8000`; a non-empty one is used verbatim |
| ApiClient.UpgradeScheme | src/api/client.js:15-17 | on an `https:` page a leading `http://` becomes `https://` with the rest unchanged; otherwise the URL is untouched |
| ApiClient.TrimTrailingSlash | src/api/client.js:19 | one trailing `/` is removed (the result plus `/` is the input); without one the URL is unchanged; the result is a prefix of the input |
| ApiClient.BaseUrl | src/api/client.js:11-20 | in plain sequence terms: the configured URL, with `http://` swapped for `https://` on an https page, minus one final character when the configured URL ends with `/` |
| ApiClient.DefaultBase | src/api/client.js:12-19 | with no or an empty setting the base is `http://localhost:8000`, or `https://localhost:8000` on an https page |
| ApiClient.TrimRemovesOneSlash | src/api/client.js:19 | `x//` becomes `x/`: exactly one character is removed |
| ApiClient.NoMixedContent | src/api/client.js:13-19 | on an https page the base URL never starts with `http://`, whatever is configured |
| ApiClient.AttachToken | src/api/client.js:31-36 | `Authorization: Bearer <token>` is set iff the token is truthy; every other header and the URL are unchanged |
| ApiClient.Intercept | src/api/client.js:42-49 | the outcome reaches the caller unchanged (errors still reject); the session is logged out on a 401 error response and untouched otherwise, including errors without a response |
| ApiClient.UnauthorizedLogsOut | src/api/client.js:45-48 | after a 401 the session has no token and is unauthenticated, and the same error is rejected |
| ApiClient.InterceptKeepsValid | src/api/client.js:45-46 | the interceptor keeps the store's invariant |
| ProtectedRoute.Guard | src/components/ProtectedRoute.jsx:10-17 | unauthenticated iff a replacing redirect to `/login`; authenticated iff the nested routes render |
| ProtectedRoute.GuardDependsOnlyOnFlag | src/components/ProtectedRoute.jsx:11 | sessions with the same flag get the same decision whatever their token and user |
| ProtectedRoute.GuardFollowsToken | src/components/ProtectedRoute.jsx:11-17 | on a valid session the guard lets through exactly the holders of a truthy token |
| ProtectedRoute.LogoutRedirects | src/components/ProtectedRoute.jsx:13-15 | after logout from any state the guard redirects to `/login` |
| ThemeStore.Initial | src/store/themeStore.js:12 | the theme starts as `system`, one of the three modes |
| ThemeStore.SetTheme | src/store/themeStore.js:13 | the stored theme is the argument, with no validation |
| ThemeStore.SetThemeIdempotent | src/store/themeStore.js:13 | setting the same theme twice equals setting it once |
| ThemeStore.SetThemeLastWriteWins | src/store/themeStore.js:13 | after setTheme(a) then setTheme(b) the state is as after setTheme(b) |
| MainLayout.NextTheme | src/layouts/MainLayout.jsx:38-39 | the successor is always a mode; its rank is the input's rank plus one modulo 3; an unknown value goes to `light` |
| MainLayout.CycleTheme | src/layouts/MainLayout.jsx:37-41 | the button stores the successor mode of the current theme |
| MainLayout.CycleOrder | src/layouts/MainLayout.jsx:37-40 | light goes to dark, dark to system, system to light |
| MainLayout.CycleThrice | src/layouts/MainLayout.jsx:37-40 | three presses return any mode to itself; an unknown value ends at `system` |
| MainLayout.ThemeIcon | src/layouts/MainLayout.jsx:31-35 | an own icon exactly for the three modes (Sun, Moon, Laptop in mode order); an inherited `Object.prototype` member exactly for its key names; `undefined` for every other string |
| MainLayout.ThemeLabel | src/layouts/MainLayout.jsx:79 | `Sistema` for system, otherwise the stored theme itself |
| MainLayout.LabelsDistinct | src/layouts/MainLayout.jsx:79 | the three modes have three different captions |
| MainLayout.HandleLogout | src/layouts/MainLayout.jsx:20-23 | the session is cleared first, on the current page, and only then does the location become `/login`; no step sees an authenticated session |
| ThemeEffect.RemoveTokens | src/hooks/useThemeEffect.js:15 | the removed tokens vanish; every other class keeps its multiplicity; a token set stays a token set |
| ThemeEffect.AddToken | src/hooks/useThemeEffect.js:18-21 | `add` throws SyntaxError on an empty token and InvalidCharacterError on whitespace, leaving the list unchanged; otherwise the token is present and nothing else changes; a token set stays a token set |
| ThemeEffect.ResolveTheme | src/hooks/useThemeEffect.js:17-22 | `system` resolves to dark iff the system prefers dark, else light; any other theme is used as is |
| ThemeEffect.ApplyTheme | src/hooks/useThemeEffect.js:13-23 | `light` and `dark` are removed before anything is added: the cleaned list is a prefix of the result, and is the whole result if `add` throws; a token set stays a token set |
| ThemeEffect.ExactlyOneScheme | src/hooks/useThemeEffect.js:15-21 | for each of the three modes nothing throws and exactly one of light/dark is present, dark iff requested |
| ThemeEffect.OtherClassesUntouched | src/hooks/useThemeEffect.js:15-21 | the classes other than light/dark keep their occurrences and order |
| ThemeEffect.ApplyThemeIdempotent | src/hooks/useThemeEffect.js:13-23 | running the effect twice with the same inputs gives the same class list and outcome |
| TaskList.ToggleById | src/pages/Tasks.jsx:63 | same length and order; records with another id identical; matching records have `completed` negated and no other field changed |
| TaskList.ToggleTwice | src/pages/Tasks.jsx:63 | toggling the same id twice returns the original list |
| TaskList.ToggleAbsent | src/pages/Tasks.jsx:63 | toggling an id no record carries changes nothing |
| TaskList.RemoveById | src/pages/Tasks.jsx:79 | a record is kept iff its id differs, with its multiplicity; records with the id are gone |
| TaskList.RemoveByIdKeepsOrder | src/pages/Tasks.jsx:79 | the kept records appear in their original order |
| TaskList.RemoveByIdUnique | src/pages/Tasks.jsx:79 | any order-preserving selection with those multiplicities is the filter's result |
| TaskList.RemoveAbsent | src/pages/Tasks.jsx:79 | removing an absent id leaves the list unchanged |
| TasksPage.Initial | src/pages/Tasks.jsx:15-20 | empty list, loading, modal closed, empty inputs, not creating |
| TasksPage.Load | src/pages/Tasks.jsx:24-33 | success replaces the list with the response, failure keeps it, loading is cleared both ways, nothing else changes |
| TasksPage.MountLoad | src/pages/Tasks.jsx:35-37 | the load on mount clears loading and leaves the list empty on failure |
| TasksPage.Toggle | src/pages/Tasks.jsx:60-72 | the PUT carries only `completed`, the negation of the argument's; the optimistic list is the toggled one; success keeps it; failure restores the snapshot |
| TasksPage.ToggleAgreesWithRequest | src/pages/Tasks.jsx:63-66 | for a record shown in the list, its optimistic value equals the value sent to the server |
| TasksPage.ToggleTwiceRestores | src/pages/Tasks.jsx:60-72 | two successful toggles of the same id restore the page state |
| TasksPage.Delete | src/pages/Tasks.jsx:74-87 | declined: no request and no change; confirmed: the DELETE is sent, the optimistic list is filtered, success keeps it, failure restores the snapshot |
| TasksPage.DeleteAbsent | src/pages/Tasks.jsx:78-82 | a confirmed delete of an absent id still sends the request and changes nothing |
| TasksPage.Create | src/pages/Tasks.jsx:39-58 | the payload is `{title, description, completed: false}`; while in flight only `creating` is set; the list is never touched; success clears the inputs, closes the modal and reloads; failure only resets `creating` |
| TasksPage.CreateThenReload | src/pages/Tasks.jsx:48-52 | after a successful create and reload the list is exactly the server's |
| TasksPage.CreateThenFailedReload | src/pages/Tasks.jsx:52 | if the reload after a create fails, the list is what it was before the create |
| App.ToggleViaClient | src/pages/Tasks.jsx:65-71 | a successful PUT keeps the session and the toggled list, with the rest of the page unchanged; a failed one restores the page |
| App.DeleteViaClient | src/pages/Tasks.jsx:81-86 | a successful DELETE keeps the session and filters the list, with the rest of the page unchanged; a failed one restores the page |
| App.ToggleUnauthorized | src/api/client.js:45-48 | a 401 on a toggle restores the page, clears the session and makes the guard redirect |
| App.ToggleOtherFailure | src/api/client.js:45-48 | any other failure of a toggle changes neither the page nor the session |
| App.DeleteUnauthorized | src/api/client.js:45-48 | a 401 on a delete restores the page, clears the session and makes the guard redirect |
| App.ToggleRollbackExample | src/pages/Tasks.jsx:62-70 | one task `{id 1, completed false}`: shown completed while the PUT is in flight, back to not completed when it fails |

## Left out

- JSX rendering, CSS classes, animations, icons as components, and `capitalize` styling. These are presentation only. The icon is modelled only as which of three icons is chosen.
- The axios transport, the msw/vitest test harnesses, and console logging. A request's outcome is a parameter. Request paths are constructors carrying the task id (`UpdateTask(id, …)`) rather than the formatted string `/tasks/${id}`.
- zustand's `persist` middleware and localStorage (`auth-storage`, `theme-storage`). The stores are plain records.
- `window.confirm`, `window.matchMedia`, `window.location.protocol` and `import.meta.env`. Each is a parameter.
- The login and registration forms, the router configuration and bootstrapping. These are network and routing plumbing whose semantics live in libraries.
- React state scheduling, stale closures, and overlapping requests, such as two in-flight toggles on one id. Each handler is one atomic step: snapshot, then optimistic change, then settle.
- The `editingTask` state. It is declared but never used.
- The disabled state of the submit button while `creating` is set, and the `required` title input. Both are enforced by the form, not by the handler.
- `created_at` date formatting. This is locale behaviour.
- JsCore.SliceDropLast: strings are sequences of Unicode characters, while JavaScript counts UTF-16 code units. Dropping one final `/`, the only use here, is the same either way.
- Response bodies other than the task list. The page ignores them.
