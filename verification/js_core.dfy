/**
  The handful of JavaScript value semantics the client relies on: values that
  may be `null`/`undefined`, truthiness of an optional string, the outcome of an
  awaited promise, `Array.prototype.indexOf`, and the string methods
  `startsWith`, `endsWith`, `replace` (string pattern) and `slice`.
 */
module JsCore {

  /** A value that may be `null` or `undefined` (`None`). */
  datatype Option<+T> = None | Some(value: T)

  /** How an awaited promise settles: resolved with a value, or rejected with a reason. */
  datatype Settled<+T, +E> = Fulfilled(value: T) | Rejected(reason: E)

  /** `!!s` for a value that is a string, `null` or `undefined`: only a non-empty string is truthy. */
  predicate Truthy(s: Option<string>) {
    s.Some? && s.value != ""
  }

  /** `xs.indexOf(x)` under strict equality: the first index holding `x`, or -1. */
  function IndexOf<T(==)>(xs: seq<T>, x: T): (r: int)
    ensures -1 <= r < |xs|
    ensures r == -1 <==> x !in xs
    ensures 0 <= r ==> xs[r] == x && x !in xs[..r]
  {
    if |xs| == 0 then -1
    else if xs[0] == x then 0
    else
      var k := IndexOf(xs[1..], x);
      if k == -1 then -1 else k + 1
  }

  /** `s.startsWith(p)` */
  predicate StartsWith(s: string, p: string) {
    |p| <= |s| && s[..|p|] == p
  }

  /** `s.endsWith(p)` */
  predicate EndsWith(s: string, p: string) {
    |p| <= |s| && s[|s| - |p|..] == p
  }

  /** Whether `p` occurs in `s` starting at index `i`. */
  predicate OccursAt(s: string, p: string, i: nat) {
    i + |p| <= |s| && s[i..i + |p|] == p
  }

  /** `s.indexOf(p, i)`: the first index at or after `i` where `p` occurs, or -1. */
  function Find(s: string, p: string, i: nat): (r: int)
    requires i <= |s|
    ensures r == -1 || (i <= r <= |s| && OccursAt(s, p, r))
    ensures r == -1 ==> forall j :: i <= j <= |s| ==> !OccursAt(s, p, j)
    ensures r != -1 ==> forall j :: i <= j < r ==> !OccursAt(s, p, j)
    decreases |s| - i
  {
    if OccursAt(s, p, i) then i
    else if i == |s| then -1
    else Find(s, p, i + 1)
  }

  /** `s.replace(p, rep)` with a string pattern: only the first occurrence is replaced.
      (The replacement strings used here contain no `$` patterns.) */
  function ReplaceFirst(s: string, p: string, rep: string): (r: string)
    ensures StartsWith(s, p) ==> r == rep + s[|p|..]
    ensures (forall j :: 0 <= j <= |s| ==> !OccursAt(s, p, j)) ==> r == s
  {
    var i := Find(s, p, 0);
    if i == -1 then s
    else s[..i] + rep + s[i + |p|..]
  }

  /** `s.slice(0, -k)` for a positive `k`: drops the last `k` characters, or everything
      when `s` is shorter. (`slice(0, -0)` is `slice(0, 0)`, the empty string, so `k = 0`
      is not this operation.) */
  function SliceDropLast(s: string, k: nat): (r: string)
    requires k >= 1
    ensures k <= |s| ==> |r| == |s| - k && r + s[|s| - k..] == s
    ensures |s| < k ==> r == ""
  {
    if k <= |s| then s[..|s| - k] else ""
  }
}
