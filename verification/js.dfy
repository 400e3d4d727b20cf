/**
 * The pieces of JavaScript semantics the UI code depends on: truthiness,
 * `Math.round`, `String.prototype.substring` and the last element of
 * `split('/')`.
 */
module Js {

  /** A JavaScript value whose object payloads have type T. */
  datatype Value<T> = Undefined | Null | Bool(b: bool) | Number(n: real) | NaN | Str(s: string) | Object(obj: T)

  /** `if (v)`: undefined, null, false, 0, NaN and "" are falsy; everything else is truthy. */
  predicate Truthy<T>(v: Value<T>) {
    match v
    case Undefined => false
    case Null => false
    case NaN => false
    case Bool(b) => b
    case Number(n) => n != 0.0
    case Str(s) => s != ""
    case Object(_) => true
  }

  /** `Math.round(x)`: the nearest integer, halves rounded towards +infinity. */
  function MathRound(x: real): int {
    (x + 0.5).Floor
  }

  /** `Math.round(num / den)` computed on integers. */
  function RoundRatio(num: int, den: int): (r: int)
    requires den > 0
    ensures 2 * den * r <= 2 * num + den < 2 * den * (r + 1)
  {
    (2 * num + den) / (2 * den)
  }

  /** The integer form agrees with `Math.round` applied to the exact quotient. */
  lemma RoundRatioIsMathRound(num: int, den: int)
    requires den > 0
    ensures RoundRatio(num, den) == MathRound(num as real / den as real)
  {
    var r := RoundRatio(num, den);
    var x := num as real / den as real + 0.5;
    assert x == (2 * num + den) as real / (2 * den) as real;
    assert (2 * den) as real * r as real <= (2 * num + den) as real;
    assert r as real <= x;
    assert x < (r + 1) as real;
  }

  function Clamp(i: int, n: nat): (c: nat)
    ensures c <= n
  {
    if i < 0 then 0 else if i > n then n else i
  }

  /**
   * `s.substring(start, end)`: both indices are clamped to [0, |s|] and
   * swapped when start exceeds end.
   */
  function Substring(s: string, start: int, end: int): (r: string)
    ensures |r| <= |s|
  {
    var a, b := Clamp(start, |s|), Clamp(end, |s|);
    if a <= b then s[a..b] else s[b..a]
  }

  /** `s.substring(0, head) + "..." + s.substring(s.length - tail)`: the label the UI shows for an address or hash. */
  function Abbreviate(s: string, head: nat, tail: nat): string {
    Substring(s, 0, head) + "..." + Substring(s, |s| - tail, |s|)
  }

  /** For a string at least as long as both parts, the label is its first head and last tail characters. */
  lemma AbbreviateLong(s: string, head: nat, tail: nat)
    requires head <= |s| && tail <= |s|
    ensures Abbreviate(s, head, tail) == s[..head] + "..." + s[|s| - tail..]
    ensures |Abbreviate(s, head, tail)| == head + 3 + tail
  {
  }

  /** A string no longer than the tail shows in full after the dots. */
  lemma AbbreviateShort(s: string, head: nat, tail: nat)
    requires |s| <= tail
    ensures Abbreviate(s, head, tail) == (if head <= |s| then s[..head] else s) + "..." + s
  {
  }

  /**
   * The last element of `s.split('/')`: the longest suffix of s without a '/'.
   */
  function LastSegment(s: string): (r: string)
    ensures '/' !in r
    ensures |r| <= |s| && r == s[|s| - |r|..]
    ensures |r| < |s| ==> s[|s| - |r| - 1] == '/'
  {
    s[LastSlash(s) + 1..]
  }

  /** The index of the last '/' in s, or -1 when there is none. */
  function LastSlash(s: string): (i: int)
    ensures -1 <= i < |s|
    ensures 0 <= i ==> s[i] == '/'
    ensures forall j :: i < j < |s| ==> s[j] != '/'
    decreases |s|
  {
    if |s| == 0 then -1
    else if s[|s| - 1] == '/' then |s| - 1
    else LastSlash(s[..|s| - 1])
  }

  /** s ends with "/" + w exactly when w is a proper suffix preceded by a '/'. */
  lemma EndsWithSlash(s: string, w: string)
    requires |s| > |w|
    ensures s[|s| - |w| - 1..] == "/" + w <==> s[|s| - |w|..] == w && s[|s| - |w| - 1] == '/'
  {
    assert s[|s| - |w| - 1..] == [s[|s| - |w| - 1]] + s[|s| - |w|..];
  }

  /** The last segment equals w exactly when s is w or ends with "/" + w, for a '/'-free w. */
  lemma LastSegmentIs(s: string, w: string)
    requires '/' !in w
    ensures LastSegment(s) == w <==> s == w || (|s| > |w| && s[|s| - |w| - 1..] == "/" + w)
  {
    SuffixIs(s, LastSegment(s), w);
  }

  /**
   * A '/'-free suffix r that starts s or follows a '/' equals a '/'-free w
   * exactly when s is w or ends with "/" + w.
   */
  lemma SuffixIs(s: string, r: string, w: string)
    requires '/' !in r && '/' !in w
    requires |r| <= |s| && r == s[|s| - |r|..]
    requires |r| < |s| ==> s[|s| - |r| - 1] == '/'
    ensures r == w <==> s == w || (|s| > |w| && s[|s| - |w| - 1..] == "/" + w)
  {
    if |s| > |w| {
      EndsWithSlash(s, w);
    }

  }
}
