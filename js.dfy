/** The few pieces of JavaScript runtime behaviour the front end relies on. */
module Js {

  /** A value that may be `null` (or `undefined`). */
  datatype Option<+T> = None | Some(value: T)

  /** `Math.min` of two non-negative integers. */
  function Min(a: nat, b: nat): (r: nat)
    ensures r <= a && r <= b && (r == a || r == b)
  {
    if a <= b then a else b
  }

  /** `Math.max` of two non-negative integers. */
  function Max(a: nat, b: nat): (r: nat)
    ensures r >= a && r >= b && (r == a || r == b)
  {
    if a <= b then b else a
  }

  /** `xs.slice(lo, hi)` for non-negative bounds: both bounds are clamped
      to the length, and the result is empty when `hi` does not exceed `lo`. */
  function Slice<X>(xs: seq<X>, lo: nat, hi: nat): (r: seq<X>)
    ensures lo <= hi <= |xs| ==> r == xs[lo..hi]
    ensures hi <= lo ==> r == []
    ensures lo <= |xs| <= hi ==> r == xs[lo..]
    ensures |xs| <= lo ==> r == []
    ensures |r| <= |xs|
  {
    var a := if lo < |xs| then lo else |xs|;
    var b := if hi < |xs| then hi else |xs|;
    if a <= b then xs[a..b] else []
  }
}
