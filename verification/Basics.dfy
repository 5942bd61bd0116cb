/** Small value types shared by every component. */
module Basics {

  /** A value that may be absent (a null pointer, an empty `std::function`). */
  datatype Option<+T> = None | Some(value: T)

  /** The two kinds of IO events. */
  datatype Ev = READ | WRITE

  function Min(a: int, b: int): int { if a <= b then a else b }

  function Max(a: int, b: int): int { if a >= b then a else b }

  /** From the last element to the first. */
  function Backwards<T>(s: seq<T>): (r: seq<T>)
    ensures |r| == |s| && forall i :: 0 <= i < |s| ==> r[i] == s[|s| - 1 - i]
  {
    seq(|s|, i requires 0 <= i < |s| => s[|s| - 1 - i])
  }
}
