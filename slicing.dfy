/** Python's slice expression `s[start:stop]` with step 1, on any sequence:
    negative bounds count from the end and every bound is clamped to the
    sequence, so a slice never fails and is empty when its bounds cross. */
module Slicing {

  /** The index a slice bound `x` denotes in a sequence of length `n`. */
  function Bound(x: int, n: nat): nat
  {
    if x < 0 then (if x + n < 0 then 0 else x + n)
    else if x > n then n
    else x
  }

  /** `s[start:stop]`; an omitted start is written 0 and an omitted stop `|s|`. */
  function Slice<T>(s: seq<T>, start: int, stop: int): seq<T>
  {
    var lo, hi := Bound(start, |s|), Bound(stop, |s|);
    if lo < hi then s[lo..hi] else []
  }
}
