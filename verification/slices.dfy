/** Python's slicing, `s[a:b]`, which never fails: out-of-range bounds are
    clamped and negative bounds count from the end. Reading `size` bytes
    at offset `at` of a file behaves like the slice `[at:at+size]`. */
module Slices {
  import opened Bytes

  /** One slice bound on a sequence of length `n`: a negative bound counts
      from the end, then the bound is clamped to [0, n]. */
  function SliceBound(n: nat, i: int): (r: nat)
    ensures r <= n
    ensures 0 <= i <= n ==> r == i
    ensures i > n ==> r == n
    ensures i < 0 ==> r == (if n + i < 0 then 0 else n + i)
  {
    if i < 0 then (if n + i < 0 then 0 else n + i)
    else if i > n then n
    else i
  }

  /** `data[a:b]`. */
  function Slice(data: seq<byte>, a: int, b: int): (r: seq<byte>)
    ensures 0 <= a <= b <= |data| ==> r == data[a..b]
    ensures |r| <= |data|
    ensures 0 <= a <= b ==> |r| <= b - a
  {
    var lo := SliceBound(|data|, a);
    var hi := SliceBound(|data|, b);
    if lo < hi then data[lo..hi] else []
  }

  /** For non-negative bounds the slice is the overlap of [a, b) with the sequence. */
  lemma SliceNonNegative(data: seq<byte>, a: nat, b: nat)
    requires a <= b
    ensures Slice(data, a, b) == if a >= |data| then [] else data[a..if b > |data| then |data| else b]
  {
  }
}
