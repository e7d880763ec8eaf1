/** Big-endian fixed-width integers, as packed and unpacked by `struct` with a
    ">" format: unsigned (`B`, `H`, `L`) and two's-complement signed
    (`b`, `h`, `i`, `q`). */
module Bytes {

  type byte = x: int | 0 <= x < 256

  /** 256 to the power n: the number of values an n-byte field holds. */
  function Pow256(n: nat): (r: nat)
    ensures r >= 1
    ensures n >= 1 ==> r >= 256 && r % 2 == 0
  {
    if n == 0 then 1 else 256 * Pow256(n - 1)
  }

  /** The sizes of the 1-, 2-, 3- and 4-byte fields. */
  lemma FieldSizes()
    ensures Pow256(1) == 0x100 && Pow256(2) == 0x1_0000
    ensures Pow256(3) == 0x100_0000 && Pow256(4) == 0x1_0000_0000
  {
    assert Pow256(1) == 256 * Pow256(0);
    assert Pow256(2) == 256 * Pow256(1);
    assert Pow256(3) == 256 * Pow256(2);
    assert Pow256(4) == 256 * Pow256(3);
  }

  /** The unsigned big-endian value of a byte string. */
  function Unsigned(s: seq<byte>): (r: nat)
    ensures r < Pow256(|s|)
  {
    if |s| == 0 then 0 else Unsigned(s[..|s| - 1]) * 256 + s[|s| - 1]
  }

  /** The big-endian `width`-byte representation of `v`. */
  function EncodeUnsigned(v: nat, width: nat): (r: seq<byte>)
    requires v < Pow256(width)
    ensures |r| == width
    ensures Unsigned(r) == v
  {
    if width == 0 then []
    else EncodeUnsigned(v / 256, width - 1) + [v % 256]
  }

  /** Unsigned is injective on strings of one width: the representation is unique. */
  lemma {:induction false} UnsignedInjective(s: seq<byte>, t: seq<byte>)
    requires |s| == |t| && Unsigned(s) == Unsigned(t)
    ensures s == t
  {
    if |s| > 0 {
      var n := |s| - 1;
      LastDigit(Unsigned(s[..n]), s[n], Unsigned(t[..n]), t[n]);
      UnsignedInjective(s[..n], t[..n]);
      assert s == s[..n] + [s[n]];
      assert t == t[..n] + [t[n]];
    }
  }

  /** A base-256 numeral's last digit and the rest are determined by its value. */
  lemma LastDigit(a: int, x: byte, b: int, y: byte)
    requires a * 256 + x == b * 256 + y
    ensures a == b && x == y
  {
    assert (a - b) * 256 == y - x;
  }

  /** Encoding what was decoded gives back the same bytes. */
  lemma {:induction false} EncodeUnsignedOfUnsigned(s: seq<byte>)
    ensures EncodeUnsigned(Unsigned(s), |s|) == s
  {
    UnsignedInjective(EncodeUnsigned(Unsigned(s), |s|), s);
  }

  /** The values a signed `width`-byte field holds: [-2^(8w-1), 2^(8w-1)). */
  predicate InSigned(v: int, width: nat)
  {
    -(Pow256(width) / 2) <= v < Pow256(width) / 2
  }

  /** Two's-complement reading of an unsigned field value. */
  function ToSigned(u: nat, width: nat): (r: int)
    requires 1 <= width && u < Pow256(width)
    ensures InSigned(r, width)
    ensures r >= 0 <==> u < Pow256(width) / 2
    // r and u agree modulo 2^(8*width)
    ensures r == u || r == u - Pow256(width)
  {
    if u < Pow256(width) / 2 then u else u - Pow256(width)
  }

  /** Two's-complement field value of a signed integer. */
  function FromSigned(v: int, width: nat): (r: nat)
    requires InSigned(v, width)
    ensures r < Pow256(width)
    ensures r == v || r == v + Pow256(width)
  {
    if v >= 0 then v else v + Pow256(width)
  }

  lemma SignedRoundTrip(v: int, width: nat)
    requires 1 <= width && InSigned(v, width)
    ensures ToSigned(FromSigned(v, width), width) == v
  {
  }

  lemma UnsignedRoundTrip(u: nat, width: nat)
    requires 1 <= width && u < Pow256(width)
    ensures FromSigned(ToSigned(u, width), width) == u
  {
  }

  /** The big-endian two's-complement `width`-byte representation of `v`. */
  function EncodeSigned(v: int, width: nat): (r: seq<byte>)
    requires 1 <= width && InSigned(v, width)
    ensures |r| == width
    ensures ToSigned(Unsigned(r), width) == v
  {
    SignedRoundTrip(v, width);
    EncodeUnsigned(FromSigned(v, width), width)
  }
}
