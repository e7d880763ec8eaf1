/** `TagInStream.read_bytes` as the source writes it (world.py:100-105),
    kept apart from the codec to exhibit one defect: the length check
    compares the slice against the requested length, which a negative
    length always passes, and the position then moves backwards. The codec
    (module Codec) rejects negative lengths instead. */
module StreamAsWritten {
  import opened Bytes
  import opened Results
  import opened Slices
  import Codec

  /** `read_bytes(length)` as written: take the slice `data[p:p+length]`,
      advance `p` by `length`, and fail only if the slice is shorter than
      `length`. The position is a Python integer and may become negative. */
  function ReadBytes(data: seq<byte>, p: int, length: int): (r: Result<(seq<byte>, int)>)
    ensures r.Ok? ==> r.value.1 - p == length && |r.value.0| >= length
    ensures r.Err? ==> r.error == Truncated
  {
    var result := Slice(data, p, p + length);
    if |result| < length then Err(Truncated) else Ok((result, p + length))
  }

  /** On the inputs the codec accepts the two readers agree, result for result. */
  lemma AgreesOnNonNegativeLengths(data: seq<byte>, p: nat, length: int)
    requires p <= |data| && 0 <= length
    ensures ReadBytes(data, p, length).Ok? <==> Codec.ReadBytes(data, p, length).Ok?
    ensures ReadBytes(data, p, length).Ok? ==>
      ReadBytes(data, p, length).value == (Codec.ReadBytes(data, p, length).value.0, Codec.ReadBytes(data, p, length).value.1 as int)
  {
  }

  /** A negative length is accepted and moves the position back by |length|. */
  lemma NegativeLengthRewinds(data: seq<byte>, p: int, length: int)
    requires length < 0
    ensures ReadBytes(data, p, length).Ok?
    ensures ReadBytes(data, p, length).value.1 < p
  {
  }

  /** `read("B")` / `read("H")` as written: `read_bytes` of the field width,
      unpacked big-endian. */
  function ReadUnsigned(data: seq<byte>, p: int, width: nat): (r: Result<(nat, int)>)
    ensures r.Ok? ==> r.value.1 == p + width && r.value.0 < Pow256(width)
  {
    match ReadBytes(data, p, width)
    case Err(e) => Err(e)
    case Ok((bs, p1)) =>
      // the slice is never longer than requested: exactly `width` bytes
      assert |bs| == width by {
        var lo := SliceBound(|data|, p);
        var hi := SliceBound(|data|, p + width);
        assert hi <= lo + width by {
          if p < 0 && |data| + p < 0 {
            assert lo == 0;
          }
        }
      }
      Ok((Unsigned(bs), p1))
  }

  function ReadSigned(data: seq<byte>, p: int, width: nat): (r: Result<(int, int)>)
    requires 1 <= width
    ensures r.Ok? ==> r.value.1 == p + width && InSigned(r.value.0, width)
  {
    match ReadUnsigned(data, p, width)
    case Err(e) => Err(e)
    case Ok((u, p1)) => Ok((ToSigned(u, width), p1))
  }

  /** From a non-negative position a one-byte read gives the byte there. */
  lemma KindByteAt(data: seq<byte>, p: int)
    requires ReadUnsigned(data, p, 1).Ok?
    ensures 0 <= p ==> p < |data| && ReadUnsigned(data, p, 1).value.0 == data[p]
  {
    if 0 <= p {
      var bs := ReadBytes(data, p, 1).value.0;
      assert bs == [data[p]];
      assert Unsigned(bs) == Unsigned(bs[..0]) * 256 + bs[0];
    }
  }

  /** `read_named_tag` as written, for a tag whose kind byte is 8 (String):
      the kind byte, the name, then `read_tag`'s length (`h`) and the bytes
      (world.py:116-117, world.py:138-147). Returns the kind id read and the
      position the stream is left at. */
  function ReadStringMember(data: seq<byte>, p: int): (r: Result<(nat, int)>)
    ensures r.Ok? && 0 <= p ==> p < |data| && r.value.0 == data[p]
  {
    match ReadUnsigned(data, p, 1)
    case Err(e) => Err(e)
    case Ok((kind, p1)) =>
      KindByteAt(data, p);
      match ReadUnsigned(data, p1, 2)
      case Err(e) => Err(e)
      case Ok((nameLength, p2)) =>
        match ReadBytes(data, p2, nameLength)
        case Err(e) => Err(e)
        case Ok((_, p3)) =>
          match ReadSigned(data, p3, 2)
          case Err(e) => Err(e)
          case Ok((length, p4)) =>
            match ReadBytes(data, p4, length)
            case Err(e) => Err(e)
            case Ok((_, p5)) => Ok((kind, p5))
  }

  /** A nameless compound whose first member is a String with length -5
      (bytes FF FB). */
  const StallingInput: seq<byte> := [10, 0, 0, 8, 0, 0, 0xFF, 0xFB]

  /** The member starting at offset 3 reads as a String (kind 8, not End)
      and leaves the stream back at offset 3: the compound loop of
      `read_tag` (world.py:125-130) reads the same member again, forever.
      The literals arrive as parameters fixed by `requires`, which keeps the
      proof obligation small for the solver. */
  lemma StringMemberStalls(data: seq<byte>)
    requires data == StallingInput
    ensures ReadStringMember(data, 3) == Ok((8, 3))
  {
    assert data[3..4] == [8];
    assert Unsigned([8]) == 8 by { assert [8][..0] == []; }
    assert data[4..6] == [0, 0];
    assert Unsigned([0, 0]) == 0 by { assert [0, 0][..1] == [0]; assert [0][..0] == []; }
    assert data[6..8] == [0xFF, 0xFB];
    assert Unsigned([0xFF, 0xFB]) == 65531 by { assert [0xFF, 0xFB][..1] == [0xFF]; assert [0xFF][..0] == []; }
    assert Pow256(2) == 65536;
    assert ToSigned(65531, 2) == -5;
    assert ReadUnsigned(data, 3, 1) == Ok((8, 4));
    assert ReadUnsigned(data, 4, 2) == Ok((0, 6));
    assert ReadBytes(data, 6, 0) == Ok(([], 6));
    assert ReadSigned(data, 6, 2) == Ok((-5, 8));
    assert Slice(data, 8, 3) == [];
    assert ReadBytes(data, 8, -5) == Ok(([], 3));
  }
}
