/** The tag codec: `TagOutStream` (encoding) and `TagInStream` (decoding)
    over a byte string, with the reader's position made explicit. */
module Codec {
  import opened Bytes
  import opened Results
  import opened Tags

  // ---------------------------------------------------------------------
  // Reading primitives (TagInStream.read_bytes and TagInStream.read)
  // ---------------------------------------------------------------------

  /** `read_bytes`: the next `length` bytes and the position after them.
      Fails when fewer than `length` bytes remain; a negative length is
      rejected as well (see the findings: the Python slice lets it through). */
  function ReadBytes(data: seq<byte>, pos: nat, length: int): (r: Result<(seq<byte>, nat)>)
    requires pos <= |data|
    ensures r.Ok? <==> 0 <= length && pos + length <= |data|
    ensures r.Ok? ==> 0 <= length && r.value.1 == pos + length <= |data| && r.value.0 == data[pos..pos + length]
    ensures length >= 0 && r.Err? ==> r.error == Truncated
  {
    if length < 0 then Err(NegativeLength(length))
    else if pos + length > |data| then Err(Truncated)
    else Ok((data[pos..pos + length], pos + length))
  }

  /** `read` with an unsigned format (`B`, `H`): a big-endian field of `width` bytes. */
  function ReadUnsigned(data: seq<byte>, pos: nat, width: nat): (r: Result<(nat, nat)>)
    requires pos <= |data|
    ensures r.Ok? <==> pos + width <= |data|
    ensures r.Ok? ==> r.value.1 == pos + width && r.value.0 < Pow256(width)
  {
    match ReadBytes(data, pos, width)
    case Err(e) => Err(e)
    case Ok((bs, p)) => Ok((Unsigned(bs), p))
  }

  /** The field read is the encoding of the value read. */
  lemma ReadUnsignedBytes(data: seq<byte>, pos: nat, width: nat)
    requires pos <= |data| && ReadUnsigned(data, pos, width).Ok?
    ensures EncodeUnsigned(ReadUnsigned(data, pos, width).value.0, width) == data[pos..pos + width]
  {
    EncodeUnsignedOfUnsigned(data[pos..pos + width]);
  }

  /** `read` with a signed format (`b`, `h`, `i`, `q`): two's complement. */
  function ReadSigned(data: seq<byte>, pos: nat, width: nat): (r: Result<(int, nat)>)
    requires 1 <= width && pos <= |data|
    ensures r.Ok? <==> pos + width <= |data|
    ensures r.Ok? ==> r.value.1 == pos + width && InSigned(r.value.0, width)
  {
    match ReadUnsigned(data, pos, width)
    case Err(e) => Err(e)
    case Ok((u, p)) => Ok((ToSigned(u, width), p))
  }

  /** The field read is the two's-complement encoding of the value read. */
  lemma ReadSignedBytes(data: seq<byte>, pos: nat, width: nat)
    requires 1 <= width && pos <= |data| && ReadSigned(data, pos, width).Ok?
    ensures EncodeSigned(ReadSigned(data, pos, width).value.0, width) == data[pos..pos + width]
  {
    var u := ReadUnsigned(data, pos, width).value.0;
    ReadUnsignedBytes(data, pos, width);
    UnsignedRoundTrip(u, width);
  }

  /** A name: unsigned 16-bit length (`H`), then that many bytes. */
  function ReadName(data: seq<byte>, pos: nat): (r: Result<(seq<byte>, nat)>)
    requires pos <= |data|
    ensures r.Ok? ==> r.value.1 == pos + 2 + |r.value.0| <= |data| && |r.value.0| <= MaxNameLength
  {
    match ReadUnsigned(data, pos, 2)
    case Err(e) => Err(e)
    case Ok((n, p1)) =>
      FieldSizes();
      match ReadBytes(data, p1, n)
      case Err(e) => Err(e)
      case Ok((name, p2)) => Ok((name, p2))
  }

  /** The bytes a name was read from are the name's field. */
  lemma ReadNameBytes(data: seq<byte>, pos: nat)
    requires pos <= |data| && ReadName(data, pos).Ok?
    ensures data[pos..ReadName(data, pos).value.1] == NameField(ReadName(data, pos).value.0)
  {
    var (name, p2) := ReadName(data, pos).value;
    ReadUnsignedBytes(data, pos, 2);
    assert data[pos..p2] == data[pos..pos + 2] + data[pos + 2..p2];
  }

  // ---------------------------------------------------------------------
  // Decoding (TagInStream.read_named_tag and read_tag)
  // ---------------------------------------------------------------------

  /** `read_named_tag`: a kind byte, then unless it is End a 16-bit name
      length and the name, then the payload. Returns the tag and the
      position after it; always consumes at least the kind byte. */
  function DecodeNamed(data: seq<byte>, pos: nat): (r: Result<(NamedTag, nat)>)
    requires pos <= |data|
    ensures r.Ok? ==> pos < r.value.1 <= |data|
    decreases |data| - pos, 0, 0
  {
    match ReadUnsigned(data, pos, 1)
    case Err(e) => Err(e)
    case Ok((id, p1)) =>
      match KindOfId(id)
      case None => Err(UnknownKind(id))
      case Some(k) =>
        if k == End then Ok((NamedTag([], EndTag), p1))
        else
          match ReadName(data, p1)
          case Err(e) => Err(e)
          case Ok((name, p2)) =>
            match DecodePayload(k, data, p2)
            case Err(e) => Err(e)
            case Ok((payload, p3)) => Ok((NamedTag(name, payload), p3))
  }

  /** `read_tag`: the payload of a tag of kind `k`, with no kind byte and no name. */
  function DecodePayload(k: Kind, data: seq<byte>, pos: nat): (r: Result<(Payload, nat)>)
    requires pos <= |data|
    ensures r.Ok? ==> pos <= r.value.1 <= |data|
    ensures r.Ok? ==> KindOf(r.value.0) == k
    decreases |data| - pos, 2, 0
  {
    hide DecodeScalar, DecodeByteString, DecodeList, DecodeMembers;
    if IsScalar(k) then DecodeScalar(k, data, pos)
    else if k.ByteArray? || k.String? then DecodeByteString(k, data, pos)
    else if k.List? then DecodeList(data, pos)
    else if k.Compound? then
      match DecodeMembers(data, pos)
      case Err(e) => Err(e)
      case Ok((ms, p)) => Ok((CompoundTag(ms), p))
    else Ok((EndTag, pos))
  }

  /** The fixed widths of the `simple_tags` formats. */
  function ScalarWidth(k: Kind): nat
  {
    match k
    case Byte => 1
    case Short => 2
    case Int => 4
    case Long => 8
    case Float => 4
    case Double => 8
    case _ => 0
  }

  predicate IsScalar(k: Kind)
  {
    k.Byte? || k.Short? || k.Int? || k.Long? || k.Float? || k.Double?
  }

  /** A fixed-width scalar: signed integers, or the raw bits of a float. */
  function DecodeScalar(k: Kind, data: seq<byte>, pos: nat): (r: Result<(Payload, nat)>)
    requires pos <= |data| && IsScalar(k)
    ensures r.Ok? <==> pos + ScalarWidth(k) <= |data|
    ensures r.Ok? ==> r.value.1 == pos + ScalarWidth(k) && KindOf(r.value.0) == k
  {
    if k.Float? || k.Double? then
      match ReadUnsigned(data, pos, ScalarWidth(k))
      case Err(e) => Err(e)
      case Ok((bits, p)) => Ok((if k.Float? then FloatTag(bits) else DoubleTag(bits), p))
    else
      match ReadSigned(data, pos, ScalarWidth(k))
      case Err(e) => Err(e)
      case Ok((v, p)) =>
        Ok((match k
            case Byte => ByteTag(v)
            case Short => ShortTag(v)
            case Int => IntTag(v)
            case _ => LongTag(v), p))
  }

  /** A ByteArray (i32 length) or String (i16 length): length prefix, then raw bytes. */
  function DecodeByteString(k: Kind, data: seq<byte>, pos: nat): (r: Result<(Payload, nat)>)
    requires pos <= |data| && (k.ByteArray? || k.String?)
    ensures r.Ok? ==> pos <= r.value.1 <= |data| && KindOf(r.value.0) == k
  {
    var width := if k.String? then 2 else 4;
    match ReadSigned(data, pos, width)
    case Err(e) => Err(e)
    case Ok((n, p1)) =>
      match ReadBytes(data, p1, n)
      case Err(e) => Err(e)
      case Ok((bs, p2)) => Ok((if k.String? then StringTag(bs) else ByteArrayTag(bs), p2))
  }

  /** The head of a list: element kind (a signed byte looked up in
      `tag_types`) and i32 count. A negative count reads as zero elements,
      since `range(count)` is then empty. */
  function ReadListHeader(data: seq<byte>, pos: nat): (r: Result<(Kind, nat, nat)>)
    requires pos <= |data|
    ensures r.Ok? ==> r.value.2 == pos + 5 <= |data| && r.value.1 <= MaxArrayLength
  {
    match ReadSigned(data, pos, 1)
    case Err(e) => Err(e)
    case Ok((id, p1)) =>
      match KindOfId(id)
      case None => Err(UnknownKind(id))
      case Some(elem) =>
        match ReadSigned(data, p1, 4)
        case Err(e) => Err(e)
        case Ok((count, p2)) => Ok((elem, ListCount(count), p2))
  }

  /** The number of elements `range(count)` yields for an i32 count. */
  function ListCount(count: int): (n: nat)
    requires InSigned(count, 4)
    ensures n <= MaxArrayLength
    ensures n == if count < 0 then 0 else count
  {
    FieldSizes();
    if count < 0 then 0 else count
  }

  /** A list: its head, then that many unnamed payloads of the element kind. */
  function DecodeList(data: seq<byte>, pos: nat): (r: Result<(Payload, nat)>)
    requires pos <= |data|
    ensures r.Ok? ==> pos <= r.value.1 <= |data|
    ensures r.Ok? ==> r.value.0.ListTag? && KindOf(r.value.0) == List
    decreases |data| - pos, 1, 0
  {
    hide ReadListHeader, DecodeItems;
    match ReadListHeader(data, pos)
    case Err(e) => Err(e)
    case Ok((elem, n, p1)) =>
      match DecodeItems(elem, n, data, p1)
      case Err(e) => Err(e)
      case Ok((items, p2)) => Ok((ListTag(elem, items), p2))
  }

  /** The `n` unnamed list elements of kind `k`, in order. */
  function DecodeItems(k: Kind, n: nat, data: seq<byte>, pos: nat): (r: Result<(seq<Payload>, nat)>)
    requires pos <= |data|
    ensures r.Ok? ==> pos <= r.value.1 <= |data| && |r.value.0| == n
    ensures r.Ok? ==> forall i | 0 <= i < n :: KindOf(r.value.0[i]) == k
    decreases |data| - pos, 3, n
  {
    if n == 0 then Ok(([], pos))
    else
      match DecodePayload(k, data, pos)
      case Err(e) => Err(e)
      case Ok((item, p1)) =>
        match DecodeItems(k, n - 1, data, p1)
        case Err(e) => Err(e)
        case Ok((rest, p2)) => Ok(([item] + rest, p2))
  }

  /** The members of a compound: named tags up to the first End tag, which
      is consumed but not kept. */
  function DecodeMembers(data: seq<byte>, pos: nat): (r: Result<(seq<NamedTag>, nat)>)
    requires pos <= |data|
    ensures r.Ok? ==> pos < r.value.1 <= |data|
    decreases |data| - pos, 1, 0
  {
    match DecodeNamed(data, pos)
    case Err(e) => Err(e)
    case Ok((t, p1)) =>
      if t.payload.EndTag? then Ok(([], p1))
      else
        match DecodeMembers(data, p1)
        case Err(e) => Err(e)
        case Ok((rest, p2)) => Ok(([t] + rest, p2))
  }

  // ---------------------------------------------------------------------
  // Encoding (TagOutStream.write_named_tag and write_tag)
  // ---------------------------------------------------------------------

  /** `write_named_tag`: the header (kind byte, and unless End the name), then the payload. */
  function EncodeNamed(t: NamedTag): (r: seq<byte>)
    requires WellFormedNamed(t)
    ensures |r| >= 1 && r[0] == KindId(KindOf(t.payload))
    ensures t.payload.EndTag? ==> r == [0]
    decreases t
  {
    NamedHeader(t) + EncodePayload(t.payload)
  }

  /** The kind byte, followed by the name field unless the tag is End. */
  function NamedHeader(t: NamedTag): seq<byte>
    requires |t.name| <= MaxNameLength
  {
    if t.payload.EndTag? then [KindId(End)]
    else [KindId(KindOf(t.payload))] + NameField(t.name)
  }

  /** The name field: unsigned 16-bit length, then the bytes. */
  function NameField(name: seq<byte>): seq<byte>
    requires |name| <= MaxNameLength
  {
    EncodeUnsigned(|name|, 2) + name
  }

  /** The head of a list: element kind as a signed byte, then the i32 count. */
  function ListHeader(k: Kind, n: nat): seq<byte>
    requires n <= MaxArrayLength
  {
    EncodeSigned(KindId(k), 1) + EncodeSigned(n, 4)
  }

  /** `write_tag`: the payload alone. */
  function EncodePayload(p: Payload): (r: seq<byte>)
    requires WellFormed(p)
    ensures r == [] <==> p.EndTag?
    ensures p.ByteArrayTag? ==> |r| == 4 + |p.bytes|
    ensures p.StringTag? ==> |r| == 2 + |p.chars|
    decreases p
  {
    match p
    case EndTag => []
    case ByteArrayTag(bs) => EncodeSigned(|bs|, 4) + bs
    case StringTag(cs) => EncodeSigned(|cs|, 2) + cs
    case ListTag(k, items) => ListHeader(k, |items|) + EncodeItems(items)
    case CompoundTag(ms) => EncodeMembers(ms)
    case _ => EncodeScalar(p)
  }

  /** A fixed-width scalar, big-endian. */
  function EncodeScalar(p: Payload): (r: seq<byte>)
    requires IsScalar(KindOf(p)) && WellFormed(p)
    ensures |r| == ScalarWidth(KindOf(p))
  {
    hide EncodeSigned, EncodeUnsigned, Pow256, InSigned;
    match p
    case ByteTag(v) => EncodeSigned(v, 1)
    case ShortTag(v) => EncodeSigned(v, 2)
    case IntTag(v) => EncodeSigned(v, 4)
    case LongTag(v) => EncodeSigned(v, 8)
    case FloatTag(bits) => EncodeUnsigned(bits, 4)
    case DoubleTag(bits) => EncodeUnsigned(bits, 8)
  }

  /** The list elements, each as a bare payload. */
  function EncodeItems(items: seq<Payload>): (r: seq<byte>)
    requires forall i | 0 <= i < |items| :: WellFormed(items[i])
    ensures r == [] <==> forall i | 0 <= i < |items| :: items[i].EndTag?
    decreases items
  {
    if |items| == 0 then []
    else EncodePayload(items[0]) + EncodeItems(items[1..])
  }

  /** The compound members, each as a named tag, then the End tag's single byte. */
  function EncodeMembers(ms: seq<NamedTag>): (r: seq<byte>)
    requires forall i | 0 <= i < |ms| :: WellFormedNamed(ms[i])
    ensures |r| >= 1 && r[|r| - 1] == 0
    decreases ms
  {
    if |ms| == 0 then [KindId(End)]  // a bare End tag: kind byte only
    else EncodeNamed(ms[0]) + EncodeMembers(ms[1..])
  }
}
