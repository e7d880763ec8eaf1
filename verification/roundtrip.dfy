/** Decoding inverts encoding: the reader gives back every well-formed tree
    the writer emits, consuming exactly the bytes written, whatever follows. */
module CodecRoundTrip {
  import opened Bytes
  import opened Results
  import opened Tags
  import opened Codec

  /** `data` holds the bytes `e` starting at `pos`. */
  predicate At(data: seq<byte>, pos: nat, e: seq<byte>)
  {
    pos + |e| <= |data| && data[pos..pos + |e|] == e
  }

  lemma AtSplit(data: seq<byte>, pos: nat, a: seq<byte>, b: seq<byte>)
    requires At(data, pos, a + b)
    ensures At(data, pos, a) && At(data, pos + |a|, b)
  {
    assert data[pos..pos + |a|] == (a + b)[..|a|];
    assert data[pos + |a|..pos + |a| + |b|] == (a + b)[|a|..];
  }

  // ---------------------------------------------------------------------
  // Fields read back
  // ---------------------------------------------------------------------

  lemma ReadUnsignedAt(data: seq<byte>, pos: nat, v: nat, width: nat)
    requires v < Pow256(width) && At(data, pos, EncodeUnsigned(v, width))
    ensures ReadUnsigned(data, pos, width) == Ok((v, pos + width))
  {
  }

  lemma ReadSignedAt(data: seq<byte>, pos: nat, v: int, width: nat)
    requires 1 <= width && InSigned(v, width) && At(data, pos, EncodeSigned(v, width))
    ensures ReadSigned(data, pos, width) == Ok((v, pos + width))
  {
  }

  lemma ReadNameAt(data: seq<byte>, pos: nat, name: seq<byte>)
    requires |name| <= MaxNameLength && At(data, pos, NameField(name))
    ensures ReadName(data, pos) == Ok((name, pos + 2 + |name|))
  {
    AtSplit(data, pos, EncodeUnsigned(|name|, 2), name);
    ReadUnsignedAt(data, pos, |name|, 2);
  }

  lemma ReadListHeaderAt(data: seq<byte>, pos: nat, k: Kind, n: nat)
    requires n <= MaxArrayLength && At(data, pos, ListHeader(k, n))
    ensures ReadListHeader(data, pos) == Ok((k, n, pos + 5))
  {
    ListHeaderFieldsAt(data, pos, KindId(k), n);
    ListHeaderStep(data, pos, k, n);
  }

  lemma ListHeaderFieldsAt(data: seq<byte>, pos: nat, id: nat, n: nat)
    requires n <= MaxArrayLength && id <= 10 && At(data, pos, EncodeSigned(id, 1) + EncodeSigned(n, 4))
    ensures ReadSigned(data, pos, 1) == Ok((id, pos + 1))
    ensures ReadSigned(data, pos + 1, 4) == Ok((n, pos + 5))
  {
    assert InSigned(id, 1) && InSigned(n, 4) by {
      assert Pow256(1) == 256 && Pow256(4) == 0x1_0000_0000;
    }
    hide ReadSigned, ReadUnsigned, ReadBytes, EncodeSigned, Pow256;
    AtSplit(data, pos, EncodeSigned(id, 1), EncodeSigned(n, 4));
    ReadSignedAt(data, pos, id, 1);
    ReadSignedAt(data, pos + 1, n, 4);
  }

  lemma ListHeaderStep(data: seq<byte>, pos: nat, k: Kind, n: nat)
    requires pos + 5 <= |data| && n <= MaxArrayLength
    requires ReadSigned(data, pos, 1) == Ok((KindId(k), pos + 1))
    requires ReadSigned(data, pos + 1, 4) == Ok((n, pos + 5))
    ensures ReadListHeader(data, pos) == Ok((k, n, pos + 5))
  {
    hide ReadSigned;
  }

  // ---------------------------------------------------------------------
  // One-step unfoldings of the reader
  // ---------------------------------------------------------------------

  /** The End byte alone decodes to the End tag, and closes a member list. */
  lemma EndStep(data: seq<byte>, pos: nat)
    requires At(data, pos, [KindId(End)])
    ensures DecodeNamed(data, pos) == Ok((NamedTag([], EndTag), pos + 1))
    ensures DecodeMembers(data, pos) == Ok(([], pos + 1))
  {
    ReadUnsignedAt(data, pos, 0, 1);
  }

  lemma NamedStep(t: NamedTag, data: seq<byte>, pos: nat, end: nat)
    requires pos + 3 + |t.name| <= |data| && !t.payload.EndTag?
    requires ReadUnsigned(data, pos, 1) == Ok((KindId(KindOf(t.payload)), pos + 1))
    requires ReadName(data, pos + 1) == Ok((t.name, pos + 3 + |t.name|))
    requires DecodePayload(KindOf(t.payload), data, pos + 3 + |t.name|) == Ok((t.payload, end))
    ensures DecodeNamed(data, pos) == Ok((t, end))
  {
  }

  lemma ItemsStep(k: Kind, items: seq<Payload>, data: seq<byte>, pos: nat, p1: nat, end: nat)
    requires |items| > 0 && pos <= p1 <= |data|
    requires DecodePayload(k, data, pos) == Ok((items[0], p1))
    requires DecodeItems(k, |items| - 1, data, p1) == Ok((items[1..], end))
    ensures DecodeItems(k, |items|, data, pos) == Ok((items, end))
  {
    assert [items[0]] + items[1..] == items;
  }

  lemma MembersStep(ms: seq<NamedTag>, data: seq<byte>, pos: nat, p1: nat, end: nat)
    requires |ms| > 0 && !ms[0].payload.EndTag? && pos <= p1 <= |data|
    requires DecodeNamed(data, pos) == Ok((ms[0], p1))
    requires DecodeMembers(data, p1) == Ok((ms[1..], end))
    ensures DecodeMembers(data, pos) == Ok((ms, end))
  {
    assert [ms[0]] + ms[1..] == ms;
  }

  // ---------------------------------------------------------------------
  // Round trips of the leaves
  // ---------------------------------------------------------------------

  lemma ScalarRoundTrip(p: Payload, data: seq<byte>, pos: nat)
    requires IsScalar(KindOf(p)) && WellFormed(p) && At(data, pos, EncodeScalar(p))
    ensures DecodeScalar(KindOf(p), data, pos) == Ok((p, pos + |EncodeScalar(p)|))
  {
    match p
    case ByteTag(v) => ReadSignedAt(data, pos, v, 1);
    case ShortTag(v) => ReadSignedAt(data, pos, v, 2);
    case IntTag(v) => ReadSignedAt(data, pos, v, 4);
    case LongTag(v) => ReadSignedAt(data, pos, v, 8);
    case FloatTag(bits) => ReadUnsignedAt(data, pos, bits, 4);
    case DoubleTag(bits) => ReadUnsignedAt(data, pos, bits, 8);
  }

  lemma StringRoundTrip(cs: seq<byte>, data: seq<byte>, pos: nat)
    requires |cs| <= MaxStringLength && At(data, pos, EncodeSigned(|cs|, 2) + cs)
    ensures DecodeByteString(String, data, pos) == Ok((StringTag(cs), pos + 2 + |cs|))
  {
    AtSplit(data, pos, EncodeSigned(|cs|, 2), cs);
    ReadSignedAt(data, pos, |cs|, 2);
  }

  lemma ByteArrayRoundTrip(bs: seq<byte>, data: seq<byte>, pos: nat)
    requires |bs| <= MaxArrayLength && At(data, pos, EncodeSigned(|bs|, 4) + bs)
    ensures DecodeByteString(ByteArray, data, pos) == Ok((ByteArrayTag(bs), pos + 4 + |bs|))
  {
    AtSplit(data, pos, EncodeSigned(|bs|, 4), bs);
    ReadSignedAt(data, pos, |bs|, 4);
  }

  // ---------------------------------------------------------------------
  // Round trips of the recursive shapes
  // ---------------------------------------------------------------------

  /** Where the parts of a named tag's encoding lie. */
  lemma NamedSplit(t: NamedTag, data: seq<byte>, pos: nat)
    requires WellFormedNamed(t) && At(data, pos, EncodeNamed(t))
    ensures At(data, pos, NamedHeader(t))
    ensures At(data, pos + |NamedHeader(t)|, EncodePayload(t.payload))
    ensures |EncodeNamed(t)| == |NamedHeader(t)| + |EncodePayload(t.payload)|
  {
    AtSplit(data, pos, NamedHeader(t), EncodePayload(t.payload));
  }

  /** The header of a non-End tag reads back as its kind and name. */
  lemma NamedHeaderAt(t: NamedTag, data: seq<byte>, pos: nat)
    requires !t.payload.EndTag? && |t.name| <= MaxNameLength && At(data, pos, NamedHeader(t))
    ensures |NamedHeader(t)| == 3 + |t.name|
    ensures ReadUnsigned(data, pos, 1) == Ok((KindId(KindOf(t.payload)), pos + 1))
    ensures ReadName(data, pos + 1) == Ok((t.name, pos + 3 + |t.name|))
  {
    var id := [KindId(KindOf(t.payload))];
    AtSplit(data, pos, id, NameField(t.name));
    ReadUnsignedAt(data, pos, KindId(KindOf(t.payload)), 1);
    ReadNameAt(data, pos + 1, t.name);
  }

  /** The round trip for one named tag, End included. */
  lemma {:induction false} NamedRoundTrip(t: NamedTag, data: seq<byte>, pos: nat)
    requires WellFormedNamed(t) && At(data, pos, EncodeNamed(t))
    ensures DecodeNamed(data, pos) == Ok((t, pos + |EncodeNamed(t)|))
    decreases t, 0
  {
    hide DecodeNamed, DecodePayload, DecodeList, DecodeItems, DecodeMembers;
    NamedSplit(t, data, pos);
    if t.payload.EndTag? {
      EndStep(data, pos);
    } else {
      NamedHeaderAt(t, data, pos);
      PayloadRoundTrip(t.payload, data, pos + 3 + |t.name|);
      NamedStep(t, data, pos, pos + |EncodeNamed(t)|);
    }
  }

  /** The round trip for one payload read back under its own kind. */
  lemma {:induction false} PayloadRoundTrip(p: Payload, data: seq<byte>, pos: nat)
    requires WellFormed(p) && At(data, pos, EncodePayload(p))
    ensures DecodePayload(KindOf(p), data, pos) == Ok((p, pos + |EncodePayload(p)|))
    decreases p, 2
  {
    if p.EndTag? {
    } else if p.ListTag? {
      ListPayloadRoundTrip(p, data, pos);
    } else if p.CompoundTag? {
      CompoundPayloadRoundTrip(p, data, pos);
    } else if p.ByteArrayTag? || p.StringTag? {
      ByteStringPayloadRoundTrip(p, data, pos);
    } else {
      ScalarPayloadRoundTrip(p, data, pos);
    }
  }

  lemma ScalarPayloadRoundTrip(p: Payload, data: seq<byte>, pos: nat)
    requires IsScalar(KindOf(p)) && WellFormed(p) && At(data, pos, EncodePayload(p))
    ensures DecodePayload(KindOf(p), data, pos) == Ok((p, pos + |EncodePayload(p)|))
  {
    assert EncodePayload(p) == EncodeScalar(p);
    hide EncodePayload, EncodeScalar, DecodePayload, DecodeScalar, DecodeList, DecodeItems, DecodeMembers, DecodeNamed;
    ScalarRoundTrip(p, data, pos);
    ScalarStep(data, pos, p, pos + |EncodePayload(p)|);
  }

  lemma ByteStringPayloadRoundTrip(p: Payload, data: seq<byte>, pos: nat)
    requires (p.ByteArrayTag? || p.StringTag?) && WellFormed(p) && At(data, pos, EncodePayload(p))
    ensures DecodePayload(KindOf(p), data, pos) == Ok((p, pos + |EncodePayload(p)|))
  {
    if p.StringTag? {
      StringRoundTrip(p.chars, data, pos);
    } else {
      ByteArrayRoundTrip(p.bytes, data, pos);
    }
  }

  lemma {:induction false} ListPayloadRoundTrip(p: Payload, data: seq<byte>, pos: nat)
    requires p.ListTag? && WellFormed(p) && At(data, pos, EncodePayload(p))
    ensures DecodePayload(KindOf(p), data, pos) == Ok((p, pos + |EncodePayload(p)|))
    decreases p, 1
  {
    hide DecodeNamed, DecodePayload, DecodeList, DecodeItems, DecodeMembers;
    ListRoundTrip(p, data, pos);
    ListPayloadStep(data, pos, p, pos + |EncodePayload(p)|);
  }

  lemma {:induction false} CompoundPayloadRoundTrip(p: Payload, data: seq<byte>, pos: nat)
    requires p.CompoundTag? && WellFormed(p) && At(data, pos, EncodePayload(p))
    ensures DecodePayload(KindOf(p), data, pos) == Ok((p, pos + |EncodePayload(p)|))
    decreases p, 1
  {
    hide DecodeNamed, DecodePayload, DecodeList, DecodeItems, DecodeMembers;
    MembersRoundTrip(p.members, data, pos);
    CompoundStep(p.members, data, pos, pos + |EncodePayload(p)|);
  }

  lemma ScalarStep(data: seq<byte>, pos: nat, p: Payload, end: nat)
    requires pos <= |data| && IsScalar(KindOf(p))
    requires DecodeScalar(KindOf(p), data, pos) == Ok((p, end))
    ensures DecodePayload(KindOf(p), data, pos) == Ok((p, end))
  {
  }

  lemma ListPayloadStep(data: seq<byte>, pos: nat, p: Payload, end: nat)
    requires pos <= |data| && p.ListTag?
    requires DecodeList(data, pos) == Ok((p, end))
    ensures DecodePayload(List, data, pos) == Ok((p, end))
  {
  }

  lemma CompoundStep(ms: seq<NamedTag>, data: seq<byte>, pos: nat, end: nat)
    requires pos <= |data|
    requires DecodeMembers(data, pos) == Ok((ms, end))
    ensures DecodePayload(Compound, data, pos) == Ok((CompoundTag(ms), end))
  {
  }

  lemma ListStep(k: Kind, items: seq<Payload>, data: seq<byte>, pos: nat, end: nat)
    requires pos + 5 <= |data| && |items| <= MaxArrayLength
    requires ReadListHeader(data, pos) == Ok((k, |items|, pos + 5))
    requires DecodeItems(k, |items|, data, pos + 5) == Ok((items, end))
    ensures DecodeList(data, pos) == Ok((ListTag(k, items), end))
  {
  }

  lemma ListSplit(p: Payload, data: seq<byte>, pos: nat)
    requires p.ListTag? && WellFormed(p) && At(data, pos, EncodePayload(p))
    ensures At(data, pos, ListHeader(p.elem, |p.items|))
    ensures At(data, pos + 5, EncodeItems(p.items))
    ensures |EncodePayload(p)| == 5 + |EncodeItems(p.items)|
  {
    AtSplit(data, pos, ListHeader(p.elem, |p.items|), EncodeItems(p.items));
  }

  lemma {:induction false} ListRoundTrip(p: Payload, data: seq<byte>, pos: nat)
    requires p.ListTag? && WellFormed(p) && At(data, pos, EncodePayload(p))
    ensures DecodeList(data, pos) == Ok((p, pos + |EncodePayload(p)|))
    decreases p, 0
  {
    hide DecodeNamed, DecodePayload, DecodeList, DecodeItems, DecodeMembers,
      EncodeNamed, EncodePayload, EncodeItems, EncodeMembers;
    ListSplit(p, data, pos);
    ReadListHeaderAt(data, pos, p.elem, |p.items|);
    ItemsRoundTrip(p.elem, p.items, data, pos + 5);
    ListStep(p.elem, p.items, data, pos, pos + |EncodePayload(p)|);
  }

  /** A non-empty item list is its first item, then the rest. */
  lemma ItemsCons(items: seq<Payload>)
    requires |items| > 0 && forall i | 0 <= i < |items| :: WellFormed(items[i])
    ensures EncodeItems(items) == EncodePayload(items[0]) + EncodeItems(items[1..])
  {
  }

  /** A non-empty member list is its first member, then the rest. */
  lemma MembersCons(ms: seq<NamedTag>)
    requires |ms| > 0 && forall i | 0 <= i < |ms| :: WellFormedNamed(ms[i])
    ensures EncodeMembers(ms) == EncodeNamed(ms[0]) + EncodeMembers(ms[1..])
  {
  }

  lemma ItemsSplit(items: seq<Payload>, data: seq<byte>, pos: nat)
    requires |items| > 0 && forall i | 0 <= i < |items| :: WellFormed(items[i])
    requires At(data, pos, EncodeItems(items))
    ensures At(data, pos, EncodePayload(items[0]))
    ensures At(data, pos + |EncodePayload(items[0])|, EncodeItems(items[1..]))
    ensures |EncodeItems(items)| == |EncodePayload(items[0])| + |EncodeItems(items[1..])|
  {
    hide *;
    ItemsCons(items);
    AtSplit(data, pos, EncodePayload(items[0]), EncodeItems(items[1..]));
  }

  lemma ItemsNilStep(k: Kind, items: seq<Payload>, data: seq<byte>, pos: nat)
    requires |items| == 0 && At(data, pos, EncodeItems(items))
    ensures DecodeItems(k, |items|, data, pos) == Ok((items, pos + |EncodeItems(items)|))
  {
  }

  /** The round trip for the elements of a list, all of kind `k`. */
  lemma {:induction false} ItemsRoundTrip(k: Kind, items: seq<Payload>, data: seq<byte>, pos: nat)
    requires forall i | 0 <= i < |items| :: KindOf(items[i]) == k && WellFormed(items[i])
    requires At(data, pos, EncodeItems(items))
    ensures DecodeItems(k, |items|, data, pos) == Ok((items, pos + |EncodeItems(items)|))
    decreases items, 0
  {
    hide *;
    if |items| == 0 {
      ItemsNilStep(k, items, data, pos);
    } else {
      ItemsSplit(items, data, pos);
      var p1 := pos + |EncodePayload(items[0])|;
      PayloadRoundTrip(items[0], data, pos);
      ItemsRoundTrip(k, items[1..], data, p1);
      ItemsStep(k, items, data, pos, p1, pos + |EncodeItems(items)|);
    }
  }

  lemma MembersSplit(ms: seq<NamedTag>, data: seq<byte>, pos: nat)
    requires |ms| > 0 && forall i | 0 <= i < |ms| :: WellFormedNamed(ms[i])
    requires At(data, pos, EncodeMembers(ms))
    ensures At(data, pos, EncodeNamed(ms[0]))
    ensures At(data, pos + |EncodeNamed(ms[0])|, EncodeMembers(ms[1..]))
    ensures |EncodeMembers(ms)| == |EncodeNamed(ms[0])| + |EncodeMembers(ms[1..])|
  {
    hide *;
    MembersCons(ms);
    AtSplit(data, pos, EncodeNamed(ms[0]), EncodeMembers(ms[1..]));
  }

  /** The round trip for the members of a compound and its closing End byte. */
  lemma {:induction false} MembersRoundTrip(ms: seq<NamedTag>, data: seq<byte>, pos: nat)
    requires forall i | 0 <= i < |ms| :: !ms[i].payload.EndTag? && WellFormedNamed(ms[i])
    requires At(data, pos, EncodeMembers(ms))
    ensures DecodeMembers(data, pos) == Ok((ms, pos + |EncodeMembers(ms)|))
    decreases ms, 1
  {
    if |ms| == 0 {
      EndStep(data, pos);
    } else {
      MembersConsRoundTrip(ms, data, pos);
    }
  }

  lemma {:induction false} MembersConsRoundTrip(ms: seq<NamedTag>, data: seq<byte>, pos: nat)
    requires |ms| > 0
    requires forall i | 0 <= i < |ms| :: !ms[i].payload.EndTag? && WellFormedNamed(ms[i])
    requires At(data, pos, EncodeMembers(ms))
    ensures DecodeMembers(data, pos) == Ok((ms, pos + |EncodeMembers(ms)|))
    decreases ms, 0
  {
    hide DecodeNamed, DecodePayload, DecodeList, DecodeItems, DecodeMembers,
      EncodeNamed, EncodePayload, EncodeItems, EncodeMembers;
    MembersSplit(ms, data, pos);
    var p1 := pos + |EncodeNamed(ms[0])|;
    NamedRoundTrip(ms[0], data, pos);
    MembersRoundTrip(ms[1..], data, p1);
    MembersStep(ms, data, pos, p1, pos + |EncodeMembers(ms)|);
  }

  /** `read_named_tag` over `write_named_tag(t)` gives back `t` and stops
      exactly at the end of the encoding, whatever bytes follow it. */
  lemma {:induction false} RoundTrip(t: NamedTag, rest: seq<byte>)
    requires WellFormedNamed(t)
    ensures DecodeNamed(EncodeNamed(t) + rest, 0) == Ok((t, |EncodeNamed(t)|))
  {
    AtSplit(EncodeNamed(t) + rest, 0, EncodeNamed(t), rest);
    NamedRoundTrip(t, EncodeNamed(t) + rest, 0);
  }
}
