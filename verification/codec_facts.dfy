/** What the reader guarantees beyond the round trip: its two failure
    modes, the End framing of compounds, and that every tree it returns is
    one the writer can emit. */
module CodecFacts {
  import opened Bytes
  import opened Results
  import opened Tags
  import opened Codec
  import opened CodecRoundTrip

  // ---------------------------------------------------------------------
  // Failure modes: truncation and unknown kind ids
  // ---------------------------------------------------------------------

  /** Nothing left to read: the kind byte itself is missing. */
  lemma EmptyIsTruncated(data: seq<byte>)
    ensures DecodeNamed(data, |data|) == Err(Truncated)
  {
  }

  /** A kind byte above 10 fails the `tag_types` lookup of `read_named_tag`. */
  lemma UnknownNamedKind(data: seq<byte>, pos: nat)
    requires pos < |data| && data[pos] > 10
    ensures DecodeNamed(data, pos) == Err(UnknownKind(data[pos]))
  {
    assert data[pos..pos + 1] == [data[pos]];
    ReadUnsignedAt(data, pos, data[pos], 1);
  }

  /** A list element kind outside 0..10 (the byte is read signed) fails the
      same lookup. */
  lemma UnknownListKind(data: seq<byte>, pos: nat)
    requires pos < |data| && !(0 <= ToSigned(data[pos], 1) <= 10)
    ensures DecodePayload(List, data, pos) == Err(UnknownKind(ToSigned(data[pos], 1)))
  {
    ListPayloadParts(data, pos);
    hide DecodeNamed, DecodePayload, DecodeList, DecodeItems, DecodeMembers;
    ListHeaderUnknownKind(data, pos);
    ListHeaderFailure(data, pos);
  }

  lemma ListHeaderUnknownKind(data: seq<byte>, pos: nat)
    requires pos < |data| && !(0 <= ToSigned(data[pos], 1) <= 10)
    ensures ReadListHeader(data, pos) == Err(UnknownKind(ToSigned(data[pos], 1)))
  {
    assert data[pos..pos + 1] == [data[pos]];
    ReadUnsignedAt(data, pos, data[pos], 1);
  }

  /** A list whose head cannot be read fails with the head's error. */
  lemma ListHeaderFailure(data: seq<byte>, pos: nat)
    requires pos <= |data| && ReadListHeader(data, pos).Err?
    ensures DecodeList(data, pos) == Err(ReadListHeader(data, pos).error)
  {
  }

  /** A list head with a negative count gives an empty list of the element
      kind, five bytes long: `range(count)` is then empty. */
  lemma NegativeCountIsEmpty(data: seq<byte>, pos: nat, k: Kind)
    requires pos + 5 <= |data|
    requires ReadSigned(data, pos, 1).value.0 == KindId(k)
    requires ReadSigned(data, pos + 1, 4).value.0 < 0
    ensures DecodeList(data, pos) == Ok((ListTag(k, []), pos + 5))
  {
    assert ReadListHeader(data, pos) == Ok((k, 0, pos + 5));
    assert DecodeItems(k, 0, data, pos + 5) == Ok(([], pos + 5));
  }

  // ---------------------------------------------------------------------
  // End framing
  // ---------------------------------------------------------------------

  /** An End tag is written as the single byte 0: no name, no payload. */
  lemma EndEncoding()
    ensures EncodeNamed(NamedTag([], EndTag)) == [0]
    ensures EncodePayload(CompoundTag([])) == [0]
  {
  }

  /** A named tag other than End starts with its kind byte, then the name
      field: the name's length as an unsigned 16-bit big-endian integer,
      then the name's bytes. */
  lemma NamedHeaderLayout(t: NamedTag)
    requires WellFormedNamed(t) && !t.payload.EndTag?
    ensures var r := EncodeNamed(t);
      && |r| >= 3 + |t.name|
      && Unsigned(r[1..3]) == |t.name|
      && r[3..3 + |t.name|] == t.name
  {
    hide EncodePayload, EncodeUnsigned;
    var r := EncodeNamed(t);
    var f := EncodeUnsigned(|t.name|, 2);
    var h := [KindId(KindOf(t.payload))] + f + t.name;
    assert NamedHeader(t) == h;
    assert r == h + EncodePayload(t.payload);
    assert r[1..3] == h[1..3] == f;
    assert r[3..3 + |t.name|] == h[3..] == t.name;
  }

  /** Reading a 0 byte gives the nameless End tag after one byte, and ends
      a member list there without adding anything to it. */
  lemma EndDecoding(data: seq<byte>, pos: nat)
    requires pos < |data| && data[pos] == 0
    ensures DecodeNamed(data, pos) == Ok((NamedTag([], EndTag), pos + 1))
    ensures DecodeMembers(data, pos) == Ok(([], pos + 1))
  {
    assert data[pos..pos + 1] == [KindId(End)];
    EndStep(data, pos);
  }

  /** A decoded End tag is exactly the byte 0, and carries no name. */
  lemma NamedEndByte(data: seq<byte>, pos: nat)
    requires pos <= |data| && DecodeNamed(data, pos).Ok? && DecodeNamed(data, pos).value.0.payload.EndTag?
    ensures pos < |data| && data[pos] == 0 && DecodeNamed(data, pos).value.1 == pos + 1
    ensures DecodeNamed(data, pos).value.0.name == []
  {
    var id := ReadUnsigned(data, pos, 1).value.0;
    // a kind other than End would give a payload of that kind
    assert KindOfId(id) == Some(End);
    KindIdOfKindOfId(id);
    ReadUnsignedBytes(data, pos, 1);
    assert EncodeUnsigned(id, 1) == EncodeUnsigned(id / 256, 0) + [id % 256];
  }

  /** The last byte a member list consumes is the 0 of its End tag. */
  lemma {:induction false} MembersEndWithZero(data: seq<byte>, pos: nat)
    requires pos <= |data| && DecodeMembers(data, pos).Ok?
    ensures data[DecodeMembers(data, pos).value.1 - 1] == 0
    decreases |data| - pos
  {
    MembersParts(data, pos);
    var (t, p1) := DecodeNamed(data, pos).value;
    if t.payload.EndTag? {
      NamedEndByte(data, pos);
      assert DecodeMembers(data, pos).value.1 == p1;
    } else {
      MembersEndWithZero(data, p1);
      assert DecodeMembers(data, pos).value.1 == DecodeMembers(data, p1).value.1;
    }
  }

  /** A compound is its members' encodings, in order, then one 0 byte. */
  lemma {:induction false} CompoundFraming(ms: seq<NamedTag>)
    requires forall i | 0 <= i < |ms| :: WellFormedNamed(ms[i])
    ensures EncodeMembers(ms) == MembersConcat(ms) + [0]
  {
    if |ms| > 0 {
      CompoundFraming(ms[1..]);
      assert EncodeMembers(ms) == EncodeNamed(ms[0]) + EncodeMembers(ms[1..]);
    }
  }

  /** The members' named-tag encodings laid end to end, without a terminator. */
  function MembersConcat(ms: seq<NamedTag>): seq<byte>
    requires forall i | 0 <= i < |ms| :: WellFormedNamed(ms[i])
  {
    if |ms| == 0 then [] else EncodeNamed(ms[0]) + MembersConcat(ms[1..])
  }

  // ---------------------------------------------------------------------
  // Every decoded tree is well formed
  // ---------------------------------------------------------------------

  /** One level of each reader, taken apart: what a successful read is made of. */
  lemma ListPayloadParts(data: seq<byte>, pos: nat)
    requires pos <= |data|
    ensures DecodePayload(List, data, pos) == DecodeList(data, pos)
  {
  }

  lemma CompoundPayloadParts(data: seq<byte>, pos: nat)
    requires pos <= |data| && DecodePayload(Compound, data, pos).Ok?
    ensures DecodeMembers(data, pos).Ok?
    ensures DecodePayload(Compound, data, pos).value.0 == CompoundTag(DecodeMembers(data, pos).value.0)
  {
  }

  /** Scalars, strings and byte arrays read back within the writer's ranges. */
  lemma LeafPayloadWellFormed(k: Kind, data: seq<byte>, pos: nat)
    requires pos <= |data| && k != List && k != Compound && DecodePayload(k, data, pos).Ok?
    ensures WellFormed(DecodePayload(k, data, pos).value.0)
  {
    FieldSizes();
    if IsScalar(k) {
      assert DecodePayload(k, data, pos) == DecodeScalar(k, data, pos);
    } else if k.ByteArray? || k.String? {
      assert DecodePayload(k, data, pos) == DecodeByteString(k, data, pos);
    }
  }

  lemma ListParts(data: seq<byte>, pos: nat)
    requires pos <= |data| && DecodeList(data, pos).Ok?
    ensures ReadListHeader(data, pos).Ok?
    ensures var (elem, n, p1) := ReadListHeader(data, pos).value;
      && DecodeItems(elem, n, data, p1).Ok?
      && DecodeList(data, pos).value.0 == ListTag(elem, DecodeItems(elem, n, data, p1).value.0)
  {
  }

  lemma ItemsParts(k: Kind, n: nat, data: seq<byte>, pos: nat)
    requires pos <= |data| && n > 0 && DecodeItems(k, n, data, pos).Ok?
    ensures DecodePayload(k, data, pos).Ok?
    ensures var (item, p1) := DecodePayload(k, data, pos).value;
      && DecodeItems(k, n - 1, data, p1).Ok?
      && DecodeItems(k, n, data, pos).value.0 == [item] + DecodeItems(k, n - 1, data, p1).value.0
  {
  }

  lemma MembersParts(data: seq<byte>, pos: nat)
    requires pos <= |data| && DecodeMembers(data, pos).Ok?
    ensures DecodeNamed(data, pos).Ok?
    ensures var (t, p1) := DecodeNamed(data, pos).value;
      if t.payload.EndTag? then DecodeMembers(data, pos).value.0 == []
      else
        && DecodeMembers(data, p1).Ok?
        && DecodeMembers(data, pos).value.0 == [t] + DecodeMembers(data, p1).value.0
  {
  }

  /** Whatever `read_named_tag` returns is a tree `write_named_tag` accepts. */
  lemma {:induction false} DecodedNamedWellFormed(data: seq<byte>, pos: nat)
    requires pos <= |data|
    ensures DecodeNamed(data, pos).Ok? ==> WellFormedNamed(DecodeNamed(data, pos).value.0)
    decreases |data| - pos, 0, 0
  {
    var r := DecodeNamed(data, pos);
    if r.Ok? {
      var (id, p1) := ReadUnsigned(data, pos, 1).value;
      var k := KindOfId(id).value;
      if k != End {
        var (name, p2) := ReadName(data, p1).value;
        DecodedPayloadWellFormed(k, data, p2);
        NamedParts(data, pos, k, name, p2);
      }
    }
  }

  /** How a successful read of a non-End named tag is assembled. */
  lemma NamedParts(data: seq<byte>, pos: nat, k: Kind, name: seq<byte>, p2: nat)
    requires pos < |data| && k != End && p2 <= |data|
    requires DecodeNamed(data, pos).Ok?
    requires KindOfId(ReadUnsigned(data, pos, 1).value.0) == Some(k)
    requires ReadName(data, pos + 1) == Ok((name, p2))
    requires DecodePayload(k, data, p2).Ok? ==> WellFormed(DecodePayload(k, data, p2).value.0)
    ensures WellFormedNamed(DecodeNamed(data, pos).value.0)
  {
  }

  lemma {:induction false} DecodedPayloadWellFormed(k: Kind, data: seq<byte>, pos: nat)
    requires pos <= |data|
    ensures DecodePayload(k, data, pos).Ok? ==> WellFormed(DecodePayload(k, data, pos).value.0)
    decreases |data| - pos, 2, 0
  {
    if DecodePayload(k, data, pos).Ok? {
      if k == List {
        ListPayloadParts(data, pos);
        hide DecodeNamed, DecodePayload, DecodeList, DecodeItems, DecodeMembers;
        DecodedListWellFormed(data, pos);
      } else if k == Compound {
        CompoundPayloadParts(data, pos);
        hide DecodeNamed, DecodePayload, DecodeList, DecodeItems, DecodeMembers;
        DecodedMembersWellFormed(data, pos);
      } else {
        LeafPayloadWellFormed(k, data, pos);
      }
    }
  }

  lemma {:induction false} DecodedListWellFormed(data: seq<byte>, pos: nat)
    requires pos <= |data|
    ensures DecodeList(data, pos).Ok? ==> WellFormed(DecodeList(data, pos).value.0)
    decreases |data| - pos, 1, 0
  {
    hide DecodeNamed, DecodePayload, DecodeList, DecodeItems, DecodeMembers;
    if DecodeList(data, pos).Ok? {
      ListParts(data, pos);
      var (elem, n, p1) := ReadListHeader(data, pos).value;
      DecodedItemsWellFormed(elem, n, data, p1);
    }
  }

  lemma {:induction false} DecodedItemsWellFormed(k: Kind, n: nat, data: seq<byte>, pos: nat)
    requires pos <= |data|
    ensures DecodeItems(k, n, data, pos).Ok? ==>
      var items := DecodeItems(k, n, data, pos).value.0;
      forall i | 0 <= i < |items| :: KindOf(items[i]) == k && WellFormed(items[i])
    decreases |data| - pos, 3, n
  {
    hide DecodeNamed, DecodePayload, DecodeList, DecodeItems, DecodeMembers;
    if n > 0 && DecodeItems(k, n, data, pos).Ok? {
      ItemsParts(k, n, data, pos);
      var (item, p1) := DecodePayload(k, data, pos).value;
      DecodedPayloadWellFormed(k, data, pos);
      DecodedItemsWellFormed(k, n - 1, data, p1);
    }
  }

  lemma {:induction false} DecodedMembersWellFormed(data: seq<byte>, pos: nat)
    requires pos <= |data|
    ensures DecodeMembers(data, pos).Ok? ==>
      var ms := DecodeMembers(data, pos).value.0;
      forall i | 0 <= i < |ms| :: !ms[i].payload.EndTag? && WellFormedNamed(ms[i])
    decreases |data| - pos, 1, 0
  {
    hide DecodeNamed, DecodePayload, DecodeList, DecodeItems, DecodeMembers;
    if DecodeMembers(data, pos).Ok? {
      MembersParts(data, pos);
      var (t, p1) := DecodeNamed(data, pos).value;
      DecodedNamedWellFormed(data, pos);
      if !t.payload.EndTag? {
        DecodedMembersWellFormed(data, p1);
      }
    }
  }

  // ---------------------------------------------------------------------
  // A worked example
  // ---------------------------------------------------------------------

  /** A nameless compound holding one Byte member named "A" with value 127:
      kind 10, empty name, then the member (kind 1, name length 1, 'A', 0x7F),
      then the End byte. The literals arrive as parameters fixed by `requires`, which keeps the
      proof obligation small for the solver. */
  lemma CompoundExample(t: NamedTag, data: seq<byte>)
    requires t == NamedTag([], CompoundTag([NamedTag([65], ByteTag(127))]))
    requires data == [10, 0, 0, 1, 0, 1, 65, 127, 0]
    ensures WellFormedNamed(t) && EncodeNamed(t) == data
    ensures DecodeNamed(data, 0) == Ok((t, 9))
  {
    ExampleEncoding(t, t.payload.members[0]);
    hide *;
    RoundTrip(t, []);
    assert EncodeNamed(t) + [] == EncodeNamed(t);
  }

  lemma ExampleEncoding(t: NamedTag, m: NamedTag)
    requires m == NamedTag([65], ByteTag(127)) && t == NamedTag([], CompoundTag([m]))
    ensures WellFormedNamed(t) && EncodeNamed(t) == [10, 0, 0, 1, 0, 1, 65, 127, 0]
  {
    ExampleMembers(m, [m]);
    assert WellFormedNamed(t);
    hide *;
    ExampleHeader(t);
    CompoundPayload([m]);
    EncodedParts(t);
  }

  /** A named tag's encoding is its header, then its payload. */
  lemma EncodedParts(t: NamedTag)
    requires WellFormedNamed(t)
    ensures EncodeNamed(t) == NamedHeader(t) + EncodePayload(t.payload)
  {
  }

  /** A compound's payload is its member list. */
  lemma CompoundPayload(ms: seq<NamedTag>)
    requires WellFormed(CompoundTag(ms))
    ensures EncodePayload(CompoundTag(ms)) == EncodeMembers(ms)
  {
  }

  /** The example's header: kind 10 and the empty name. */
  lemma ExampleHeader(t: NamedTag)
    requires t.name == [] && t.payload.CompoundTag?
    ensures NamedHeader(t) == [10, 0, 0]
  {
    ExampleFields();
    hide NameField, EncodeUnsigned, EncodeSigned;
    assert NamedHeader(t) == [KindId(Compound)] + NameField([]);
  }

  /** The example's member list: the member, then the End byte. */
  lemma ExampleMembers(m: NamedTag, ms: seq<NamedTag>)
    requires m == NamedTag([65], ByteTag(127)) && ms == [m]
    ensures WellFormedNamed(m) && EncodeMembers(ms) == [1, 0, 1, 65, 127, 0]
  {
    ExampleMember(m);
    hide EncodeNamed;
    assert ms[1..] == [];
    assert EncodeMembers(ms) == EncodeNamed(m) + EncodeMembers([]);
  }

  /** The example's one member, Byte "A" = 127. */
  lemma ExampleMember(m: NamedTag)
    requires m == NamedTag([65], ByteTag(127))
    ensures WellFormedNamed(m) && EncodeNamed(m) == [1, 0, 1, 65, 127]
  {
    hide EncodeSigned, EncodeUnsigned, NameField;
    ExampleFields();
    assert WellFormedNamed(m);
    assert NamedHeader(m) == [1, 0, 1, 65];
    assert EncodePayload(m.payload) == [127];
  }

  /** The fields the example is made of. */
  lemma ExampleFields()
    ensures EncodeSigned(127, 1) == [127]
    ensures EncodeUnsigned(1, 2) == [0, 1] && EncodeUnsigned(0, 2) == [0, 0]
    ensures NameField([65]) == [0, 1, 65] && NameField([]) == [0, 0]
  {
    assert Pow256(1) == 256 && Pow256(2) == 65536;
    assert EncodeUnsigned(0, 1) == EncodeUnsigned(0, 0) + [0] == [0];
    assert EncodeUnsigned(1, 2) == EncodeUnsigned(0, 1) + [1];
    assert EncodeUnsigned(0, 2) == EncodeUnsigned(0, 1) + [0];
    assert EncodeSigned(127, 1) == EncodeUnsigned(127, 1) == EncodeUnsigned(0, 0) + [127];
  }

  // ---------------------------------------------------------------------
  // Negative lengths are rejected
  // ---------------------------------------------------------------------

  /** The input on which the source's reader loops (see StreamAsWritten)
      is rejected by this reader: the String member's length -5 is refused.
      The literals arrive as parameters fixed by `requires`, which keeps the
      proof obligation small for the solver. */
  lemma NegativeLengthRejected(data: seq<byte>)
    requires data == [10, 0, 0, 8, 0, 0, 0xFF, 0xFB]
    ensures DecodeNamed(data, 0) == Err(NegativeLength(-5))
  {
    hide DecodeNamed, DecodePayload, DecodeList, DecodeItems, DecodeMembers;
    ExampleFields();
    NegativeStringLength(data);
    assert data[4..6] == NameField([]);
    ReadNameAt(data, 4, []);
    assert data[3..4] == [8];
    ReadUnsignedAt(data, 3, 8, 1);
    NamedPayloadFailure(data, 3, String, [], 6);
    assert data[1..3] == NameField([]);
    ReadNameAt(data, 1, []);
    assert data[0..1] == [10];
    ReadUnsignedAt(data, 0, 10, 1);
    MembersFailure(data, 3);
    NamedPayloadFailure(data, 0, Compound, [], 3);
  }

  lemma NegativeStringLength(data: seq<byte>)
    requires |data| == 8 && data[6..8] == [0xFF, 0xFB]
    ensures DecodePayload(String, data, 6) == Err(NegativeLength(-5))
  {
    assert EncodeSigned(-5, 2) == [0xFF, 0xFB] by {
      assert Pow256(2) == 65536 && Pow256(1) == 256;
      assert FromSigned(-5, 2) == 65531;
      assert EncodeUnsigned(255, 1) == EncodeUnsigned(0, 0) + [255];
      assert EncodeUnsigned(65531, 2) == EncodeUnsigned(255, 1) + [251];
    }
    ReadSignedAt(data, 6, -5, 2);
  }

  /** A named tag whose payload fails, fails with the payload's error. */
  lemma NamedPayloadFailure(data: seq<byte>, pos: nat, k: Kind, name: seq<byte>, p2: nat)
    requires pos < |data| && k != End && p2 <= |data|
    requires ReadUnsigned(data, pos, 1) == Ok((KindId(k), pos + 1))
    requires ReadName(data, pos + 1) == Ok((name, p2))
    requires DecodePayload(k, data, p2).Err?
    ensures DecodeNamed(data, pos) == Err(DecodePayload(k, data, p2).error)
  {
  }

  /** A compound whose first member fails, fails with that member's error. */
  lemma MembersFailure(data: seq<byte>, pos: nat)
    requires pos <= |data| && DecodeNamed(data, pos).Err?
    ensures DecodeMembers(data, pos) == Err(DecodeNamed(data, pos).error)
    ensures DecodePayload(Compound, data, pos) == Err(DecodeNamed(data, pos).error)
  {
  }
}
