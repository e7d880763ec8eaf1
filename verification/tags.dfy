/** The in-memory tag tree: the eleven kinds of the Named Binary Tag layout
    and the payload each carries (the `Tag` objects of the source, with the
    kind fixed by the constructor instead of a separate `type` field). */
module Tags {
  import opened Bytes
  import opened Results

  /** The closed set of kinds, numbered 0..10 on the wire. */
  datatype Kind =
    | End | Byte | Short | Int | Long | Float | Double
    | ByteArray | String | List | Compound

  /** The wire id of a kind (`TagType.id`). */
  function KindId(k: Kind): (id: nat)
    ensures id <= 10
    ensures KindOfId(id) == Some(k)
  {
    match k
    case End => 0
    case Byte => 1
    case Short => 2
    case Int => 3
    case Long => 4
    case Float => 5
    case Double => 6
    case ByteArray => 7
    case String => 8
    case List => 9
    case Compound => 10
  }

  /** The `tag_types` lookup: defined exactly on ids 0..10. */
  function KindOfId(id: int): (r: Option<Kind>)
    ensures r.Some? <==> 0 <= id <= 10
  {
    if id == 0 then Some(End)
    else if id == 1 then Some(Byte)
    else if id == 2 then Some(Short)
    else if id == 3 then Some(Int)
    else if id == 4 then Some(Long)
    else if id == 5 then Some(Float)
    else if id == 6 then Some(Double)
    else if id == 7 then Some(ByteArray)
    else if id == 8 then Some(String)
    else if id == 9 then Some(List)
    else if id == 10 then Some(Compound)
    else None
  }

  /** The lookup inverts the numbering on every id it accepts. */
  lemma KindIdOfKindOfId(id: int)
    requires KindOfId(id).Some?
    ensures KindId(KindOfId(id).value) == id
  {
  }

  /** A tag's payload. Float and Double carry their IEEE-754 bit patterns
      uninterpreted; ByteArray and String carry raw bytes. */
  datatype Payload =
    | EndTag
    | ByteTag(b: int)
    | ShortTag(s: int)
    | IntTag(i: int)
    | LongTag(l: int)
    | FloatTag(fbits: nat)
    | DoubleTag(dbits: nat)
    | ByteArrayTag(bytes: seq<byte>)
    | StringTag(chars: seq<byte>)
    | ListTag(elem: Kind, items: seq<Payload>)
    | CompoundTag(members: seq<NamedTag>)

  /** A tag as stored at the root or inside a compound: a name and a payload. */
  datatype NamedTag = NamedTag(name: seq<byte>, payload: Payload)

  function KindOf(p: Payload): Kind
  {
    match p
    case EndTag => End
    case ByteTag(_) => Byte
    case ShortTag(_) => Short
    case IntTag(_) => Int
    case LongTag(_) => Long
    case FloatTag(_) => Float
    case DoubleTag(_) => Double
    case ByteArrayTag(_) => ByteArray
    case StringTag(_) => String
    case ListTag(_, _) => List
    case CompoundTag(_) => Compound
  }

  /** Largest values of the signed length fields: i16 for strings, i32 for
      byte arrays and list counts; names use an unsigned 16-bit length. */
  const MaxStringLength: nat := 0x7FFF
  const MaxArrayLength: nat := 0x7FFF_FFFF
  const MaxNameLength: nat := 0xFFFF

  /** A payload the writer can emit and the reader gives back: every scalar
      fits its width, every length fits its prefix, list items all have the
      declared kind, and compound members are never End tags. */
  predicate WellFormed(p: Payload)
    decreases p, 0
  {
    match p
    case EndTag => true
    case ByteTag(v) => InSigned(v, 1)
    case ShortTag(v) => InSigned(v, 2)
    case IntTag(v) => InSigned(v, 4)
    case LongTag(v) => InSigned(v, 8)
    case FloatTag(bits) => bits < Pow256(4)
    case DoubleTag(bits) => bits < Pow256(8)
    case ByteArrayTag(bs) => |bs| <= MaxArrayLength
    case StringTag(cs) => |cs| <= MaxStringLength
    case ListTag(k, items) =>
      && |items| <= MaxArrayLength
      && forall i | 0 <= i < |items| :: KindOf(items[i]) == k && WellFormed(items[i])
    case CompoundTag(ms) =>
      forall i | 0 <= i < |ms| :: !ms[i].payload.EndTag? && WellFormedNamed(ms[i])
  }

  /** A named tag is well formed when its payload is, its name fits the
      16-bit length, and an End tag carries no name (none is written). */
  predicate WellFormedNamed(t: NamedTag)
    decreases t, 1
  {
    && |t.name| <= MaxNameLength
    && (t.payload.EndTag? ==> t.name == [])
    && WellFormed(t.payload)
  }

  /** Member i is the last member of `ms` carrying its name. */
  predicate IsLastNamed(ms: seq<NamedTag>, i: int)
  {
    0 <= i < |ms| && forall j | i < j < |ms| :: ms[j].name != ms[i].name
  }

  /** The `children` dictionary of a compound: each member is entered in
      order, so a later member overwrites an earlier one of the same name. */
  function Children(ms: seq<NamedTag>): (m: map<seq<byte>, NamedTag>)
    ensures |ms| > 0 ==> ms[|ms| - 1].name in m && m[ms[|ms| - 1].name] == ms[|ms| - 1]
  {
    if |ms| == 0 then map[]
    else Children(ms[..|ms| - 1])[ms[|ms| - 1].name := ms[|ms| - 1]]
  }

  /** Exactly the member names are keys of the dictionary. */
  lemma {:induction false} ChildrenKeys(ms: seq<NamedTag>, name: seq<byte>)
    ensures name in Children(ms) <==> exists i | 0 <= i < |ms| :: ms[i].name == name
  {
    if |ms| > 0 {
      var init := ms[..|ms| - 1];
      ChildrenKeys(init, name);
      if name in Children(init) {
        var i :| 0 <= i < |init| && init[i].name == name;
        assert ms[i].name == name;
      }
      if exists i | 0 <= i < |ms| :: ms[i].name == name {
        var i :| 0 <= i < |ms| && ms[i].name == name;
        if i < |ms| - 1 {
          assert init[i].name == name;
        }
      }
    }
  }

  /** Last wins: a name looks up the last member that carries it. */
  lemma {:induction false} ChildrenLastWins(ms: seq<NamedTag>, i: int)
    requires IsLastNamed(ms, i)
    ensures ms[i].name in Children(ms) && Children(ms)[ms[i].name] == ms[i]
  {
    if i < |ms| - 1 {
      var init := ms[..|ms| - 1];
      assert IsLastNamed(init, i);
      ChildrenLastWins(init, i);
    }
  }

  /** `children[name]`: the member a name selects, None where Python raises KeyError. */
  function Child(ms: seq<NamedTag>, name: seq<byte>): (r: Option<NamedTag>)
    ensures r.Some? ==> r.value.name == name
  {
    ChildrenKeysNamed(ms);
    var m := Children(ms);
    if name in m then Some(m[name]) else None
  }

  /** The lookup fails exactly when no member has the name, and otherwise
      returns the last member that has it. */
  lemma ChildIsLastNamed(ms: seq<NamedTag>, name: seq<byte>)
    ensures Child(ms, name).None? <==> forall i | 0 <= i < |ms| :: ms[i].name != name
    ensures Child(ms, name).Some? ==>
      exists i | IsLastNamed(ms, i) :: ms[i].name == name && ms[i] == Child(ms, name).value
  {
    ChildrenKeys(ms, name);
    if Child(ms, name).Some? {
      var i := LastIndexOf(ms, name);
      ChildrenLastWins(ms, i);
    }
  }

  /** Position of the last member carrying `name`, when one does. */
  function LastIndexOf(ms: seq<NamedTag>, name: seq<byte>): (i: nat)
    requires exists j | 0 <= j < |ms| :: ms[j].name == name
    ensures IsLastNamed(ms, i) && ms[i].name == name
  {
    if ms[|ms| - 1].name == name then |ms| - 1
    else
      var j :| 0 <= j < |ms| && ms[j].name == name;
      assert ms[..|ms| - 1][j].name == name;
      LastIndexOf(ms[..|ms| - 1], name)
  }

  /** Every entry of the dictionary is filed under its own name. */
  lemma {:induction false} ChildrenKeysNamed(ms: seq<NamedTag>)
    ensures forall name | name in Children(ms) :: Children(ms)[name].name == name
  {
    if |ms| > 0 {
      ChildrenKeysNamed(ms[..|ms| - 1]);
    }
  }

  /** The members with the one `children[name]` selects replaced by `t`. */
  function ReplaceChild(ms: seq<NamedTag>, name: seq<byte>, t: NamedTag): (r: seq<NamedTag>)
    requires Child(ms, name).Some?
    ensures |r| == |ms|
  {
    ChildrenKeys(ms, name);
    ms[LastIndexOf(ms, name) := t]
  }

  /** After the replacement `name` selects `t`, and every other name selects
      what it did before. */
  lemma ChildOfReplaced(ms: seq<NamedTag>, name: seq<byte>, t: NamedTag, other: seq<byte>)
    requires Child(ms, name).Some? && t.name == name
    ensures Child(ReplaceChild(ms, name, t), other) == if other == name then Some(t) else Child(ms, other)
  {
    ChildrenKeys(ms, name);
    var i := LastIndexOf(ms, name);
    var r := ReplaceChild(ms, name, t);
    assert forall j | 0 <= j < |ms| :: r[j].name == ms[j].name;
    ChildIsLastNamed(ms, other);
    ChildIsLastNamed(r, other);
    if other == name {
      assert IsLastNamed(r, i);
      ChildrenLastWins(r, i);
    } else if Child(ms, other).Some? {
      var k :| IsLastNamed(ms, k) && ms[k].name == other && ms[k] == Child(ms, other).value;
      assert IsLastNamed(r, k) && r[k] == ms[k];
      ChildrenLastWins(r, k);
    }
  }

  /** The replacement puts `t` at the last member carrying the name and
      keeps every other member in place. */
  lemma ReplaceChildKeeps(ms: seq<NamedTag>, name: seq<byte>, t: NamedTag, i: int)
    requires IsLastNamed(ms, i) && ms[i].name == name
    ensures Child(ms, name) == Some(ms[i])
    ensures ReplaceChild(ms, name, t) == ms[i := t]
  {
    ChildrenKeys(ms, name);
    var k := LastIndexOf(ms, name);
    // both are the last position carrying the name
    assert k == i;
    ChildrenLastWins(ms, i);
  }
}
