/** A chunk (`Chunk`): its coordinates and the tag tree stored for it. On
    disk the tree is framed as a 4-byte big-endian length, the compression
    scheme byte 2 and the compressed encoding. The block and block-data
    arrays are not copies: they are the payloads of the `Blocks` and `Data`
    members of the root's `Level` compound, so editing a block edits the
    tree that is written back. The zlib codec is a pair of parameters. */
module Chunks {
  import opened Bytes
  import opened Results
  import opened Slices
  import opened Tags
  import opened Codec
  import Blocks
  import CodecRoundTrip
  import CodecFacts

  /** The member names "Level", "Blocks" and "Data" as bytes. */
  const LevelName: seq<byte> := [76, 101, 118, 101, 108]
  const BlocksName: seq<byte> := [66, 108, 111, 99, 107, 115]
  const DataName: seq<byte> := [68, 97, 116, 97]

  /** `zlib.compress` and `zlib.decompress`; the latter may reject its input. */
  type Compressor = seq<byte> -> seq<byte>
  type Decompressor = seq<byte> -> Option<seq<byte>>

  /** `root` is None for a chunk read from an empty slot. */
  datatype Chunk = Chunk(cx: int, cz: int, root: Option<NamedTag>)

  // ---------------------------------------------------------------------
  // Reaching the arrays
  // ---------------------------------------------------------------------

  /** `root_tag.children['Level'].children`: the members of the Level
      compound. A root or Level that is not a compound has no `children`. */
  function LevelMembers(root: NamedTag): (r: Result<seq<NamedTag>>)
    ensures r.Err? ==> r.error == MissingMember(LevelName)
    ensures r.Ok? ==> root.payload.CompoundTag? && Child(root.payload.members, LevelName) == Some(NamedTag(LevelName, CompoundTag(r.value)))
    ensures (root.payload.CompoundTag? && Child(root.payload.members, LevelName).Some?
             && Child(root.payload.members, LevelName).value.payload.CompoundTag?) ==> r.Ok?
  {
    if !root.payload.CompoundTag? then Err(MissingMember(LevelName))
    else
      match Child(root.payload.members, LevelName)
      case Some(NamedTag(_, CompoundTag(ms))) => Ok(ms)
      case _ => Err(MissingMember(LevelName))
  }

  /** `children[name].payload` used as a byte array: ByteArray and String
      payloads are both read as `array('B')`. */
  function ArrayMember(ms: seq<NamedTag>, name: seq<byte>): (r: Result<seq<byte>>)
    ensures r.Err? ==> r.error == MissingMember(name)
    ensures r.Ok? <==> Child(ms, name).Some? && (Child(ms, name).value.payload.ByteArrayTag? || Child(ms, name).value.payload.StringTag?)
    ensures r.Ok? && Child(ms, name).value.payload.ByteArrayTag? ==> r.value == Child(ms, name).value.payload.bytes
    ensures r.Ok? && Child(ms, name).value.payload.StringTag? ==> r.value == Child(ms, name).value.payload.chars
  {
    match Child(ms, name)
    case Some(NamedTag(_, ByteArrayTag(bs))) => Ok(bs)
    case Some(NamedTag(_, StringTag(bs))) => Ok(bs)
    case _ => Err(MissingMember(name))
  }

  /** The `blocks` and `block_data` arrays of a chunk's tree, in the order
      `Chunk.__init__` looks them up. */
  function Arrays(root: NamedTag): (r: Result<(seq<byte>, seq<byte>)>)
    ensures r.Ok? <==> LevelMembers(root).Ok? && ArrayMember(LevelMembers(root).value, BlocksName).Ok? && ArrayMember(LevelMembers(root).value, DataName).Ok?
    ensures r.Ok? ==> r.value == (ArrayMember(LevelMembers(root).value, BlocksName).value, ArrayMember(LevelMembers(root).value, DataName).value)
  {
    match LevelMembers(root)
    case Err(e) => Err(e)
    case Ok(level) =>
      match ArrayMember(level, BlocksName)
      case Err(e) => Err(e)
      case Ok(blocks) =>
        match ArrayMember(level, DataName)
        case Err(e) => Err(e)
        case Ok(data) => Ok((blocks, data))
  }

  /** A chunk as parsing produces it: no tree, or a well-formed tree whose
      Level holds both arrays. */
  predicate Valid(c: Chunk)
  {
    c.root.Some? ==> WellFormedNamed(c.root.value) && Arrays(c.root.value).Ok?
  }

  // ---------------------------------------------------------------------
  // Framing
  // ---------------------------------------------------------------------

  /** `Chunk.__init__`: empty data gives a chunk with no tree; otherwise the
      first four bytes are the length, byte 4 (the scheme) is skipped, and
      the slice that follows is decompressed and decoded. Bytes after the
      root tag are ignored. */
  function Parse(cx: int, cz: int, raw: seq<byte>, decompress: Decompressor): (r: Result<Chunk>)
    ensures |raw| == 0 ==> r == Ok(Chunk(cx, cz, None))
    ensures 0 < |raw| < 4 ==> r == Err(Truncated)
    ensures r.Ok? ==> r.value.cx == cx && r.value.cz == cz && Valid(r.value)
    ensures r.Ok? && |raw| > 0 ==> r.value.root.Some?
  {
    if |raw| == 0 then Ok(Chunk(cx, cz, None))
    else if |raw| < 4 then Err(Truncated)
    else
      match decompress(Slice(raw, 5, 5 + Unsigned(raw[..4])))
      case None => Err(CorruptContainer)
      case Some(data) =>
        match DecodeNamed(data, 0)
        case Err(e) => Err(e)
        case Ok((root, _)) =>
          if Arrays(root).Err? then Err(Arrays(root).error)
          else
            CodecFacts.DecodedNamedWellFormed(data, 0);
            Ok(Chunk(cx, cz, Some(root)))
  }

  /** `Chunk.serialize`: encode the tree, compress it, and prefix the
      compressed length (which must fit 32 bits) and the scheme byte 2. */
  function Serialize(c: Chunk, compress: Compressor): (r: Result<seq<byte>>)
    requires c.root.Some? ==> WellFormedNamed(c.root.value)
    ensures c.root.None? ==> r == Err(NoRootTag)
    ensures c.root.Some? ==> (r.Ok? <==> |compress(EncodeNamed(c.root.value))| < Pow256(4))
    ensures r.Err? && c.root.Some? ==> r.error == FieldOverflow(|compress(EncodeNamed(c.root.value))|)
    ensures r.Ok? ==>
      && |r.value| >= 5 && r.value[4] == 2
      && Unsigned(r.value[..4]) == |r.value| - 5
      && r.value[5..] == compress(EncodeNamed(c.root.value))
  {
    match c.root
    case None => Err(NoRootTag)
    case Some(root) =>
      var z := compress(EncodeNamed(root));
      if |z| >= Pow256(4) then Err(FieldOverflow(|z|))
      else
        var r := EncodeUnsigned(|z|, 4) + [2] + z;
        assert r[..4] == EncodeUnsigned(|z|, 4);
        Ok(r)
  }

  /** Parsing what was serialized gives the chunk back, whatever bytes
      follow it in its sectors, provided decompression undoes compression. */
  lemma ParseOfSerialize(c: Chunk, compress: Compressor, decompress: Decompressor, trailing: seq<byte>)
    requires Valid(c) && c.root.Some?
    requires decompress(compress(EncodeNamed(c.root.value))) == Some(EncodeNamed(c.root.value))
    requires Serialize(c, compress).Ok?
    ensures Parse(c.cx, c.cz, Serialize(c, compress).value + trailing, decompress) == Ok(c)
  {
    var root := c.root.value;
    var enc := EncodeNamed(root);
    var s := Serialize(c, compress).value;
    var raw := s + trailing;
    assert raw[..4] == s[..4];
    assert Slice(raw, 5, 5 + Unsigned(raw[..4])) == s[5..];
    CodecRoundTrip.RoundTrip(root, []);
    assert enc + [] == enc;
  }

  // ---------------------------------------------------------------------
  // Editing the arrays through the tree
  // ---------------------------------------------------------------------

  /** The tree with Level's member `name` given the bytes `bs`, keeping the
      member's kind: what an in-place edit of the aliased array amounts to. */
  function WithArray(root: NamedTag, name: seq<byte>, bs: seq<byte>): (r: NamedTag)
    requires LevelMembers(root).Ok? && ArrayMember(LevelMembers(root).value, name).Ok?
    ensures r.name == root.name
    ensures LevelMembers(r).Ok? && ArrayMember(LevelMembers(r).value, name) == Ok(bs)
  {
    var level := LevelMembers(root).value;
    var member := Child(level, name).value;
    var t := NamedTag(name, if member.payload.ByteArrayTag? then ByteArrayTag(bs) else StringTag(bs));
    var level' := NamedTag(LevelName, CompoundTag(ReplaceChild(level, name, t)));
    ChildOfReplaced(root.payload.members, LevelName, level', LevelName);
    ChildOfReplaced(level, name, t, name);
    NamedTag(root.name, CompoundTag(ReplaceChild(root.payload.members, LevelName, level')))
  }

  /** After the edit the member `name` holds `bs`, and every other Level
      member reads as before. */
  lemma ArrayMemberOfWithArray(root: NamedTag, name: seq<byte>, bs: seq<byte>, other: seq<byte>)
    requires LevelMembers(root).Ok? && ArrayMember(LevelMembers(root).value, name).Ok?
    ensures LevelMembers(WithArray(root, name, bs)).Ok?
    ensures ArrayMember(LevelMembers(WithArray(root, name, bs)).value, other)
         == if other == name then Ok(bs) else ArrayMember(LevelMembers(root).value, other)
  {
    var level := LevelMembers(root).value;
    var member := Child(level, name).value;
    var t := NamedTag(name, if member.payload.ByteArrayTag? then ByteArrayTag(bs) else StringTag(bs));
    var level' := NamedTag(LevelName, CompoundTag(ReplaceChild(level, name, t)));
    ChildOfReplaced(root.payload.members, LevelName, level', LevelName);
    assert LevelMembers(WithArray(root, name, bs)) == Ok(ReplaceChild(level, name, t));
    ChildOfReplaced(level, name, t, other);
  }

  /** The edit touches one Level member only, whatever its siblings are:
      the Level members are the old ones with the last member carrying the
      name replaced by the new bytes, under the same kind. */
  lemma WithArrayLevel(root: NamedTag, name: seq<byte>, bs: seq<byte>)
    requires LevelMembers(root).Ok? && ArrayMember(LevelMembers(root).value, name).Ok?
    ensures exists i :: IsLastNamed(LevelMembers(root).value, i) && LevelMembers(root).value[i].name == name
    ensures forall i | IsLastNamed(LevelMembers(root).value, i) && LevelMembers(root).value[i].name == name ::
      var level := LevelMembers(root).value;
      LevelMembers(WithArray(root, name, bs)).value
        == level[i := NamedTag(name, if level[i].payload.ByteArrayTag? then ByteArrayTag(bs) else StringTag(bs))]
  {
    var level := LevelMembers(root).value;
    WithArrayReplaces(root, name, bs);
    ChildrenKeys(level, name);
    var k := LastIndexOf(level, name);
    forall i | IsLastNamed(level, i) && level[i].name == name
      ensures LevelMembers(WithArray(root, name, bs)).value
        == level[i := NamedTag(name, if level[i].payload.ByteArrayTag? then ByteArrayTag(bs) else StringTag(bs))]
    {
      var t := NamedTag(name, if level[i].payload.ByteArrayTag? then ByteArrayTag(bs) else StringTag(bs));
      ReplaceChildKeeps(level, name, t, i);
    }
  }

  /** The edited tree's Level members are the replaced list. */
  lemma WithArrayReplaces(root: NamedTag, name: seq<byte>, bs: seq<byte>)
    requires LevelMembers(root).Ok? && ArrayMember(LevelMembers(root).value, name).Ok?
    ensures var level := LevelMembers(root).value;
      var member := Child(level, name).value;
      LevelMembers(WithArray(root, name, bs))
        == Ok(ReplaceChild(level, name, NamedTag(name, if member.payload.ByteArrayTag? then ByteArrayTag(bs) else StringTag(bs))))
  {
    var level := LevelMembers(root).value;
    var member := Child(level, name).value;
    var t := NamedTag(name, if member.payload.ByteArrayTag? then ByteArrayTag(bs) else StringTag(bs));
    var level' := NamedTag(LevelName, CompoundTag(ReplaceChild(level, name, t)));
    ChildOfReplaced(root.payload.members, LevelName, level', LevelName);
  }

  /** Replacing a member of a well-formed compound by a well-formed,
      non-End tag of the same name keeps the compound well formed. */
  lemma ReplaceWellFormed(ms: seq<NamedTag>, name: seq<byte>, t: NamedTag)
    requires WellFormed(CompoundTag(ms)) && Child(ms, name).Some?
    requires t.name == name && WellFormedNamed(t) && !t.payload.EndTag?
    ensures WellFormed(CompoundTag(ReplaceChild(ms, name, t)))
  {
    var r := ReplaceChild(ms, name, t);
    ChildrenKeys(ms, name);
    ReplaceChildKeeps(ms, name, t, LastIndexOf(ms, name));
    assert forall i | 0 <= i < |r| :: r[i] == ms[i] || r[i] == t;
  }

  /** A selected member of a well-formed compound is itself well formed. */
  lemma ChildWellFormed(ms: seq<NamedTag>, name: seq<byte>)
    requires WellFormed(CompoundTag(ms)) && Child(ms, name).Some?
    ensures WellFormedNamed(Child(ms, name).value) && !Child(ms, name).value.payload.EndTag?
  {
    ChildIsLastNamed(ms, name);
  }

  /** An edit that keeps the array's length keeps the tree well formed and
      both arrays reachable. */
  lemma WithArrayValid(root: NamedTag, name: seq<byte>, bs: seq<byte>)
    requires WellFormedNamed(root) && Arrays(root).Ok?
    requires name == BlocksName || name == DataName
    requires |bs| == |ArrayMember(LevelMembers(root).value, name).value|
    ensures WellFormedNamed(WithArray(root, name, bs)) && Arrays(WithArray(root, name, bs)).Ok?
  {
    var level := LevelMembers(root).value;
    ChildWellFormed(root.payload.members, LevelName);
    ChildWellFormed(level, name);
    var member := Child(level, name).value;
    var t := NamedTag(name, if member.payload.ByteArrayTag? then ByteArrayTag(bs) else StringTag(bs));
    ReplaceWellFormed(level, name, t);
    var level' := NamedTag(LevelName, CompoundTag(ReplaceChild(level, name, t)));
    ReplaceWellFormed(root.payload.members, LevelName, level');
    ArrayMemberOfWithArray(root, name, bs, BlocksName);
    ArrayMemberOfWithArray(root, name, bs, DataName);
  }

  /** `chunk.blocks[x, y, z]`; a chunk without a tree has no `blocks`. */
  function GetBlock(c: Chunk, x: int, y: int, z: int): (r: Result<byte>)
    requires Valid(c)
    ensures c.root.None? ==> r == Err(NoRootTag)
    ensures c.root.Some? ==> r == Blocks.GetBlock(Arrays(c.root.value).value.0, x, y, z)
  {
    match c.root
    case None => Err(NoRootTag)
    case Some(root) => Blocks.GetBlock(Arrays(root).value.0, x, y, z)
  }

  /** `chunk.block_data[x, y, z]`. */
  function GetData(c: Chunk, x: int, y: int, z: int): (r: Result<nat>)
    requires Valid(c)
    ensures c.root.None? ==> r == Err(NoRootTag)
    ensures c.root.Some? ==> r == Blocks.GetData(Arrays(c.root.value).value.1, x, y, z)
  {
    match c.root
    case None => Err(NoRootTag)
    case Some(root) => Blocks.GetData(Arrays(root).value.1, x, y, z)
  }

  /** `chunk.blocks[x, y, z] = value`, which edits the tree in place. */
  function SetBlock(c: Chunk, x: int, y: int, z: int, value: int): (r: Result<Chunk>)
    requires Valid(c)
    ensures r.Ok? ==> Valid(r.value) && r.value.cx == c.cx && r.value.cz == c.cz && r.value.root.Some?
    ensures c.root.None? ==> r == Err(NoRootTag)
    ensures c.root.Some? ==> (r.Ok? <==> Blocks.SetBlock(Arrays(c.root.value).value.0, x, y, z, value).Ok?)
  {
    match c.root
    case None => Err(NoRootTag)
    case Some(root) =>
      match Blocks.SetBlock(Arrays(root).value.0, x, y, z, value)
      case Err(e) => Err(e)
      case Ok(blocks) =>
        WithArrayValid(root, BlocksName, blocks);
        Ok(c.(root := Some(WithArray(root, BlocksName, blocks))))
  }

  /** `chunk.block_data[x, y, z] = value`. */
  function SetData(c: Chunk, x: int, y: int, z: int, value: int): (r: Result<Chunk>)
    requires Valid(c)
    ensures r.Ok? ==> Valid(r.value) && r.value.cx == c.cx && r.value.cz == c.cz && r.value.root.Some?
    ensures c.root.None? ==> r == Err(NoRootTag)
    ensures c.root.Some? ==> (r.Ok? <==> Blocks.SetData(Arrays(c.root.value).value.1, x, y, z, value).Ok?)
  {
    match c.root
    case None => Err(NoRootTag)
    case Some(root) =>
      match Blocks.SetData(Arrays(root).value.1, x, y, z, value)
      case Err(e) => Err(e)
      case Ok(data) =>
        WithArrayValid(root, DataName, data);
        Ok(c.(root := Some(WithArray(root, DataName, data))))
  }

  /** Storing a block changes the block array as `ChunkBlocks` does and
      leaves the nibble array untouched. */
  lemma SetBlockArrays(c: Chunk, x: int, y: int, z: int, value: int)
    requires Valid(c) && SetBlock(c, x, y, z, value).Ok?
    ensures var (blocks, data) := Arrays(c.root.value).value;
      Arrays(SetBlock(c, x, y, z, value).value.root.value) == Ok((Blocks.SetBlock(blocks, x, y, z, value).value, data))
  {
    var root := c.root.value;
    var blocks := Blocks.SetBlock(Arrays(root).value.0, x, y, z, value).value;
    ArrayMemberOfWithArray(root, BlocksName, blocks, BlocksName);
    ArrayMemberOfWithArray(root, BlocksName, blocks, DataName);
  }

  /** Storing a nibble changes the nibble array as `ChunkBlockData` does and
      leaves the block array untouched. */
  lemma SetDataArrays(c: Chunk, x: int, y: int, z: int, value: int)
    requires Valid(c) && SetData(c, x, y, z, value).Ok?
    ensures var (blocks, data) := Arrays(c.root.value).value;
      Arrays(SetData(c, x, y, z, value).value.root.value) == Ok((blocks, Blocks.SetData(data, x, y, z, value).value))
  {
    var root := c.root.value;
    var data := Blocks.SetData(Arrays(root).value.1, x, y, z, value).value;
    ArrayMemberOfWithArray(root, DataName, data, BlocksName);
    ArrayMemberOfWithArray(root, DataName, data, DataName);
  }

  /** A stored block reads back, and every block-data nibble reads as before. */
  lemma GetAfterSetBlock(c: Chunk, x: int, y: int, z: int, value: int, x': int, y': int, z': int)
    requires Valid(c) && SetBlock(c, x, y, z, value).Ok?
    ensures GetBlock(SetBlock(c, x, y, z, value).value, x, y, z) == Ok(value)
    ensures GetData(SetBlock(c, x, y, z, value).value, x', y', z') == GetData(c, x', y', z')
  {
    SetBlockArrays(c, x, y, z, value);
    Blocks.GetAfterSetBlock(Arrays(c.root.value).value.0, x, y, z, value);
  }

  /** A stored nibble reads back reduced to four bits, and every block reads as before. */
  lemma GetAfterSetData(c: Chunk, x: int, y: int, z: int, value: int, x': int, y': int, z': int)
    requires Valid(c) && SetData(c, x, y, z, value).Ok?
    ensures GetData(SetData(c, x, y, z, value).value, x, y, z) == Ok(value % 16)
    ensures GetBlock(SetData(c, x, y, z, value).value, x', y', z') == GetBlock(c, x', y', z')
  {
    SetDataArrays(c, x, y, z, value);
    Blocks.GetAfterSetData(Arrays(c.root.value).value.1, x, y, z, value);
  }
}
