/** Voxel addressing inside a chunk: `ChunkBlocks` (one byte per block)
    and `ChunkBlockData` (one nibble per block, two blocks to a byte), with
    `split_nibble` and `join_nibble`. The arrays are byte sequences; the
    coordinates are unchecked Python integers, so an index may be negative
    and then counts from the end, as Python's indexing does. */
module Blocks {
  import opened Bytes
  import opened Results

  /** Blocks in a 16 x 128 x 16 chunk, and bytes needed for their nibbles. */
  const BlockCount: nat := 32768
  const NibbleByteCount: nat := 16384

  /** The flat offset of block (x, y, z): y runs fastest, then z, then x. */
  function BlockIndex(x: int, y: int, z: int): int
  {
    y + z * 128 + x * 128 * 16
  }

  predicate InChunk(x: int, y: int, z: int)
  {
    0 <= x < 16 && 0 <= y < 128 && 0 <= z < 16
  }

  /** The block at a flat offset: the inverse of BlockIndex, and the only
      in-chunk block with that offset. */
  function Coordinates(i: nat): (r: (int, int, int))
    requires i < BlockCount
    ensures InChunk(r.0, r.1, r.2)
    ensures BlockIndex(r.0, r.1, r.2) == i
    ensures forall x, y, z | InChunk(x, y, z) && BlockIndex(x, y, z) == i :: (x, y, z) == r
  {
    OffsetsDetermine(i);
    (i / 2048, i % 128, (i / 128) % 16)
  }

  /** An in-chunk block is determined by its offset. */
  lemma OffsetsDetermine(i: int)
    ensures forall x, y, z | InChunk(x, y, z) && BlockIndex(x, y, z) == i ::
      (x, y, z) == (i / 2048, i % 128, (i / 128) % 16)
  {
    forall x, y, z | InChunk(x, y, z) && BlockIndex(x, y, z) == i
      ensures (x, y, z) == (i / 2048, i % 128, (i / 128) % 16)
    {
      assert i == 2048 * x + (128 * z + y);
      DivMod2048(i, x, 128 * z + y);
      assert i == 128 * (z + 16 * x) + y;
      DivMod128(i, z + 16 * x, y);
      DivMod16(z + 16 * x, x, z);
    }
  }

  /** Inside a chunk every block has its own offset, below 32768. */
  lemma BlockIndexInRange(x: int, y: int, z: int)
    requires InChunk(x, y, z)
    ensures 0 <= BlockIndex(x, y, z) < BlockCount
    ensures Coordinates(BlockIndex(x, y, z)) == (x, y, z)
  {
    OffsetsDetermine(BlockIndex(x, y, z));
  }

  /** Quotient and remainder by the two strides of the layout are unique. */
  lemma DivMod128(i: int, q: int, r: int)
    requires 0 <= r < 128 && i == 128 * q + r
    ensures i / 128 == q && i % 128 == r
  {
  }

  lemma DivMod2048(i: int, q: int, r: int)
    requires 0 <= r < 2048 && i == 2048 * q + r
    ensures i / 2048 == q
  {
  }

  lemma DivMod16(i: int, q: int, r: int)
    requires 0 <= r < 16 && i == 16 * q + r
    ensures i / 16 == q && i % 16 == r
  {
  }

  /** Python's resolution of index `i` into a sequence of length `n`:
      negative indices count from the end; anything else outside is an IndexError. */
  function PyIndex(n: nat, i: int): (r: Option<nat>)
    ensures r.Some? <==> -(n as int) <= i < n
    ensures r.Some? ==> r.value < n && (r.value == i || r.value == i + n)
  {
    if 0 <= i < n then Some(i)
    else if -(n as int) <= i < 0 then Some(i + n)
    else None
  }

  // ---------------------------------------------------------------------
  // ChunkBlocks
  // ---------------------------------------------------------------------

  /** `ChunkBlocks.__getitem__`. */
  function GetBlock(blocks: seq<byte>, x: int, y: int, z: int): (r: Result<byte>)
    ensures r.Ok? <==> PyIndex(|blocks|, BlockIndex(x, y, z)).Some?
    ensures r.Ok? ==> r.value == blocks[PyIndex(|blocks|, BlockIndex(x, y, z)).value]
    ensures r.Err? ==> r.error == IndexOutOfRange(BlockIndex(x, y, z))
  {
    match PyIndex(|blocks|, BlockIndex(x, y, z))
    case None => Err(IndexOutOfRange(BlockIndex(x, y, z)))
    case Some(j) => Ok(blocks[j])
  }

  /** `ChunkBlocks.__setitem__`: the array checks the index, then that the
      value fits an unsigned byte. */
  function SetBlock(blocks: seq<byte>, x: int, y: int, z: int, value: int): (r: Result<seq<byte>>)
    ensures r.Ok? <==> PyIndex(|blocks|, BlockIndex(x, y, z)).Some? && 0 <= value < 256
    ensures PyIndex(|blocks|, BlockIndex(x, y, z)).None? ==> r == Err(IndexOutOfRange(BlockIndex(x, y, z)))
    ensures PyIndex(|blocks|, BlockIndex(x, y, z)).Some? && !(0 <= value < 256) ==> r == Err(FieldOverflow(value))
    ensures r.Ok? ==> |r.value| == |blocks|
  {
    match PyIndex(|blocks|, BlockIndex(x, y, z))
    case None => Err(IndexOutOfRange(BlockIndex(x, y, z)))
    case Some(j) =>
      if 0 <= value < 256 then Ok(blocks[j := value]) else Err(FieldOverflow(value))
  }

  /** Reading a block back gives the value just stored. */
  lemma GetAfterSetBlock(blocks: seq<byte>, x: int, y: int, z: int, value: int)
    requires SetBlock(blocks, x, y, z, value).Ok?
    ensures GetBlock(SetBlock(blocks, x, y, z, value).value, x, y, z) == Ok(value)
  {
  }

  /** Every array slot other than the one written keeps its byte. */
  lemma SetBlockFrame(blocks: seq<byte>, x: int, y: int, z: int, value: int, j: nat)
    requires SetBlock(blocks, x, y, z, value).Ok?
    requires j < |blocks| && PyIndex(|blocks|, BlockIndex(x, y, z)) != Some(j)
    ensures SetBlock(blocks, x, y, z, value).value[j] == blocks[j]
  {
  }

  /** On a full-size array, storing one block leaves every other block as it was. */
  lemma SetBlockOthers(blocks: seq<byte>, x: int, y: int, z: int, value: int, x': int, y': int, z': int)
    requires |blocks| == BlockCount && InChunk(x, y, z) && InChunk(x', y', z')
    requires (x, y, z) != (x', y', z') && 0 <= value < 256
    ensures GetBlock(SetBlock(blocks, x, y, z, value).value, x', y', z') == GetBlock(blocks, x', y', z')
  {
    BlockIndexInRange(x, y, z);
    BlockIndexInRange(x', y', z');
  }

  // ---------------------------------------------------------------------
  // Nibbles
  // ---------------------------------------------------------------------

  /** `split_nibble`: the low and high halves of a byte. */
  function SplitNibble(b: byte): (r: (nat, nat))
    ensures r.0 < 16 && r.1 < 16
    ensures r.0 + 16 * r.1 == b
  {
    (b % 16, b / 16)
  }

  /** `join_nibble`: `(low & 0x0F) + ((high << 4) & 0xF0)`. The masks keep
      the low four bits of each argument, so any integers are accepted
      (Python's `&` on a negative number works on its two's complement,
      which is the floor remainder here). */
  function JoinNibble(low: int, high: int): (r: byte)
    ensures SplitNibble(r) == (low % 16, high % 16)
  {
    low % 16 + (high % 16) * 16
  }

  lemma JoinOfSplit(b: byte)
    ensures JoinNibble(SplitNibble(b).0, SplitNibble(b).1) == b
  {
  }

  lemma SplitOfJoin(low: int, high: int)
    requires 0 <= low < 16 && 0 <= high < 16
    ensures SplitNibble(JoinNibble(low, high)) == (low, high)
  {
  }

  // ---------------------------------------------------------------------
  // ChunkBlockData
  // ---------------------------------------------------------------------

  /** The byte holding a block's nibble: `offset >> 1`, a floor division
      that Python applies to negative offsets as well. */
  function NibbleByte(x: int, y: int, z: int): int
  {
    BlockIndex(x, y, z) / 2
  }

  /** Which half of that byte: `offset % 2`, 0 for the low nibble. */
  function NibbleHalf(x: int, y: int, z: int): (r: nat)
    ensures r < 2
  {
    BlockIndex(x, y, z) % 2
  }

  lemma NibbleByteInRange(x: int, y: int, z: int)
    requires InChunk(x, y, z)
    ensures 0 <= NibbleByte(x, y, z) < NibbleByteCount
  {
    BlockIndexInRange(x, y, z);
  }

  /** `ChunkBlockData.__getitem__`. */
  function GetData(data: seq<byte>, x: int, y: int, z: int): (r: Result<nat>)
    ensures r.Ok? <==> PyIndex(|data|, NibbleByte(x, y, z)).Some?
    ensures r.Ok? ==> r.value < 16
    ensures r.Ok? ==>
      var b := data[PyIndex(|data|, NibbleByte(x, y, z)).value];
      r.value == if NibbleHalf(x, y, z) == 0 then b % 16 else b / 16
  {
    match PyIndex(|data|, NibbleByte(x, y, z))
    case None => Err(IndexOutOfRange(NibbleByte(x, y, z)))
    case Some(j) =>
      var halves := SplitNibble(data[j]);
      Ok(if NibbleHalf(x, y, z) == 0 then halves.0 else halves.1)
  }

  /** `ChunkBlockData.__setitem__`: split the byte, replace one half, join. */
  function SetData(data: seq<byte>, x: int, y: int, z: int, value: int): (r: Result<seq<byte>>)
    ensures r.Ok? <==> PyIndex(|data|, NibbleByte(x, y, z)).Some?
    ensures r.Err? ==> r.error == IndexOutOfRange(NibbleByte(x, y, z))
    ensures r.Ok? ==> |r.value| == |data|
  {
    match PyIndex(|data|, NibbleByte(x, y, z))
    case None => Err(IndexOutOfRange(NibbleByte(x, y, z)))
    case Some(j) =>
      var halves := SplitNibble(data[j]);
      var joined := if NibbleHalf(x, y, z) == 0 then JoinNibble(value, halves.1) else JoinNibble(halves.0, value);
      Ok(data[j := joined])
  }

  /** Reading a nibble back gives the value stored, reduced to four bits. */
  lemma GetAfterSetData(data: seq<byte>, x: int, y: int, z: int, value: int)
    requires SetData(data, x, y, z, value).Ok?
    ensures GetData(SetData(data, x, y, z, value).value, x, y, z) == Ok(value % 16)
  {
  }

  /** A set touches only the half it addresses: any position with another
      byte, or the other half of the same byte, reads as before. */
  lemma SetDataFrame(data: seq<byte>, x: int, y: int, z: int, value: int, x': int, y': int, z': int)
    requires SetData(data, x, y, z, value).Ok?
    requires PyIndex(|data|, NibbleByte(x', y', z')) != PyIndex(|data|, NibbleByte(x, y, z))
          || NibbleHalf(x', y', z') != NibbleHalf(x, y, z)
    ensures GetData(SetData(data, x, y, z, value).value, x', y', z') == GetData(data, x', y', z')
  {
  }

  /** Every byte of the array other than the one addressed is unchanged. */
  lemma SetDataOtherBytes(data: seq<byte>, x: int, y: int, z: int, value: int, j: nat)
    requires SetData(data, x, y, z, value).Ok?
    requires j < |data| && PyIndex(|data|, NibbleByte(x, y, z)) != Some(j)
    ensures SetData(data, x, y, z, value).value[j] == data[j]
  {
  }

  /** On a full-size nibble array, storing one block's nibble leaves every
      other block's nibble as it was. */
  lemma SetDataOthers(data: seq<byte>, x: int, y: int, z: int, value: int, x': int, y': int, z': int)
    requires |data| == NibbleByteCount && InChunk(x, y, z) && InChunk(x', y', z')
    requires (x, y, z) != (x', y', z')
    ensures SetData(data, x, y, z, value).Ok?
    ensures GetData(SetData(data, x, y, z, value).value, x', y', z') == GetData(data, x', y', z')
  {
    NibbleByteInRange(x, y, z);
    NibbleByteInRange(x', y', z');
    BlockIndexInRange(x, y, z);
    BlockIndexInRange(x', y', z');
    var i, i' := BlockIndex(x, y, z), BlockIndex(x', y', z');
    assert i != i';
    assert i / 2 != i' / 2 || i % 2 != i' % 2;
    SetDataFrame(data, x, y, z, value, x', y', z');
  }
}
