/** A world (`World`): region files keyed by region coordinates. Chunk
    (cx, cz) lives in region (cx // 32, cz // 32) at the slot
    SlotOffset(cx, cz). Every access opens its region afresh, reading the
    header from the file's current bytes, because the region dictionary
    does not keep what it creates. */
module Worlds {
  import opened Bytes
  import opened Results
  import Region
  import Chunks
  import Codec

  datatype World = World(files: map<(int, int), seq<byte>>)

  /** Python's `c // 32`: the floor quotient, which Dafny's `/` by a
      positive divisor also is. */
  function RegionOf(c: int): (r: int)
    ensures 32 * r <= c < 32 * r + 32
  {
    c / 32
  }

  /** Region and position within it recompose the coordinate. */
  lemma RegionAndSlot(c: int)
    ensures 32 * RegionOf(c) + c % 32 == c
    ensures 0 <= c % 32 < 32
  {
  }

  /** Floor division rounds towards minus infinity: -1 is in region -1,
      31 in region 0 and 32 in region 1. The literals arrive as parameters fixed by `requires`, which keeps the
      proof obligation small for the solver. */
  lemma RegionOfExamples(a: int, b: int, c: int)
    requires a == -1 && b == 31 && c == 32
    ensures RegionOf(a) == -1 && RegionOf(b) == 0 && RegionOf(c) == 1
  {
    assert 32 * -1 <= a < 0;
  }

  /** The region a chunk is stored in. */
  function RegionKey(cx: int, cz: int): (int, int)
  {
    (RegionOf(cx), RegionOf(cz))
  }

  /** Region and slot together identify a chunk: two chunks share both
      exactly when they are the same chunk. */
  lemma ChunkAddressInjective(cx: int, cz: int, cx': int, cz': int)
    ensures RegionKey(cx, cz) == RegionKey(cx', cz') && Region.SlotOffset(cx, cz) == Region.SlotOffset(cx', cz')
        <==> cx == cx' && cz == cz'
  {
    Region.SlotOffsetInjective(cx, cz, cx', cz');
    RegionAndSlot(cx);
    RegionAndSlot(cx');
    RegionAndSlot(cz);
    RegionAndSlot(cz');
  }

  /** `World.read_chunk`: open the chunk's region and read the chunk. A
      region with no file fails to open. */
  function ReadChunk(w: World, cx: int, cz: int, decompress: Chunks.Decompressor): (r: Result<Chunks.Chunk>)
    ensures RegionKey(cx, cz) !in w.files ==> r == Err(NoRegionFile(RegionOf(cx), RegionOf(cz)))
    ensures r.Ok? ==> r.value.cx == cx && r.value.cz == cz && Chunks.Valid(r.value)
  {
    var key := RegionKey(cx, cz);
    if key !in w.files then Err(NoRegionFile(key.0, key.1))
    else Region.ReadChunk(Region.Open(key.0, key.1, w.files[key]), cx, cz, decompress)
  }

  /** `World.write_chunk`: open the chunk's region and write the chunk in
      place. Only that region's file changes. */
  function WriteChunk(w: World, c: Chunks.Chunk, compress: Chunks.Compressor): (r: Result<World>)
    requires Chunks.Valid(c)
    ensures RegionKey(c.cx, c.cz) !in w.files ==> r == Err(NoRegionFile(RegionOf(c.cx), RegionOf(c.cz)))
    ensures r.Ok? <==>
      && RegionKey(c.cx, c.cz) in w.files
      && Region.WriteChunk(Region.Open(RegionKey(c.cx, c.cz).0, RegionKey(c.cx, c.cz).1, w.files[RegionKey(c.cx, c.cz)]), c, compress).Ok?
    ensures r.Ok? ==> r.value.files.Keys == w.files.Keys
    ensures r.Ok? ==> forall key | key in w.files && key != RegionKey(c.cx, c.cz) :: r.value.files[key] == w.files[key]
    ensures r.Ok? ==>
      var key := RegionKey(c.cx, c.cz);
      Region.WriteChunk(Region.Open(key.0, key.1, w.files[key]), c, compress) == Ok(Region.RegionFile(key.0, key.1, Region.Open(key.0, key.1, w.files[key]).header, r.value.files[key]))
  {
    var key := RegionKey(c.cx, c.cz);
    if key !in w.files then Err(NoRegionFile(key.0, key.1))
    else
      match Region.WriteChunk(Region.Open(key.0, key.1, w.files[key]), c, compress)
      case Err(e) => Err(e)
      case Ok(region) => Ok(World(w.files[key := region.file]))
  }

  /** Chunks of other regions read the same after a write. */
  lemma WriteChunkKeepsOtherRegions(w: World, c: Chunks.Chunk, compress: Chunks.Compressor, decompress: Chunks.Decompressor, cx: int, cz: int)
    requires Chunks.Valid(c) && WriteChunk(w, c, compress).Ok?
    requires RegionKey(cx, cz) != RegionKey(c.cx, c.cz)
    ensures ReadChunk(WriteChunk(w, c, compress).value, cx, cz, decompress) == ReadChunk(w, cx, cz, decompress)
  {
  }

  /** Reading a chunk back after writing it gives the chunk written, when
      its sectors lie past the header and decompression undoes compression. */
  lemma ReadAfterWriteChunk(w: World, c: Chunks.Chunk, compress: Chunks.Compressor, decompress: Chunks.Decompressor)
    requires Chunks.Valid(c) && c.root.Some?
    requires decompress(compress(Codec.EncodeNamed(c.root.value))) == Some(Codec.EncodeNamed(c.root.value))
    requires WriteChunk(w, c, compress).Ok?
    requires var key := RegionKey(c.cx, c.cz);
      Region.ReadChunkHeader(Region.Open(key.0, key.1, w.files[key]).header, c.cx, c.cz).value.location >= Region.HeaderSize
    ensures ReadChunk(WriteChunk(w, c, compress).value, c.cx, c.cz, decompress) == Ok(c)
  {
    var key := RegionKey(c.cx, c.cz);
    var region := Region.Open(key.0, key.1, w.files[key]);
    var written := Region.WriteChunk(region, c, compress).value;
    assert WriteChunk(w, c, compress).value.files[key] == written.file;
    Region.ReadChunkAfterWriteChunk(region, c, compress, decompress);
    Region.ReadChunkAfterReopen(region, c, compress, decompress);
  }
}
