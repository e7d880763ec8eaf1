/** A region file (`Region`): a 4096-byte header of 1024 four-byte slots,
    one per chunk of a 32 x 32 block of chunks, each slot holding the
    chunk's sector index (24 bits) and sector count (8 bits); the chunk
    payloads live at those sectors. The file is a byte sequence here, and
    the header is the copy read when the region is opened. */
module Region {
  import opened Bytes
  import opened Results
  import opened Slices
  import Chunks
  import Codec

  const SectorSize: nat := 4096
  const HeaderSize: nat := 4096

  // ---------------------------------------------------------------------
  // Header slots
  // ---------------------------------------------------------------------

  /** The slot of chunk (cx, cz): `4 * ((cx % 32) + (cz % 32) * 32)`.
      Python's `%` by a positive number is never negative, as Dafny's is. */
  function SlotOffset(cx: int, cz: int): (r: nat)
    ensures r % 4 == 0 && r <= HeaderSize - 4
  {
    4 * ((cx % 32) + (cz % 32) * 32)
  }

  /** Two chunks share a slot exactly when their coordinates agree modulo 32. */
  lemma SlotOffsetInjective(cx: int, cz: int, cx': int, cz': int)
    ensures SlotOffset(cx, cz) == SlotOffset(cx', cz') <==> cx % 32 == cx' % 32 && cz % 32 == cz' % 32
  {
    var a, b := cx % 32 + (cz % 32) * 32, cx' % 32 + (cz' % 32) * 32;
    if a == b {
      assert a % 32 == cx % 32 && a / 32 == cz % 32;
      assert b % 32 == cx' % 32 && b / 32 == cz' % 32;
    }
  }

  /** Where a chunk lies: a byte location and a byte size, both whole sectors. */
  datatype Entry = Entry(location: nat, size: nat)

  /** The four slot bytes for a sector index and a sector count. */
  function EncodeEntry(sector: nat, count: nat): (r: seq<byte>)
    requires sector < Pow256(3) && count < 256
    ensures |r| == 4
  {
    EncodeUnsigned(sector, 3) + [count]
  }

  /** `read_chunk_header`: unpack the slot as four unsigned bytes and scale
      by the sector size. A header too short to hold the slot fails, as
      `struct.unpack` does on fewer than four bytes. */
  function ReadChunkHeader(header: seq<byte>, cx: int, cz: int): (r: Result<Entry>)
    ensures r.Ok? <==> SlotOffset(cx, cz) + 4 <= |header|
    ensures r.Err? ==> r.error == Truncated
    ensures r.Ok? ==> r.value.location % SectorSize == 0 && r.value.location < Pow256(3) * SectorSize
    ensures r.Ok? ==> r.value.size % SectorSize == 0 && r.value.size <= 255 * SectorSize
    ensures r.Ok? ==>
      var off := SlotOffset(cx, cz);
      header[off..off + 4] == EncodeEntry(r.value.location / SectorSize, r.value.size / SectorSize)
  {
    var off := SlotOffset(cx, cz);
    if off + 4 > |header| then Err(Truncated)
    else
      var slot := header[off..off + 4];
      EncodeUnsignedOfUnsigned(slot[..3]);
      assert slot == slot[..3] + [slot[3]];
      Ok(Entry(Unsigned(slot[..3]) * SectorSize, slot[3] * SectorSize))
  }

  /** The sector index is `(b1 << 16) + (b2 << 8) + b3`, big-endian. */
  lemma SectorIndexBytes(b1: byte, b2: byte, b3: byte)
    ensures Unsigned([b1, b2, b3]) == b1 * 65536 + b2 * 256 + b3
  {
    assert [b1, b2, b3][..2] == [b1, b2];
    assert [b1, b2][..1] == [b1];
    assert [b1][..0] == [];
    assert Unsigned([b1]) == b1;
    assert Unsigned([b1, b2]) == b1 * 256 + b2;
  }

  /** Reading a slot written as (sector, count) gives back those values, scaled. */
  lemma ReadEncodedEntry(header: seq<byte>, cx: int, cz: int, sector: nat, count: nat)
    requires sector < Pow256(3) && count < 256
    requires SlotOffset(cx, cz) + 4 <= |header|
    requires header[SlotOffset(cx, cz)..SlotOffset(cx, cz) + 4] == EncodeEntry(sector, count)
    ensures ReadChunkHeader(header, cx, cz) == Ok(Entry(sector * SectorSize, count * SectorSize))
  {
    var e := ReadChunkHeader(header, cx, cz).value;
    var off := SlotOffset(cx, cz);
    assert EncodeEntry(sector, count)[..3] == EncodeUnsigned(sector, 3);
    assert EncodeEntry(e.location / SectorSize, e.size / SectorSize)[..3] == EncodeUnsigned(e.location / SectorSize, 3);
    UnsignedInjective(EncodeUnsigned(sector, 3), EncodeUnsigned(e.location / SectorSize, 3));
  }

  /** The slot bytes 00 00 10 02 place a chunk at byte 65536 with 8192 bytes. */
  lemma HeaderExample(header: seq<byte>, cx: int, cz: int)
    requires SlotOffset(cx, cz) + 4 <= |header|
    requires header[SlotOffset(cx, cz)..SlotOffset(cx, cz) + 4] == [0, 0, 0x10, 2]
    ensures ReadChunkHeader(header, cx, cz) == Ok(Entry(65536, 8192))
  {
    assert Pow256(3) == 0x100_0000 by {
      assert Pow256(1) == 256 && Pow256(2) == 65536;
    }
    assert EncodeEntry(16, 2) == [0, 0, 0x10, 2] by {
      assert EncodeUnsigned(0, 1) == EncodeUnsigned(0, 0) + [0];
      assert EncodeUnsigned(0, 2) == EncodeUnsigned(0, 1) + [0];
      assert EncodeUnsigned(16, 3) == EncodeUnsigned(0, 2) + [16];
    }
    ReadEncodedEntry(header, cx, cz, 16, 2);
  }

  // ---------------------------------------------------------------------
  // The region file
  // ---------------------------------------------------------------------

  /** An open region: its coordinates, the header as read at opening, and
      the file's current bytes. */
  datatype RegionFile = RegionFile(rx: int, rz: int, header: seq<byte>, file: seq<byte>)

  /** `Region.__init__`: read up to 4096 bytes of header. */
  function Open(rx: int, rz: int, file: seq<byte>): (r: RegionFile)
    ensures r.file == file && r.rx == rx && r.rz == rz
    ensures |r.header| == if |file| < HeaderSize then |file| else HeaderSize
    ensures r.header == file[..|r.header|]
  {
    RegionFile(rx, rz, Slice(file, 0, HeaderSize), file)
  }

  /** `read_chunk_data`: seek to the location and read `size` bytes, fewer
      if the file ends first (an empty result when it ends before the location). */
  function ReadChunkData(region: RegionFile, cx: int, cz: int): (r: Result<seq<byte>>)
    ensures r.Ok? <==> ReadChunkHeader(region.header, cx, cz).Ok?
    ensures r.Ok? ==>
      var e := ReadChunkHeader(region.header, cx, cz).value;
      |r.value| <= e.size && (e.location + e.size <= |region.file| ==> r.value == region.file[e.location..e.location + e.size])
  {
    match ReadChunkHeader(region.header, cx, cz)
    case Err(err) => Err(err)
    case Ok(e) => Ok(Slice(region.file, e.location, e.location + e.size))
  }

  /** A short read: the chunk's bytes are the part of its sector span that
      lies inside the file, and nothing when the file ends before the location. */
  lemma ReadChunkDataShort(region: RegionFile, cx: int, cz: int)
    requires ReadChunkHeader(region.header, cx, cz).Ok?
    ensures ReadChunkData(region, cx, cz).Ok?
    ensures var e := ReadChunkHeader(region.header, cx, cz).value;
      ReadChunkData(region, cx, cz).value
        == if e.location >= |region.file| then []
           else region.file[e.location..if e.location + e.size > |region.file| then |region.file| else e.location + e.size]
  {
    var e := ReadChunkHeader(region.header, cx, cz).value;
    SliceNonNegative(region.file, e.location, e.location + e.size);
  }

  /** `n` zero bytes. */
  function Zeros(n: nat): (r: seq<byte>)
    ensures |r| == n && forall i | 0 <= i < n :: r[i] == 0
  {
    seq(n, _ => 0)
  }

  /** The file after `seek(at)` and `write(data)`: the bytes from `at` on are
      overwritten, the file grows if the write runs past its end, and a
      seek past the end leaves a gap that reads as zeros. Writing nothing
      changes nothing. */
  function Splice(file: seq<byte>, at: nat, data: seq<byte>): (r: seq<byte>)
    ensures |data| == 0 ==> r == file
    ensures |data| > 0 ==> |r| == if at + |data| > |file| then at + |data| else |file|
    ensures |data| > 0 ==> r[at..at + |data|] == data
    ensures forall i | 0 <= i < |r| && !(at <= i < at + |data|) :: r[i] == if i < |file| then file[i] else 0
  {
    if |data| == 0 then file
    else
      var prefix := if at <= |file| then file[..at] else file + Zeros(at - |file|);
      var suffix := if at + |data| < |file| then file[at + |data|..] else [];
      var r := prefix + data + suffix;
      assert forall i | 0 <= i < |r| && !(at <= i < at + |data|) :: r[i] == if i < |file| then file[i] else 0 by {
        forall i | 0 <= i < |r| && !(at <= i < at + |data|)
          ensures r[i] == if i < |file| then file[i] else 0
        {
          if i < at {
            assert r[i] == prefix[i];
          } else {
            assert r[i] == suffix[i - at - |data|];
          }
        }
      }
      r
  }

  /** `write_chunk_data`: a payload longer than the chunk's recorded size is
      refused; otherwise it is written in place at the recorded location.
      The cached header is not re-read. */
  function WriteChunkData(region: RegionFile, cx: int, cz: int, data: seq<byte>): (r: Result<RegionFile>)
    ensures r.Ok? <==> ReadChunkHeader(region.header, cx, cz).Ok? && |data| <= ReadChunkHeader(region.header, cx, cz).value.size
    ensures ReadChunkHeader(region.header, cx, cz).Ok? && |data| > ReadChunkHeader(region.header, cx, cz).value.size ==>
      r == Err(PayloadTooLarge(|data|, ReadChunkHeader(region.header, cx, cz).value.size))
    ensures r.Ok? ==> r.value.header == region.header && r.value.rx == region.rx && r.value.rz == region.rz
  {
    match ReadChunkHeader(region.header, cx, cz)
    case Err(err) => Err(err)
    case Ok(e) =>
      if |data| > e.size then Err(PayloadTooLarge(|data|, e.size))
      else Ok(region.(file := Splice(region.file, e.location, data)))
  }

  /** A successful write replaces exactly the bytes [location, location + |data|)
      and leaves every other byte of the file as it was. */
  lemma WriteChunkDataSplices(region: RegionFile, cx: int, cz: int, data: seq<byte>)
    requires WriteChunkData(region, cx, cz, data).Ok?
    ensures var loc := ReadChunkHeader(region.header, cx, cz).value.location;
      var file' := WriteChunkData(region, cx, cz, data).value.file;
      && (|data| > 0 ==> file'[loc..loc + |data|] == data)
      && forall i | 0 <= i < |region.file| && !(loc <= i < loc + |data|) :: file'[i] == region.file[i]
  {
  }

  /** When the chunk lies past the header, the header bytes of the file are
      untouched, so reopening the file reads the same slots. */
  lemma WriteKeepsHeader(region: RegionFile, cx: int, cz: int, data: seq<byte>, cx': int, cz': int)
    requires WriteChunkData(region, cx, cz, data).Ok?
    requires ReadChunkHeader(region.header, cx, cz).value.location >= HeaderSize
    requires region.header == Open(region.rx, region.rz, region.file).header
    requires ReadChunkHeader(region.header, cx', cz').Ok?
    ensures var reopened := Open(region.rx, region.rz, WriteChunkData(region, cx, cz, data).value.file);
      ReadChunkHeader(reopened.header, cx', cz') == ReadChunkHeader(region.header, cx', cz')
  {
    var file' := WriteChunkData(region, cx, cz, data).value.file;
    var h, h' := region.header, Open(region.rx, region.rz, file').header;
    var off := SlotOffset(cx', cz');
    assert h'[off..off + 4] == h[off..off + 4] by {
      forall i | off <= i < off + 4
        ensures h'[i] == h[i]
      {
        assert i < |region.file| && file'[i] == region.file[i];
      }
    }
  }

  /** Reading a chunk back after writing it gives the bytes written, followed
      by whatever the rest of its sectors held. */
  lemma ReadAfterWrite(region: RegionFile, cx: int, cz: int, data: seq<byte>)
    requires WriteChunkData(region, cx, cz, data).Ok?
    ensures ReadChunkData(WriteChunkData(region, cx, cz, data).value, cx, cz).Ok?
    ensures var r := ReadChunkData(WriteChunkData(region, cx, cz, data).value, cx, cz).value;
      |data| <= |r| && r[..|data|] == data
    ensures var r := ReadChunkData(WriteChunkData(region, cx, cz, data).value, cx, cz).value;
      var e := ReadChunkHeader(region.header, cx, cz).value;
      e.location + e.size <= |region.file| ==>
        |r| == e.size && r[|data|..] == region.file[e.location + |data|..e.location + e.size]
  {
    var e := ReadChunkHeader(region.header, cx, cz).value;
    var file' := Splice(region.file, e.location, data);
    var r := Slice(file', e.location, e.location + e.size);
    if |data| > 0 {
      var hi := if e.location + e.size > |file'| then |file'| else e.location + e.size;
      assert r == file'[e.location..hi];
      assert r[..|data|] == file'[e.location..e.location + |data|];
    }
    if e.location + e.size <= |region.file| {
      assert r == file'[e.location..e.location + e.size];
      forall k | |data| <= k < e.size
        ensures r[k] == region.file[e.location + k]
      {
        assert r[k] == file'[e.location + k];
      }
    }
  }

  // ---------------------------------------------------------------------
  // Chunks
  // ---------------------------------------------------------------------

  /** `Region.read_chunk`: parse the bytes the chunk's slot points at. */
  function ReadChunk(region: RegionFile, cx: int, cz: int, decompress: Chunks.Decompressor): (r: Result<Chunks.Chunk>)
    ensures ReadChunkHeader(region.header, cx, cz).Err? ==> r == Err(Truncated)
    ensures r.Ok? ==> r.value.cx == cx && r.value.cz == cz && Chunks.Valid(r.value)
  {
    match ReadChunkData(region, cx, cz)
    case Err(e) => Err(e)
    case Ok(raw) => Chunks.Parse(cx, cz, raw, decompress)
  }

  /** `Region.write_chunk`: serialize the chunk and write it in place. */
  function WriteChunk(region: RegionFile, c: Chunks.Chunk, compress: Chunks.Compressor): (r: Result<RegionFile>)
    requires Chunks.Valid(c)
    ensures c.root.None? ==> r == Err(NoRootTag)
    ensures r.Ok? <==>
      && c.root.Some? && ReadChunkHeader(region.header, c.cx, c.cz).Ok?
      && 5 + |compress(Codec.EncodeNamed(c.root.value))| <= ReadChunkHeader(region.header, c.cx, c.cz).value.size
    ensures r.Ok? ==>
      && Chunks.Serialize(c, compress).Ok?
      && r == WriteChunkData(region, c.cx, c.cz, Chunks.Serialize(c, compress).value)
    ensures r.Ok? ==>
      && c.root.Some? && ReadChunkHeader(region.header, c.cx, c.cz).Ok?
      && var loc := ReadChunkHeader(region.header, c.cx, c.cz).value.location;
         var z := compress(Codec.EncodeNamed(c.root.value));
         && loc + 5 + |z| <= |r.value.file|
         && Unsigned(r.value.file[loc..loc + 4]) == |z|
         && r.value.file[loc + 4] == 2
         && r.value.file[loc + 5..loc + 5 + |z|] == z
  {
    match Chunks.Serialize(c, compress)
    case Err(e) => Err(e)
    case Ok(raw) =>
      if WriteChunkData(region, c.cx, c.cz, raw).Err? then WriteChunkData(region, c.cx, c.cz, raw)
      else
        WriteChunkDataSplices(region, c.cx, c.cz, raw);
        FramingAt(WriteChunkData(region, c.cx, c.cz, raw).value.file, ReadChunkHeader(region.header, c.cx, c.cz).value.location, raw);
        WriteChunkData(region, c.cx, c.cz, raw)
  }

  /** The three parts of a chunk frame, found where the frame was written. */
  lemma FramingAt(file: seq<byte>, loc: nat, raw: seq<byte>)
    requires |raw| >= 5 && loc + |raw| <= |file| && file[loc..loc + |raw|] == raw
    ensures file[loc..loc + 4] == raw[..4] && file[loc + 4] == raw[4]
    ensures file[loc + 5..loc + |raw|] == raw[5..]
  {
    assert file[loc..loc + 4] == file[loc..loc + |raw|][..4];
    assert file[loc + 5..loc + |raw|] == file[loc..loc + |raw|][5..];
  }

  /** Through the same open region, a chunk written and read back is the
      chunk written, provided decompression undoes compression. */
  lemma ReadChunkAfterWriteChunk(region: RegionFile, c: Chunks.Chunk, compress: Chunks.Compressor, decompress: Chunks.Decompressor)
    requires Chunks.Valid(c) && c.root.Some?
    requires decompress(compress(Codec.EncodeNamed(c.root.value))) == Some(Codec.EncodeNamed(c.root.value))
    requires WriteChunk(region, c, compress).Ok?
    ensures ReadChunk(WriteChunk(region, c, compress).value, c.cx, c.cz, decompress) == Ok(c)
  {
    var s := Chunks.Serialize(c, compress).value;
    ReadAfterWrite(region, c.cx, c.cz, s);
    var raw := ReadChunkData(WriteChunk(region, c, compress).value, c.cx, c.cz).value;
    assert raw == s + raw[|s|..];
    Chunks.ParseOfSerialize(c, compress, decompress, raw[|s|..]);
  }

  /** Reopening the file after a write past the header finds the same
      slot, so it reads the chunk's bytes as the region that wrote them does. */
  lemma ReadChunkDataAfterReopen(region: RegionFile, cx: int, cz: int, data: seq<byte>)
    requires WriteChunkData(region, cx, cz, data).Ok?
    requires region.header == Open(region.rx, region.rz, region.file).header
    requires ReadChunkHeader(region.header, cx, cz).value.location >= HeaderSize
    ensures var written := WriteChunkData(region, cx, cz, data).value;
      ReadChunkData(Open(region.rx, region.rz, written.file), cx, cz) == ReadChunkData(written, cx, cz)
  {
    var written := WriteChunkData(region, cx, cz, data).value;
    WriteKeepsHeader(region, cx, cz, data, cx, cz);
    hide Splice, WriteChunkData, Slice;
    ReadChunkDataFrame(Open(region.rx, region.rz, written.file), written, cx, cz);
  }

  /** A slot's read depends only on that slot's header entry and the file. */
  lemma ReadChunkDataFrame(a: RegionFile, b: RegionFile, cx: int, cz: int)
    requires a.file == b.file
    requires ReadChunkHeader(a.header, cx, cz) == ReadChunkHeader(b.header, cx, cz)
    ensures ReadChunkData(a, cx, cz) == ReadChunkData(b, cx, cz)
  {
  }

  /** The same for whole chunks. */
  lemma ReadChunkAfterReopen(region: RegionFile, c: Chunks.Chunk, compress: Chunks.Compressor, decompress: Chunks.Decompressor)
    requires Chunks.Valid(c) && WriteChunk(region, c, compress).Ok?
    requires region.header == Open(region.rx, region.rz, region.file).header
    requires ReadChunkHeader(region.header, c.cx, c.cz).value.location >= HeaderSize
    ensures var written := WriteChunk(region, c, compress).value;
      ReadChunk(Open(region.rx, region.rz, written.file), c.cx, c.cz, decompress) == ReadChunk(written, c.cx, c.cz, decompress)
  {
    var s := Chunks.Serialize(c, compress).value;
    assert WriteChunkData(region, c.cx, c.cz, s) == WriteChunk(region, c, compress);
    ReadChunkDataAfterReopen(region, c.cx, c.cz, s);
  }
}
