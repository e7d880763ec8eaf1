# mc_worldgen world storage, modelled in Dafny

This project models `world.py`. It reads and writes chunks of a Minecraft
world saved in the McRegion layout. It has four layers.

- **Tag codec** (`TagInStream`, `TagOutStream`). This is the Named Binary Tag
  layout. There are eleven tag kinds numbered 0..10:
  - fixed-width big-endian scalars;
  - length-prefixed byte arrays and strings;
  - homogeneous lists;
  - compounds of named members ended by an End tag.

  Modules: `Bytes`, `Slices`, `Tags`, `Codec`, `CodecRoundTrip`, `CodecFacts`.
- **Chunk framing** (`Chunk`). A chunk is stored as a 4-byte length, the
  scheme byte 2, then the compressed encoding of one root tag. Its block
  array and block-data array are the `Blocks` and `Data` members of the
  root's `Level` compound. Module `Chunks`.
- **Voxels** (`ChunkBlocks`, `ChunkBlockData`, `split_nibble`, `join_nibble`).
  Block (x, y, z) of a 16 x 128 x 16 chunk sits at offset
  `y + 128 z + 2048 x`. Block ids are one byte each; block data is one nibble
  each. Module `Blocks`.
- **Region store** (`Region`, `World`). A region file starts with a 4096-byte
  header of 1024 slots, one per chunk of a 32 x 32 area. Each slot holds a
  24-bit sector index and an 8-bit sector count (sectors are 4096 bytes).
  A chunk is written in place and only if it fits in its recorded size.
  Modules `Region` and `Worlds`.

Data are immutable values:
- a file is a `seq<byte>`;
- a tag is a `NamedTag` tree;
- the reader's stream position is an explicit argument and result.

Python's exceptions (`KeyError`, `IndexError`, `struct.error`, the "Read out of
stream." exception, the "Unable to write larger data" exception) become `Err`
values of `Results.Error`. Python's integer semantics are written out:
- floor `//` and `%`;
- clamped slices (`Slices.Slice`);
- negative indices counting from the end (`Blocks.PyIndex`).

The main results are:
- `CodecRoundTrip.RoundTrip`: decoding what the encoder wrote gives the tree
  back, whatever bytes follow it.
- `CodecFacts.DecodedNamedWellFormed`: every decoded tree can be encoded.
- `Chunks.ParseOfSerialize`: a serialized chunk parses back, including
  trailing sector bytes.
- `Region.ReadChunkAfterWriteChunk` and `Worlds.ReadAfterWriteChunk`: a
  chunk written into a world reads back unchanged.
- The block and nibble get-after-set and frame lemmas, both on raw arrays
  and through the chunk's tree.

The code differs from the documented design of the region store in three
places. The model follows the code:
- `Chunk.__init__` does not check the scheme byte (world.py:194-195).
- `write_chunk_data` raises on a payload larger than the chunk's sectors.
  It does not relocate the chunk to the end of the file, and it never
  rewrites the header (world.py:33-38).
- It writes the payload without zero-padding it to a sector boundary. Bytes
  left over from a longer earlier payload stay in the sector. The chunk
  container's own length field makes them harmless on reading
  (`Chunks.ParseOfSerialize` takes arbitrary trailing bytes).

## Model

| member | source | states |
|---|---|---|
| Bytes.EncodeUnsigned | world.py:160-161 | packing an unsigned value into a big-endian field of `width` bytes gives exactly `width` bytes, which unpack to the value |
| Bytes.UnsignedInjective | world.py:107-109 | two fields of one width with the same unsigned value are the same bytes: the big-endian representation is unique |
| Bytes.EncodeUnsignedOfUnsigned | world.py:107-109 | re-packing an unpacked field gives the original bytes |
| Bytes.ToSigned | world.py:107-109 | the two's-complement reading lies in the signed range of the width, is negative exactly when the field is in the upper half, and equals the field value modulo 256^width |
| Bytes.FromSigned | world.py:160-161 | the field value of a signed integer fits the width and is congruent to it |
| Bytes.SignedRoundTrip | world.py:107-161 | reading a packed signed value gives the value back |
| Bytes.UnsignedRoundTrip | world.py:107-161 | packing a read signed value gives the field back |
| Bytes.EncodeSigned | world.py:160-161 | a signed value packed into `width` bytes reads back as that value |
| Slices.Slice | world.py:101 | Python's `data[a:b]` never fails, is the subsequence when the bounds are in range, and is no longer than the data or than `b - a` |
| Slices.SliceNonNegative | world.py:27-28 | a read of `size` bytes at `at` is the overlap of [at, at + size) with the file, and is empty past the end |
| Tags.KindId | world.py:55-70 | every kind has an id in 0..10 that the `tag_types` lookup maps back to it |
| Tags.KindOfId | world.py:86 | the `tag_types` lookup succeeds exactly on ids 0..10 |
| Tags.KindIdOfKindOfId | world.py:86 | the lookup inverts the numbering on every id it accepts |
| Tags.Children | world.py:92-93 | in the `children` dictionary the last member's name selects the last member |
| Tags.ChildrenKeys | world.py:93 | the dictionary's keys are exactly the member names |
| Tags.ChildrenLastWins | world.py:93 | a name selects the last member carrying it, so later duplicates overwrite earlier ones |
| Tags.ChildrenKeysNamed | world.py:93 | every entry is filed under its own name |
| Tags.Child | world.py:93 | `children[name]` returns a member carrying that name |
| Tags.ChildIsLastNamed | world.py:93 | `children[name]` fails exactly when no member has the name, and otherwise gives the last member with it |
| Tags.LastIndexOf | world.py:93 | the position found holds the name and no later member holds it |
| Tags.ChildOfReplaced | world.py:93 | after the member a name selects is replaced, that name selects the replacement and every other name selects what it did before |
| Tags.ReplaceChildKeeps | world.py:93 | the replacement puts the new tag at the last member carrying the name and keeps every other member in place |
| Codec.ReadBytes | world.py:100-105 | `read_bytes` succeeds exactly when a non-negative `length` bytes remain, returns those bytes, and advances by `length`; too few bytes is a truncation error |
| Codec.ReadUnsigned | world.py:107-109 | an unsigned `struct` read succeeds exactly when `width` bytes remain, advances by `width`, and yields a value below 256^width |
| Codec.ReadUnsignedBytes | world.py:107-109 | the bytes consumed are the packing of the value read |
| Codec.ReadSigned | world.py:107-109 | a signed `struct` read succeeds exactly when `width` bytes remain, advances by `width`, and yields a value in the signed range |
| Codec.ReadSignedBytes | world.py:107-109 | the bytes consumed are the two's-complement packing of the value read |
| Codec.ReadName | world.py:141 | a name read consumes its 16-bit length and that many bytes, stays within the data and is at most 65535 bytes long |
| Codec.ReadNameBytes | world.py:141 | the bytes consumed are the name's field as `write_named_tag` writes it |
| Codec.DecodeNamed | world.py:136-151 | `read_named_tag` consumes at least the kind byte and never reads past the data |
| Codec.DecodePayload | world.py:111-134 | `read_tag` of kind `k` yields a payload of kind `k` and stays within the data |
| Codec.DecodeScalar | world.py:114-115 | a `simple_tags` scalar succeeds exactly when its format's width remains, consumes exactly that width and has the requested kind |
| Codec.DecodeByteString | world.py:116-118 | a String (`h` length) or ByteArray (`i` length) has the requested kind and stays within the data |
| Codec.ReadListHeader | world.py:120-121 | a list head is five bytes and its element count fits a signed 32-bit field |
| CodecFacts.NegativeCountIsEmpty | world.py:120-122 | a list head whose count is negative decodes as an empty list of its element kind, five bytes long, since `range` of a negative count is empty |
| Codec.DecodeList | world.py:119-122 | a list read yields a List payload and stays within the data |
| Codec.DecodeItems | world.py:122 | exactly the requested number of elements are read, each of the list's element kind; their order is stated by CodecFacts.ItemsParts |
| CodecFacts.ItemsParts | world.py:122 | the elements are read in order: the first where the list head ends, the rest from where the first ends |
| Codec.DecodeMembers | world.py:123-132 | a member loop consumes at least one byte and stays within the data |
| CodecFacts.NamedEndByte | world.py:138-143 | a named tag that decodes as End is the single byte 0, with no name |
| CodecFacts.MembersEndWithZero | world.py:125-128 | the last byte a member loop consumes is the 0 of the End tag that stopped it |
| Codec.EncodeNamed | world.py:181-188 | `write_named_tag` starts with the tag's kind byte, and an End tag is that byte alone; CodecFacts.NamedHeaderLayout states the name field, CodecFacts.CompoundFraming and CodecFacts.EndEncoding the payload framing, and CodecRoundTrip.RoundTrip that the whole reads back |
| CodecFacts.NamedHeaderLayout | world.py:181-186 | after the kind byte come the name's length as an unsigned 16-bit big-endian integer, then the name |
| Codec.EncodePayload | world.py:162-179 | `write_tag` writes nothing exactly for End, a 4-byte length before a ByteArray's bytes and a 2-byte length before a String's; CodecRoundTrip.PayloadRoundTrip states that every payload reads back |
| Codec.EncodeScalar | world.py:164-165 | a scalar is written in exactly the width of its `struct` format; CodecRoundTrip.ScalarRoundTrip states that it reads back |
| Codec.EncodeItems | world.py:173-174 | a list's items write nothing exactly when every item is End; CodecRoundTrip.ItemsRoundTrip states that they read back in order |
| Codec.EncodeMembers | world.py:176-179 | a compound's member list always ends with the End byte 0; CodecFacts.CompoundFraming gives the whole layout |
| CodecRoundTrip.RoundTrip | world.py:111-188 | `read_named_tag` over `write_named_tag(t)` followed by any bytes gives back `t` and stops exactly at the end of its encoding |
| CodecRoundTrip.NamedRoundTrip | world.py:136-188 | a named tag's encoding, found at any position, decodes to the tag and ends where the encoding ends |
| CodecRoundTrip.PayloadRoundTrip | world.py:111-179 | every well-formed payload's encoding decodes back to it, consuming exactly the encoding |
| CodecRoundTrip.ScalarRoundTrip | world.py:114-165 | a scalar's `struct` field reads back as the same scalar |
| CodecRoundTrip.StringRoundTrip | world.py:116-168 | a String's length prefix and bytes read back as the same string |
| CodecRoundTrip.ByteArrayRoundTrip | world.py:116-168 | a ByteArray's length prefix and bytes read back as the same array |
| CodecRoundTrip.ListRoundTrip | world.py:119-174 | a list's head and elements read back as the same list |
| CodecRoundTrip.ItemsRoundTrip | world.py:122-174 | the concatenated element payloads read back as the same elements, in order |
| CodecRoundTrip.MembersRoundTrip | world.py:123-179 | compound members and their End byte read back as the same members |
| CodecRoundTrip.ReadListHeaderAt | world.py:120-172 | the head written for a list reads back as its element kind and count |
| CodecRoundTrip.ReadNameAt | world.py:141-186 | a written name field reads back as the name |
| CodecFacts.EmptyIsTruncated | world.py:138 | with no bytes left the kind byte itself is missing: a truncation error |
| CodecFacts.UnknownNamedKind | world.py:138 | a kind byte above 10 fails the `tag_types` lookup with that id |
| CodecFacts.UnknownListKind | world.py:120 | a list element kind outside 0..10, read as a signed byte, fails the lookup with that id |
| CodecFacts.ListHeaderFailure | world.py:120-121 | a list whose head cannot be read fails with the head's error |
| CodecFacts.EndEncoding | world.py:179-186 | an End tag is the single byte 0, and an empty compound's payload is that byte alone |
| CodecFacts.EndDecoding | world.py:126-143 | a 0 byte reads as the nameless End tag after one byte and ends a member list there |
| CodecFacts.CompoundFraming | world.py:175-179 | a compound's payload is its members' encodings in order, then one 0 byte |
| CodecFacts.DecodedNamedWellFormed | world.py:136-151 | every tree `read_named_tag` returns is one `write_named_tag` can write: fields in range, items of the declared kind, no End members |
| CodecFacts.DecodedPayloadWellFormed | world.py:111-134 | every payload `read_tag` returns is writable |
| CodecFacts.LeafPayloadWellFormed | world.py:114-118 | decoded scalars, strings and byte arrays are within the writer's ranges |
| CodecFacts.CompoundExample | world.py:123-188 | the nameless compound holding Byte "A" = 127 encodes as `0A 00 00 01 00 01 41 7F 00` and decodes back from it |
| CodecFacts.NegativeLengthRejected | world.py:100-105 | on the input `0A 00 00 08 00 00 FF FB` the String length -5 is refused instead of rewinding the stream |
| StreamAsWritten.ReadBytes | world.py:100-105 | `read_bytes` as written: advances by `length` whatever its sign, and fails only with a truncation error |
| StreamAsWritten.AgreesOnNonNegativeLengths | world.py:100-105 | for non-negative lengths the as-written reader and `Codec.ReadBytes` agree result for result |
| StreamAsWritten.NegativeLengthRewinds | world.py:100-105 | a negative length is accepted and moves the position backwards |
| StreamAsWritten.ReadUnsigned | world.py:107-109 | the as-written field read advances by the width and yields a value of that width |
| StreamAsWritten.ReadSigned | world.py:107-109 | the as-written signed read advances by the width and yields a value in the signed range |
| StreamAsWritten.ReadStringMember | world.py:136-147 | `read_named_tag` as written, for a String member: from a non-negative position the kind it reports is the byte there; StreamAsWritten.StringMemberStalls shows where a negative length leaves the stream |
| StreamAsWritten.StringMemberStalls | world.py:116-130 | a String member with length -5 reads as a non-End member and leaves the stream where the member started, so the compound loop never ends |
| Blocks.Coordinates | world.py:211 | every offset below 32768 is the offset of exactly one in-chunk block, which this function recovers |
| Blocks.OffsetsDetermine | world.py:211 | two in-chunk blocks with the same offset are the same block |
| Blocks.BlockIndexInRange | world.py:211 | an in-chunk block's offset is below 32768, and the offset determines the block |
| Blocks.PyIndex | world.py:211 | Python indexing succeeds exactly on [-n, n) and counts negative indices from the end |
| Blocks.GetBlock | world.py:210-211 | `blocks[x, y, z]` succeeds exactly when the offset is a valid Python index and returns the byte there; otherwise an index error |
| Blocks.SetBlock | world.py:213-214 | `blocks[x, y, z] = v` succeeds exactly when the offset is a valid index and v fits a byte, keeping the array's length |
| Blocks.GetAfterSetBlock | world.py:210-214 | a stored block reads back |
| Blocks.SetBlockFrame | world.py:213-214 | storing a block changes no other array slot |
| Blocks.SetBlockOthers | world.py:210-214 | on a full array, storing a block leaves every other block as it was |
| Blocks.SplitNibble | world.py:216-217 | the two halves are below 16 and recompose the byte |
| Blocks.JoinNibble | world.py:219-220 | joining keeps the low four bits of each argument: splitting the result gives them back |
| Blocks.JoinOfSplit | world.py:216-220 | joining the halves of a byte gives the byte |
| Blocks.SplitOfJoin | world.py:216-220 | splitting the join of two nibbles gives the nibbles |
| Blocks.NibbleByteInRange | world.py:227-228 | an in-chunk block's nibble byte is below 16384 |
| Blocks.GetData | world.py:226-228 | `block_data[x, y, z]` succeeds exactly when `offset >> 1` is a valid index and gives the low or high nibble by the offset's parity |
| Blocks.SetData | world.py:230-234 | `block_data[x, y, z] = v` succeeds exactly when `offset >> 1` is a valid index, keeping the array's length |
| Blocks.GetAfterSetData | world.py:230-234 | a stored nibble reads back as the value's low four bits |
| Blocks.SetDataFrame | world.py:230-234 | storing a nibble leaves the other half of its byte and every other byte's nibbles unchanged |
| Blocks.SetDataOtherBytes | world.py:230-234 | storing a nibble changes no byte but the one addressed |
| Blocks.SetDataOthers | world.py:226-234 | on a full array, storing one block's nibble leaves every other block's nibble as it was |
| Chunks.LevelMembers | world.py:197 | `root_tag.children['Level']` succeeds exactly when the root is a compound whose `Level` member is a compound |
| Chunks.ArrayMember | world.py:197-198 | a member's payload serves as a byte array exactly when the member exists and is a ByteArray or String, and then it is that payload's bytes |
| Chunks.Arrays | world.py:196-198 | a chunk's `blocks` and `block_data` are the `Blocks` and `Data` payloads of `Level`, and exist exactly when both are reachable |
| Chunks.Parse | world.py:191-198 | empty data is a chunk without a tree; 1 to 3 bytes are truncated; a parsed chunk keeps its coordinates and holds a writable tree with both arrays |
| Chunks.Serialize | world.py:200-204 | the frame is the compressed length as 4 big-endian bytes, the scheme byte 2, then the compressed encoding; a length beyond 32 bits is an error |
| Chunks.ParseOfSerialize | world.py:191-204 | parsing a serialized chunk, followed by any bytes, gives the chunk back when decompression undoes compression |
| Chunks.WithArray | world.py:197-198 | an in-place array store (world.py:214, 234), seen through the tree it aliases: the root keeps its name and the `Level` member holds the new bytes; Chunks.WithArrayLevel and Chunks.WithArrayValid state the rest |
| Chunks.ArrayMemberOfWithArray | world.py:197-198 | editing an array through the tree makes that member hold the new bytes, and every other array member reads as before |
| Chunks.WithArrayLevel | world.py:197-198 | an array store through the aliased tree replaces only the last `Level` member carrying the name, keeping its kind; every other `Level` member, array or not, is unchanged |
| Chunks.ReplaceWellFormed | world.py:93 | replacing a member by a writable tag of the same name keeps a compound writable |
| Chunks.WithArrayValid | world.py:197-198 | a length-preserving array edit keeps the tree writable and both arrays reachable |
| Chunks.SetBlock | world.py:213-214 | storing a block through a chunk succeeds exactly when the array store does, and keeps the chunk valid |
| Chunks.SetData | world.py:230-234 | storing a nibble through a chunk succeeds exactly when the array store does, and keeps the chunk valid |
| Chunks.SetBlockArrays | world.py:213-214 | a block store changes the tree's block array as `ChunkBlocks` does and leaves its data array alone |
| Chunks.SetDataArrays | world.py:230-234 | a nibble store changes the tree's data array as `ChunkBlockData` does and leaves its block array alone |
| Chunks.GetAfterSetBlock | world.py:210-214 | after a block store the block reads back and every nibble reads as before |
| Chunks.GetAfterSetData | world.py:226-234 | after a nibble store the nibble reads back as four bits and every block reads as before |
| Region.SlotOffset | world.py:17 | a chunk's slot is a 4-aligned offset inside the 4096-byte header |
| Region.SlotOffsetInjective | world.py:17 | two chunks share a slot exactly when their coordinates agree modulo 32 |
| Region.ReadChunkHeader | world.py:16-23 | a slot reads exactly when the header holds it; location and size are whole sectors, below 2^24 and 256 sectors, and the slot bytes are their encoding |
| Region.SectorIndexBytes | world.py:21 | the 3-byte sector index is `(b1 << 16) + (b2 << 8) + b3` |
| Region.ReadEncodedEntry | world.py:16-23 | a slot written as (sector, count) reads as location 4096 sector and size 4096 count |
| Region.HeaderExample | world.py:16-23 | slot bytes `00 00 10 02` place a chunk at byte 65536 with 8192 bytes |
| Region.Open | world.py:11-14 | the header is the file's first 4096 bytes, or all of a shorter file |
| Region.ReadChunkData | world.py:25-28 | a chunk's bytes are its sectors' span of the file, at most `size` bytes, fewer when the file ends first |
| Region.ReadChunkDataShort | world.py:25-28 | on a short file the read gives the part of the sector span inside the file, and nothing when the file ends before the location |
| Region.Splice | world.py:37-38 | `seek` then `write` puts the data at the offset, grows the file when needed, fills a gap past the end with zeros and keeps every other byte |
| Region.WriteChunkData | world.py:33-38 | a write succeeds exactly when the data fits the recorded size; a larger payload is refused with its size; the cached header is kept |
| Region.WriteChunkDataSplices | world.py:33-38 | a write replaces exactly the bytes [location, location + length) and no other byte of the file |
| Region.WriteKeepsHeader | world.py:33-38 | a write to sectors past the header leaves every slot as reopening the file reads it |
| Region.ReadAfterWrite | world.py:25-38 | reading a chunk back after writing it gives the bytes written; when the sectors lay inside the old file, it gives exactly the sectors' length, with the old sector bytes after the bytes written |
| Region.ReadChunkDataFrame | world.py:25-28 | a chunk's read depends only on its slot and the file |
| Region.ReadChunk | world.py:30-31 | a chunk read from a region has the requested coordinates and is valid; an unreadable slot is a truncation error |
| Region.WriteChunk | world.py:33-41 | writing a chunk succeeds exactly when it has a tree, its slot reads and the 5-byte frame head plus the compressed tree fit the slot's recorded size; it then puts at the slot's location the 4-byte big-endian length of the compressed tree, the compression byte 2, then the compressed tree; a chunk without a tree cannot be written |
| Region.ReadChunkAfterWriteChunk | world.py:30-41 | through the same region a chunk written reads back unchanged when decompression undoes compression |
| Region.ReadChunkDataAfterReopen | world.py:25-38 | after a write past the header a fresh region on the file reads the chunk's bytes as the writer does |
| Region.ReadChunkAfterReopen | world.py:30-41 | after a write past the header a fresh region on the file reads the chunk as the writer does |
| Worlds.RegionOf | world.py:243 | `c // 32` is the region whose 32 chunks contain c, also for negative c |
| Worlds.RegionAndSlot | world.py:243 | region and position in the region recompose the coordinate |
| Worlds.RegionOfExamples | world.py:243 | chunk -1 is in region -1, 31 in region 0 and 32 in region 1 |
| Worlds.ChunkAddressInjective | world.py:243 | two chunks have the same region and slot exactly when they are the same chunk |
| Worlds.ReadChunk | world.py:242-243 | a chunk read from the world has the requested coordinates and is valid; a missing region file is an error naming the region |
| Worlds.WriteChunk | world.py:245-246 | writing a chunk succeeds exactly when its region file exists and the region write succeeds, and rewrites only that region's file, as the region write does |
| Worlds.WriteChunkKeepsOtherRegions | world.py:245-246 | chunks of other regions read the same after a write |
| Worlds.ReadAfterWriteChunk | world.py:242-246 | a chunk written into the world reads back unchanged, given decompression undoes compression and the chunk's sectors lie past the header |

## Left out

- File I/O: the file is a byte sequence. Paths are left out (world.py:13, world.py:239), and so are open modes. `Region.__init__` opening a missing file becomes `NoRegionFile`.
- `RegionDict` caching (world.py:43-49): `__missing__` returns a new `Region` without storing it, so every access re-reads the header from the file. `Worlds` opens the region afresh each time.
- zlib: `compress` and `decompress` are function parameters. The read-after-write lemmas assume decompression undoes compression.
- Float and Double payloads keep their IEEE-754 bit patterns uninterpreted. Python would convert them to floats and back, which keeps every non-NaN value.
- The debug `print` statements of `read_named_tag` (world.py:145, world.py:149) and `main` (world.py:248-266) are left out: output only.
- Codec.EncodeNamed: the writer is modelled only on well-formed trees; `WellFormed` is a precondition. It excludes two kinds of tree. In the first, Python raises: an out-of-range scalar or an over-long string makes `struct.pack` fail. In the second, Python writes bytes without raising, but they do not read back as the tree. A compound member of kind End is written as a bare 0 byte and ends the compound early (world.py:176-177, 182-184). A list item whose kind differs from the list's element kind is written under its own kind (world.py:171-174). A root End tag with a non-empty name is written as the bare byte 0 (world.py:183-184) and reads back without its name.
- Chunks.Parse: a `Blocks` or `Data` member that is neither a ByteArray nor a String is rejected when parsing (`MissingMember`). Python keeps whatever `read_tag` returned (world.py:197-198). A List payload is the pair `(list_type, items)`, and a Compound payload is a Python list of tags (world.py:122, 132). Indexing either succeeds for small offsets: offset 0 of a list payload gives its element kind, and `__setitem__` on a compound's list stores the value there (world.py:211, 214). Only scalar and End payloads fail at the first access. A non-array `Data` also fails there, since `split_nibble` needs an integer (world.py:228). None of this is modelled.
- Region.ReadChunkAfterReopen and Worlds.ReadAfterWriteChunk assume the chunk's location is past the 4096-byte header. A slot pointing into the header would overwrite slots on writing.
- Concurrent access to a region file is left out: one writer at a time.

## Findings

| source | as written | input that shows it | evidently intended | confidence | as-written member | corrected member |
|---|---|---|---|---|---|---|
| world.py:100-105 | `read_bytes` checks only `len(result) < length`, which a negative length always passes, and then moves `p` back by that length | a nameless compound `0A 00 00` whose first member is a String with length `FF FB` (-5): after reading the member the stream is back at its start, and the compound loop re-reads it forever | a negative length is rejected. The model's decoder rejects every negative String or ByteArray length, including inputs on which Python returns a tree: on `0A 00 00 09 00 00 08 00 00 00 01 FF F4` the rewind by 12 puts `p` back at offset 1, the `00` there reads as End, and Python returns a tree after 2 bytes, where the model gives `NegativeLength(-12)` | not executed | StreamAsWritten.StringMemberStalls | CodecFacts.NegativeLengthRejected |
