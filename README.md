# Chunk format: a verified model

This project models the core of a small C library for "chunks", a compact
self-describing binary encoding of typed scalars and nested containers.

A chunk is one header byte, then a length field, then a payload:

- the low nibble of the header byte is the type code (`chunk.h:6-21`: UNDEF 0 …
  UTF8 11, REF 12, SET 13);
- the high nibble is the number of length bytes that follow;
- the length bytes hold the payload length little-endian;
- then come that many payload bytes.

A SET's payload is its items' chunks back to back, with no gaps. A SET header
always reserves 8 length bytes. Other types use the smallest width that holds
the length.

The model is split by source file:

| module (file) | source | what it holds |
|---|---|---|
| `Bytes` (bytes.dfy) | chunk.c:47-51 | bytes, powers of 256, little-endian values read in place and written |
| `ChunkCodec` (chunk_codec.dfy) | chunk.h, chunk.c:3-17 | the type codes, the width table, the minimal length width, header encoding and decoding, `chunk_write_header` / `chunk_make` on an array |
| `ChunkSet` (chunk_set.dfy) | chunk.h:97-134 | counting a set's items, an item's byte offset, the nth item, the offset a path of indices leads to |
| `ChunkTree` (chunk_tree.dfy) | chunk.c:54-65 | a buffer read as a tree; pre-order listing; chunk counts; path selection; the addressing functions read against the tree |
| `ChunkWalk` (chunk_walk.dfy) | chunk.c:39-68 | `chunk_walk_pointer`: the byte-by-byte header loop and the pre-order walk with its `remaining` loop |
| `Ast` (ast.dfy) | ast.c | `object_counter` and `ast_build` |
| `ChunkNodes` (chunk_node.dfy) | chunk_node.c, chunk_node.h | the node record, a node heap, and `chunk_node_make` / `_init` / `_construct` / `_build` |
| `Bitwise` (bitwise.dfy) | bitwise.h | `BIT_TEST`, `BIT_SET`, `BIT_UNSET` on a `uint8_t` flag byte |
| `Vectors` (test_vectors.dfy) | t/test_chunk.c, t/test_chunk_node.c, t/test_chunk_build.c, test.c | the repository's test buffers and expected values, proved |

Modelling choices:

- Bytes are `u8` (0..255). Lengths and offsets are unbounded naturals. A
  `uint64_t` length input carries `requires length < Pow256(8)`.
- `chunk_t` is the datatype `ChunkCodec.Chunk`. Its `address` and `data`
  pointers are offsets into the buffer.
- The implementations of `chunk_nr_length_bytes`, `chunk_write_header`,
  `chunk_make`, `chunk_decode`, `chunk_set_nr_items`,
  `chunk_set_item_byte_offset`, `chunk_set_get_nth` and `chunk_byte_offset`
  are not part of this model's sources. Their behaviour is taken from the
  doc comments in chunk.h and from the exact values the tests check.
- `chunk_decode` is bounds-checked. It gives `OutOfBounds` when the header
  runs past the buffer and `UnsupportedWidth` when the width nibble is above
  8. The C code reads unchecked.
- Failure values are the model's own choice where the C has none.
  `chunk_set_nr_items` is declared to return a `uint64_t` with no failure
  value; the model returns `None` for a non-set or a malformed payload. The
  offset functions are documented only as returning a byte offset;
  t/test_chunk.c:184, 204 and 238 show 0 for an index past the end, and
  t/test_chunk.c:200 shows 0 for a path through an item that is not a set.
  0 for a `chunk_set_item_byte_offset` argument that is not a set, or for a
  malformed payload, is the model's own choice.
  `chunk_set_get_nth` gives `None` where the C returns 0.
- chunk.c is an older snapshot of the format. Its container code is
  `CHUNK_TYPE_CHUNK` = 12 (test.c writes containers as `0x1c`), and it calls
  the data length `length`. `ChunkTree.Parse` takes the container code as a
  parameter. The walk and `ast_build` use 12. The node builder and the
  addressing functions use chunk.h's SET = 13.
- The width table follows chunk.c. UTF8 has width 1. Code 12 has width 0.
  The table ends at code 12. For codes 13 to 15, where C would read past the
  array, the model gives `None`.
- The walk's callback and its `void* payload` are a pure function from a
  chunk and the old payload state to the new state. The walk's result is
  that function folded over the tree's chunks in pre-order.
- The node heap is a class whose field is a sequence of node records. A
  pointer is `Null` or an index into that sequence. `malloc` appends. A SET's
  children array is a run of consecutive indices.
- `BIT_SET` / `BIT_UNSET` return the byte's new value. The byte is promoted
  to a 32-bit `int` for the shift, and the result is cut back to 8 bits.

## Model

| member | source | states |
|---|---|---|
| `ChunkCodec.BytesPerType` | chunk.c:3-17 | the width table has entries for codes 0 to 12 only; uint8, int8 and utf8 have width 1; uint16 and int16 2; uint32, int32 and float32 4; uint64, int64 and float64 8; undef and code 12 have width 0 |
| `ChunkCodec.NrLengthBytes` | chunk.h:52-61 | the width is at least 1, the length fits in it, and one byte fewer would not hold it (minimality) |
| `ChunkCodec.NrLengthBytesUnique` | chunk.h:52-61 | any width that holds the length and is minimal is the one computed |
| `ChunkCodec.NrLengthBytesAtMost8` | chunk.h:61 | a 64-bit length never needs more than 8 length bytes |
| `ChunkCodec.HeaderWidth` | chunk.h:63-71 | a SET reserves 8 length bytes; every other type uses the minimal width; the length always fits |
| `ChunkCodec.EncodeHeader` | chunk.h:73-82 | the header is one type/width byte followed by exactly the width `HeaderWidth` chooses; its fields are stated by `EncodeHeaderFields` and its round trip by `DecodeEncode` / `EncodeDecode` |
| `ChunkCodec.EncodeHeaderFields` | chunk.h:73-82 | the encoded header byte has the type in its low nibble and the width in its high nibble; the bytes after it read back little-endian as the length |
| `ChunkCodec.Decode` | chunk.h:84-95 | a decoded header sits at the given address; total length = 1 + length bytes + data length; the payload starts right after the header and inside the buffer; at most 8 length bytes |
| `ChunkCodec.DecodeFails` | chunk.h:84-95 | decoding fails with UnsupportedWidth exactly when the width nibble exceeds 8; otherwise it fails with OutOfBounds exactly when the header does not fit the buffer |
| `ChunkCodec.DecodedFields` | chunk.c:41-52 | type = low nibble, length bytes = high nibble, data length = little-endian value of the bytes after the header byte |
| `ChunkCodec.DecodeEncode` | chunk.h:73-95 | decoding an encoded header, wherever it sits and whatever follows, gives back its type, width and length |
| `ChunkCodec.EncodeDecode` | chunk.h:73-95 | a decoded header whose width is the encoder's choice is exactly the encoder's bytes |
| `ChunkCodec.WriteHeader` | chunk.h:63-71 | writes exactly the encoded header at the given offset, leaves every other byte alone, and returns the offset where the payload begins |
| `ChunkCodec.Make` | chunk.h:73-82 | writes the header of a proto chunk's type and data length and returns the payload offset |
| `ChunkCodec.WriteLengthBytes` | chunk.h:63-71 | the length part of chunk_write_header: writes the length as its little-endian bytes, the layout the loop at chunk.c:47-51 reads back, and changes nothing else |
| `Bytes.LeBytesOfValue` | chunk.c:47-51 | reading a little-endian byte string and writing its value at the same width gives the same bytes |
| `Bytes.LeReadStep` | chunk.c:48-50 | one step of the length loop: byte i adds byte·256^i to the value of the first i bytes |
| `Bytes.LeReadValue` | chunk.c:47-51 | reading n bytes in place is the little-endian value of that slice |
| `ChunkSet.ScanItemsSound` | chunk.h:97-104 | the items a scan finds are decoded back to back from the payload start and end exactly at the payload end |
| `ChunkSet.ScanItemsComplete` | chunk.h:97-104 | any gap-free run of items that ends exactly at the payload end is what the scan finds |
| `ChunkSet.ConsecutiveAt` | chunk.h:97-104 | item i of a gap-free run starts at the run's start plus the total lengths of the items before it |
| `ChunkSet.CountItemsScans` | chunk.h:128-134 | counting header by header succeeds exactly when the scan does, and counts its items |
| `ChunkSet.SkipItemsSpan` | chunk.h:97-104 | stepping over k items lands where the first k items end |
| `ChunkSet.NrItems` | chunk.h:128-134 | chunk_set_nr_items; its meaning is stated by `NrItemsMeaning` |
| `ChunkSet.NrItemsMeaning` | chunk.h:128-134 | the count is the number of the set's items, None for a non-set or a malformed payload; a counted set lies in the buffer and has no more items than payload bytes |
| `ChunkSet.ItemByteOffset` | chunk.h:97-104 | chunk_set_item_byte_offset; its meaning is stated by `ItemByteOffsetMeaning` |
| `ChunkSet.ItemByteOffsetMeaning` | chunk.h:97-104 | the offset is non-zero exactly for idx up to the item count of a well-formed set; it equals header size plus the total lengths of the items before idx; it leads to item idx, and idx equal to the count gives the set's total length |
| `ChunkSet.GetNth` | chunk.h:106-116 | chunk_set_get_nth; its meaning is stated by `GetNthMeaning` |
| `ChunkSet.GetNthMeaning` | chunk.h:106-116 | an item is found exactly when the chunk is a well-formed set with more than nth items, and it is item nth, at the offset chunk_set_item_byte_offset gives |
| `ChunkSet.ByteOffset` | chunk.h:118-126 | chunk_byte_offset; stated level by level by `ByteOffsetStep`, `ByteOffsetDeeper` and `ByteOffsetNotSet`, and against the parsed tree by `ChunkTree.ByteOffsetLocates` |
| `ChunkSet.ByteOffsetStep` | chunk.h:118-126 | one level of a path: an index beyond the count gives 0; a last index equal to the count gives the set's end; a last index below it gives that item's offset; a deeper path through the end gives 0 |
| `ChunkSet.ByteOffsetDeeper` | chunk.h:118-126 | a longer path continues from the item its first index names and adds that item's offset, or gives 0 if the rest fails |
| `ChunkSet.ByteOffsetNotSet` | chunk.h:118-126 | a path through a chunk that is not a well-formed set gives 0 |
| `ChunkTree.Parse` | chunk.c:54-65 | a parsed tree's top chunk starts at the given offset and ends within the limit; its items are stated by `ParsedRun` |
| `ChunkTree.ParsedRun` | chunk.c:57-64 | the items of a container are decoded back to back and their total lengths sum exactly to its data length |
| `ChunkTree.ScanAgrees` | chunk.h:97-134 | on a well-formed tree, the header-only item scan finds exactly the headers of the set's subtrees |
| `ChunkTree.NrItemsOfTree` | chunk.h:128-134 | chunk_set_nr_items of a well-formed set is its number of subtrees; it is None for a leaf |
| `ChunkTree.GetNthIsKid` | chunk.h:106-116 | chunk_set_get_nth on a well-formed set finds exactly the heads of its subtrees, and nothing past the last |
| `ChunkTree.ByteOffsetLocates` | chunk.h:118-126 | chunk_byte_offset follows a path through the parsed tree: it gives the offset where the path leads, or 0 when it leads nowhere |
| `ChunkTree.ByteOffsetSelects` | chunk.h:118-126 | the subtree a path selects starts at the offset chunk_byte_offset gives for that path |
| `ChunkTree.SelectLocates` | chunk.h:118-126 | the subtree a path selects is the one the path's offset names |
| `ChunkTree.PreOrderCount` | chunk.c:54-65 | the pre-order listing holds one entry per chunk of the tree |
| `ChunkTree.CountWithinBytes` | ast.c:8-12 | a parsed tree has no more chunks than bytes, so a 64-bit chunk counter cannot wrap |
| `ChunkWalk.ReadHeader` | chunk.c:40-52 | the nibble split and the byte-by-byte little-endian loop give the decoded header |
| `ChunkWalk.Walk` | chunk.c:39-68 | returns the top chunk's header, and the callback has seen every chunk of the tree in pre-order, a leaf exactly once |
| `ChunkWalk.WalkItems` | chunk.c:56-65 | the container loop visits the items in order, advancing by each item's total length until `remaining` is 0 |
| `ChunkWalk.WalkItem` | chunk.c:60-63 | one turn of the loop walks item k and advances by 1 + length bytes + length to item k + 1 |
| `ChunkWalk.PreOrderKidPosition` | chunk.c:54-65 | the callback sees a container first, then item k's chunks as one contiguous run that starts right after the chunks of items 0 to k-1 |
| `ChunkWalk.FoldChunksAppend` | chunk.c:54-64 | the callback's effect over two runs of chunks is its effect over their concatenation |
| `Ast.ObjectCounter` | ast.c:4-6 | object_counter; its effect over a walk is stated by `FoldCounter` |
| `Ast.FoldCounter` | ast.c:4-6 | object_counter adds exactly one per visited chunk |
| `Ast.AstBuild` | ast.c:8-12 | the count is the number of chunks in the tree (root, containers and leaves), at least 1 and at most the buffer length |
| `ChunkNodes.NodeHeap.Make` | chunk_node.c:6-10 | one fresh node with every field zero: type UNDEF, length 0, no children |
| `ChunkNodes.NodeHeap.MakeArray` | chunk_node.c:23-24 | n fresh zeroed nodes at consecutive addresses |
| `ChunkNodes.NodeHeap.Init` | chunk_node.c:12-15 | copies exactly the type and data length into the node and changes nothing else |
| `ChunkNodes.NodeHeap.Construct` | chunk_node.c:17-36 | returns the decoded chunk; the node now represents the tree at that offset; nodes allocated before, other than this one, are untouched |
| `ChunkNodes.NodeHeap.ConstructSet` | chunk_node.c:21-33 | a SET node gets nr_items children in a fresh array, and child i is built from item i, in index order |
| `ChunkNodes.NodeHeap.BuildChild` | chunk_node.c:28-31 | one loop turn builds item `slot` into its slot and keeps the children built before it |
| `ChunkNodes.NodeHeap.Build` | chunk_node.c:38-42 | a fresh root node that represents the whole buffer's tree; earlier nodes are untouched |
| `ChunkNodes.ChildIsNth` | chunk_node.c:21-31 | child nth of a built SET node has the type and data length of chunk_set_get_nth's item nth |
| `ChunkNodes.ChildOffsets` | chunk_node.c:25-32 | the offsets the child loop visits; stated by `ChildOffsetsRun`, `ChildOffsetsCorrected` and `ChildOffsetsAsWritten` |
| `ChunkNodes.ChildOffsetsCorrected` | chunk_node.c:25-32 | with the counter seeded by the data length, the loop builds one child per item, at each item's offset |
| `ChunkNodes.ChildOffsetsAsWritten` | chunk_node.c:25 | with the counter seeded by the total length, the loop builds one more child than the SET has items, from the bytes just past the SET |
| `ChunkNodes.ChildOffsetsRun` | chunk_node.c:27-32 | over a gap-free run of items the loop visits every item's offset, then carries on with what is left |
| `ChunkNodes.NodeHeap.FillChildrenAsWritten` | chunk_node.c:27-32 | writing through and then advancing `node->children` fills slot k with item k's type and data length, in order, leaves every other node alone, but leaves the pointer past the array |
| `Bitwise.BitTest` | bitwise.h:4 | the test gives 0 or 1, and for bits 0 to 7 it gives 1 exactly when that bit of the byte is set |
| `Bitwise.BitSet` | bitwise.h:5 | the stored byte is the old byte with bit f set for f below 8, and the old byte unchanged for f from 8 up |
| `Bitwise.BitUnset` | bitwise.h:6 | the stored byte is the old byte with bit f cleared for f below 8, and the old byte unchanged for f from 8 up |
| `Bitwise.TestAboveByte` | bitwise.h:4 | bits 8 and up of a flag byte test 0 |
| `Bitwise.SetThenTest` | bitwise.h:4-5 | after BIT_SET on bits 0 to 7, BIT_TEST gives 1 |
| `Bitwise.SetAboveByte` | bitwise.h:5 | BIT_SET on bit 8 or higher is lost when the result is stored into the byte |
| `Bitwise.UnsetThenTest` | bitwise.h:4-6 | after BIT_UNSET, BIT_TEST gives 0 |
| `Bitwise.OtherBitsKept` | bitwise.h:5-6 | BIT_SET and BIT_UNSET leave every other bit unchanged |
| `Bitwise.Idempotent` | bitwise.h:5-6 | setting twice is setting once; clearing twice is clearing once |
| `Bitwise.LastWins` | bitwise.h:5-6 | BIT_UNSET undoes BIT_SET and BIT_SET undoes BIT_UNSET |
| `Bitwise.BitsDetermineByte` | bitwise.h:4 | a flag byte is determined by its eight tested bits |
| `Vectors.NrLengthBytesTable` | t/test_chunk.c:106-116 | widths 1,1,2,2,3,3,4,4,5 for lengths 0, 255, 256, 65535, 65536, 16777215, 16777216, 4294967295, 4294967296 |
| `Vectors.EncodeExamples` | t/test_chunk.c:44-90 | UINT8/4 → 11 04; UINT8/256 → 21 00 01; UINT8/16909060 → 41 04 03 02 01 |
| `Vectors.SetHeaderOfByte` | chunk.h:63-71 | a SET header for a length below 256 is 0x8d, the length byte, then seven zero bytes |
| `Vectors.EncodeSetHeader` | t/test_chunk_build.c:50-57 | SET/27 → 8d 1b and seven zero bytes; SET/9 → 8d 09 and seven zero bytes |
| `Vectors.DecodeExamples` | t/test_chunk.c:92-128 | 11 01 09 → UINT8 of length 1; 41 04 03 02 01 → UINT8 of length 16909060 |
| `Vectors.TestStructureHeaders` | t/test_chunk.c:5-42 | the headers of the nested test structure: the root SET at 0 and its items at 9, 12, 30, 33; the nested items at 21, 24, 27 |
| `Vectors.DecodeComplex` | t/test_chunk.c:130-148 | the root decodes as SET of 27 bytes; item 2 is UINT16; item 1 is the nested SET; its item 2 is INT8 |
| `Vectors.OffsetSimple` | t/test_chunk.c:150-239 | item offsets 9, 12, 15 (end) and 0 (past the end), by item index and by one-index path |
| `Vectors.GetOffset` | t/test_chunk.c:187-205 | paths [1,1] → 24, [1,3] → 30, [2,2] → 0 (through a UINT16), [1,4] → 0 (past the nested set's end) |
| `Vectors.TestStructureOverrun` | chunk_node.c:25-32 | on the test structure the corrected loop visits 9, 12, 30, 33; as written it goes on to 36, one past the buffer |
| `Vectors.DriverParses` | test.c:5-28 | test.c's buffer is a container holding a leaf, a container of three leaves and two more leaves |
| `Vectors.DriverCount` | test.c:5-30 | ast_build over test.c's buffer counts 8 chunks |
| `Vectors.NodeTestParses` | t/test_chunk_node.c:5-42 | the node test's buffer is a SET of four items whose second item is a SET of three |
| `Vectors.NodeBuildTest` | t/test_chunk_node.c:44-47 | chunk_node_build gives a root with 4 children, and its second child has 3 |

## Findings

| source | as written | input that shows it | evidently intended | confidence | as-written member | corrected member |
|---|---|---|---|---|---|---|
| chunk_node.c:25 | the child loop's counter starts at `chunk.total_length` | any SET; for the 36-byte test structure the loop builds a fifth child from offset 36, past the buffer and past the 4-slot children array | start the counter at `chunk.data_length` | high (not executed) | `ChunkNodes.ChildOffsetsAsWritten` | `ChunkNodes.ChildOffsetsCorrected` |
| chunk_node.c:28-29 | each child is built at `node->children`, which is then incremented | any SET with at least one item; after the loop the node points `nr_children` slots past its array | build child i at `node->children + i` and keep the array pointer | high (not executed) | `ChunkNodes.NodeHeap.FillChildrenAsWritten` | `ChunkNodes.NodeHeap.ConstructSet` |

The rest of the model uses the corrected builder: `NodeHeap.Construct`,
`NodeHeap.ConstructSet` and `NodeHeap.Build`. Their contracts state the
intended result: every SET node points at an array of exactly `nr_items`
children, and child i represents item i.

## Left out

- ChunkWalk.Walk: requires the buffer to hold a well-formed tree. The C walk does not check its input. On a malformed buffer it reads past the end, or `remaining` wraps as an unsigned value. That behaviour is not modelled.
- ChunkNodes.NodeHeap.Construct: requires a well-formed SET tree, for the same reason. It models the corrected loop, not the two defects listed under Findings.
- ChunkNodes.NodeHeap.FillChildrenAsWritten: shows only the pointer defect. It fills each slot with `chunk_node_init` (type and data length) and does not recurse into a SET item.
- Ast.AstBuild: takes a buffer that holds a well-formed tree, for the same reason as the walk.
- Bitwise.BitSet: requires f < 31, and `BitTest` requires f < 32, because `1 << 31` and larger shifts are undefined in C.
- Bitwise.BitUnset: requires f < 31, for the same reason as `BitSet`.
- ChunkCodec.BytesPerType: takes the type code, not the whole chunk as `chunk_bytes_per_type` does.
- 64-bit and 32-bit widths: lengths, offsets and indices are unbounded naturals. The parsed-tree lemmas show that the chunk counter cannot wrap. Wrap-around of `uint64_t` offsets on buffers over 2^64 bytes is not modelled.
- chunk.c:49 shifts a byte promoted to a 32-bit `int`. From the fourth length byte on (i = 3) the shift overflows `int` when that byte is 0x80 or more, so a length of 2^31 or more is undefined in C; in practice the value is sign-extended into the 64-bit length. From i = 4 on the shift count reaches the width of `int`. The model reads the length as an unbounded natural from at most 8 bytes and does not capture this overflow.
- ChunkNodes.Represents: does not state that the children arrays of different SET nodes are disjoint, which the C gets from one `malloc` per SET (chunk_node.c:23-24). In the model each `MakeArray` appends fresh nodes, so the arrays built by `NodeHeap.Build` do not overlap, but no contract says so.
- Memory: `free`, ownership and a failing `malloc` are not modelled. The heap only grows.
- The node fields `selected`, `start` and `byte_offset` are never set by the builder. The model keeps them zero.
- `name_per_type` and `chunk_type_name` (chunk.c:19-33, chunk.h:50): display strings only.
- curses.c: terminal drawing, key handling and file loading. These are UI and I/O.
- memlen.c: an abandoned variable-length-length experiment. Its header layout conflicts with the chunk format.
- ast.h: its node classification is unused. Its `ast_build` prototype returns a node pointer, but ast.c returns a `uint64_t` count. The model follows ast.c.
- Payload values, floats included, are never interpreted. Only type widths matter.
- Child insertion, retyping, serialized-size computation, resize planning and UTF-8 code-point counting are not part of this model. No modelled source file implements them.
- t/test_chunk_build.c:59-68 indexes the whole buffer with offsets relative to the nested set, and compares bytes it never wrote. Only its SET header encoding is used here.
