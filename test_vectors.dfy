/**
 * The byte strings of the project's unit tests (t/test_chunk.c) and of its
 * driver program (test.c), worked through the model. The buffers are
 * described byte by byte (the *Bytes predicates) so that each proof looks
 * up single bytes. DriverCount also ties test.c's description to its
 * literal; the other buffers are given by their descriptions alone.
 */
module Vectors {
  import opened Wrappers
  import opened Bytes
  import opened ChunkCodec
  import opened ChunkSet
  import opened ChunkTree
  import opened ChunkWalk
  import opened Ast
  import opened ChunkNodes

  /** test_chunk_nr_length_bytes: the width of a length at each byte boundary. */
  lemma NrLengthBytesTable()
    ensures NrLengthBytes(0) == 1 && NrLengthBytes(255) == 1
    ensures NrLengthBytes(256) == 2 && NrLengthBytes(65535) == 2
    ensures NrLengthBytes(65536) == 3 && NrLengthBytes(16777215) == 3
    ensures NrLengthBytes(16777216) == 4 && NrLengthBytes(4294967295) == 4
    ensures NrLengthBytes(4294967296) == 5
  {
  }

  /** test_encode_simple, test_encode_long and test_encode_longer. */
  lemma EncodeExamples()
    ensures EncodeHeader(TypeUInt8, 4) == [0x11, 0x04]
    ensures EncodeHeader(TypeUInt8, 256) == [0x21, 0x00, 0x01]
    ensures EncodeHeader(TypeUInt8, 16909060) == [0x41, 0x04, 0x03, 0x02, 0x01]
  {
  }

  /** Zero written at any width is all zero bytes. */
  lemma {:induction false} LeBytesZero(n: nat)
    ensures LeBytes(0, n) == seq(n, _ => 0 as u8)
  {
    if n > 0 {
      LeBytesZero(n - 1);
    }
  }

  /** A set whose length fits one byte: 0x8d, the length, then seven zero bytes. */
  lemma SetHeaderOfByte(length: nat)
    requires length < 256
    ensures EncodeHeader(TypeSet, length) == [0x8d, length as u8] + seq(7, _ => 0 as u8)
  {
    LeBytesZero(7);
    assert length % 256 == length && length / 256 == 0;
    assert LeBytes(length, 8) == [length as u8] + LeBytes(0, 7);
  }

  /** test_build_replica: a set header reserves eight length bytes even for a length of 27. */
  lemma EncodeSetHeader()
    ensures EncodeHeader(TypeSet, 27) == [0x8d, 0x1b, 0x00, 0x00, 0x00, 0x00, 0x00, 0x00, 0x00]
    ensures EncodeHeader(TypeSet, 9) == [0x8d, 0x09, 0x00, 0x00, 0x00, 0x00, 0x00, 0x00, 0x00]
  {
    SetHeaderOfByte(27);
    SetHeaderOfByte(9);
  }

  /** test_decode_simple and test_decode_longer. */
  lemma DecodeExamples()
    ensures Decode([0x11, 0x01, 0x09], 0) == Ok(Chunk(0, TypeUInt8, 1, 3, 1, 2))
    ensures Decode([0x41, 0x04, 0x03, 0x02, 0x01], 0) == Ok(Chunk(0, TypeUInt8, 4, 16909065, 16909060, 5))
  {
  }

  /** A header with one length byte. */
  lemma DecodeShort(buf: seq<u8>, at: nat)
    requires at + 2 <= |buf| && buf[at] as nat / 16 == 1
    ensures Decode(buf, at)
      == Ok(Chunk(at, buf[at] as nat % 16, 1, 2 + buf[at + 1] as nat, buf[at + 1] as nat, at + 2))
  {
    assert LeRead(buf, at + 1, 1) == buf[at + 1] as nat + 256 * LeRead(buf, at + 2, 0);
  }

  /** A set header: eight length bytes, of which only the first is non-zero. */
  lemma DecodeWide(buf: seq<u8>, at: nat)
    requires at + 9 <= |buf| && buf[at] as nat / 16 == 8
    requires forall k | at + 2 <= k < at + 9 :: buf[k] == 0
    ensures Decode(buf, at)
      == Ok(Chunk(at, buf[at] as nat % 16, 8, 9 + buf[at + 1] as nat, buf[at + 1] as nat, at + 9))
  {
    LeReadZeros(buf, at + 2, 7);
    assert LeRead(buf, at + 1, 8) == buf[at + 1] as nat + 256 * LeRead(buf, at + 2, 7);
  }

  /** Zero bytes read as zero. */
  lemma {:induction false} LeReadZeros(buf: seq<u8>, from: nat, n: nat)
    requires from + n <= |buf|
    requires forall k | from <= k < from + n :: buf[k] == 0
    ensures LeRead(buf, from, n) == 0
    decreases n
  {
    if n > 0 {
      LeReadZeros(buf, from + 1, n - 1);
    }
  }

  /** One more item in front of a counted run. */
  lemma CountStep(buf: seq<u8>, pos: nat, end: nat, c: Chunk, n: nat)
    requires pos < end <= |buf| && Decode(buf, pos) == Ok(c) && pos + c.totalLength <= end
    requires CountItems(buf, pos + c.totalLength, end) == Some(n)
    ensures CountItems(buf, pos, end) == Some(n + 1)
  {
  }

  /**
   * TEST_STRUCTURE, byte by byte: a set with 27 payload bytes holding a
   * uint32, a nested set (a uint32, a uint8 and an int8), a uint16 and an
   * int8.
   */
  predicate TestStructureBytes(b: seq<u8>)
  {
    && |b| == 36
    && b[0] == 0x8d && b[1] == 0x1b && b[2] == 0x00 && b[3] == 0x00 && b[4] == 0x00 && b[5] == 0x00
    && b[6] == 0x00 && b[7] == 0x00 && b[8] == 0x00 && b[9] == 0x15 && b[10] == 0x01 && b[11] == 0x09
    && b[12] == 0x8d && b[13] == 0x09 && b[14] == 0x00 && b[15] == 0x00 && b[16] == 0x00 && b[17] == 0x00
    && b[18] == 0x00 && b[19] == 0x00 && b[20] == 0x00 && b[21] == 0x15 && b[22] == 0x01 && b[23] == 0x09
    && b[24] == 0x11 && b[25] == 0x01 && b[26] == 0x08 && b[27] == 0x12 && b[28] == 0x01 && b[29] == 0x07
    && b[30] == 0x13 && b[31] == 0x01 && b[32] == 0x08 && b[33] == 0x12 && b[34] == 0x01 && b[35] == 0x07
  }

  /** The headers of TEST_STRUCTURE: the root set at 0, its items at 9, 12, 30 and 33, the nested items at 21, 24 and 27. */
  lemma TestStructureHeaders(b: seq<u8>)
    requires TestStructureBytes(b)
    ensures Decode(b, 0) == Ok(Chunk(0, TypeSet, 8, 36, 27, 9))
    ensures Decode(b, 9) == Ok(Chunk(9, TypeUInt32, 1, 3, 1, 11))
    ensures Decode(b, 12) == Ok(Chunk(12, TypeSet, 8, 18, 9, 21))
    ensures Decode(b, 21) == Ok(Chunk(21, TypeUInt32, 1, 3, 1, 23))
    ensures Decode(b, 24) == Ok(Chunk(24, TypeUInt8, 1, 3, 1, 26))
    ensures Decode(b, 27) == Ok(Chunk(27, TypeInt8, 1, 3, 1, 29))
    ensures Decode(b, 30) == Ok(Chunk(30, TypeUInt16, 1, 3, 1, 32))
    ensures Decode(b, 33) == Ok(Chunk(33, TypeInt8, 1, 3, 1, 35))
    ensures Decode(b, 36) == Err(OutOfBounds)
  {
    DecodeWide(b, 0);
    DecodeWide(b, 12);
    DecodeShort(b, 9);
    DecodeShort(b, 21);
    DecodeShort(b, 24);
    DecodeShort(b, 27);
    DecodeShort(b, 30);
    DecodeShort(b, 33);
  }

  /** The root set has four items and the nested set three. */
  lemma TestStructureCounts(b: seq<u8>)
    requires TestStructureBytes(b)
    ensures NrItems(b, Chunk(0, TypeSet, 8, 36, 27, 9)) == Some(4)
    ensures NrItems(b, Chunk(12, TypeSet, 8, 18, 9, 21)) == Some(3)
  {
    TestStructureHeaders(b);
    CountStep(b, 33, 36, Chunk(33, TypeInt8, 1, 3, 1, 35), 0);
    CountStep(b, 30, 36, Chunk(30, TypeUInt16, 1, 3, 1, 32), 1);
    CountStep(b, 27, 30, Chunk(27, TypeInt8, 1, 3, 1, 29), 0);
    CountStep(b, 24, 30, Chunk(24, TypeUInt8, 1, 3, 1, 26), 1);
    CountStep(b, 21, 30, Chunk(21, TypeUInt32, 1, 3, 1, 23), 2);
    CountStep(b, 12, 36, Chunk(12, TypeSet, 8, 18, 9, 21), 2);
    CountStep(b, 9, 36, Chunk(9, TypeUInt32, 1, 3, 1, 11), 3);
  }

  /** Stepping over the items of both sets. */
  lemma TestStructureSkips(b: seq<u8>)
    requires TestStructureBytes(b)
    ensures SkipItems(b, 9, 1) == 12 && SkipItems(b, 9, 2) == 30
    ensures SkipItems(b, 21, 1) == 24 && SkipItems(b, 21, 2) == 27 && SkipItems(b, 21, 3) == 30
  {
    TestStructureHeaders(b);
    assert SkipItems(b, 30, 0) == 30;
    assert SkipItems(b, 12, 1) == 30;
    assert SkipItems(b, 27, 1) == 30;
    assert SkipItems(b, 24, 2) == 30;
  }

  /** test_decode_complex: the root header and three items found by chunk_set_get_nth. */
  lemma DecodeComplex(b: seq<u8>)
    requires TestStructureBytes(b)
    ensures Decode(b, 0).Ok? && Decode(b, 0).value.chunkType == TypeSet && Decode(b, 0).value.dataLength == 27
    ensures GetNth(b, 0, 2).Some? && GetNth(b, 0, 2).value.chunkType == TypeUInt16
    ensures GetNth(b, 0, 1) == Some(Chunk(12, TypeSet, 8, 18, 9, 21))
    ensures GetNth(b, 12, 2).Some? && GetNth(b, 12, 2).value.chunkType == TypeInt8
  {
    TestStructureHeaders(b);
    TestStructureCounts(b);
    TestStructureSkips(b);
  }

  /** test_chunk_get_offset: paths into the nested set, past it, and through a non-set. */
  lemma GetOffset(b: seq<u8>)
    requires TestStructureBytes(b)
    ensures ByteOffset(b, 0, [1, 1]) == 24
    ensures ByteOffset(b, 0, [1, 3]) == 30
    ensures ByteOffset(b, 0, [2, 2]) == 0
    ensures ByteOffset(b, 0, [1, 4]) == 0
  {
    TestStructureHeaders(b);
    TestStructureCounts(b);
    TestStructureSkips(b);
    var root := Chunk(0, TypeSet, 8, 36, 27, 9);
    var nested := Chunk(12, TypeSet, 8, 18, 9, 21);
    assert ItemByteOffset(b, root, 1) == 12 && ItemByteOffset(b, root, 2) == 30;
    assert ByteOffset(b, 12, [1]) == 12;
    assert ByteOffset(b, 12, [3]) == 18;
    assert ByteOffset(b, 12, [4]) == 0;
    assert NrItems(b, Chunk(30, TypeUInt16, 1, 3, 1, 32)) == None;
    assert ByteOffset(b, 30, [2]) == 0;
    assert [1, 1][1..] == [1] && [1, 3][1..] == [3] && [1, 4][1..] == [4] && [2, 2][1..] == [2];
  }

  /**
   * The construction loop of chunk_node.c run over TEST_STRUCTURE's root:
   * seeded with the data length it visits the four items; seeded with the
   * total length, as written, it goes on to offset 36, one past the buffer.
   */
  lemma TestStructureOverrun(b: seq<u8>)
    requires TestStructureBytes(b)
    ensures ChildOffsets(b, 9, 27) == [9, 12, 30, 33]
    ensures ChildOffsets(b, 9, 36) == [9, 12, 30, 33, 36] && 36 == |b|
  {
    TestStructureHeaders(b);
    assert ChildOffsets(b, 36, 0) == [];
    assert ChildOffsets(b, 36, 9) == [36];
    assert ChildOffsets(b, 33, 3) == [33];
    assert ChildOffsets(b, 33, 12) == [33, 36];
    assert ChildOffsets(b, 30, 6) == [30, 33];
    assert ChildOffsets(b, 30, 15) == [30, 33, 36];
    assert ChildOffsets(b, 12, 24) == [12, 30, 33];
    assert ChildOffsets(b, 12, 33) == [12, 30, 33, 36];
  }

  /** The set of test_chunk_get_offset_simple: two uint32 items of one byte each. */
  predicate SimpleSetBytes(b: seq<u8>)
  {
    && |b| == 15
    && b[0] == 0x8d && b[1] == 0x06 && b[2] == 0x00 && b[3] == 0x00 && b[4] == 0x00 && b[5] == 0x00
    && b[6] == 0x00 && b[7] == 0x00 && b[8] == 0x00 && b[9] == 0x15 && b[10] == 0x01 && b[11] == 0x09
    && b[12] == 0x15 && b[13] == 0x01 && b[14] == 0x0a
  }

  /** test_chunk_set_item_byte_offset and test_chunk_get_offset_simple. */
  lemma OffsetSimple(b: seq<u8>)
    requires SimpleSetBytes(b)
    ensures Decode(b, 0) == Ok(Chunk(0, TypeSet, 8, 15, 6, 9))
    ensures ItemByteOffset(b, Chunk(0, TypeSet, 8, 15, 6, 9), 0) == 9
    ensures ItemByteOffset(b, Chunk(0, TypeSet, 8, 15, 6, 9), 1) == 12
    ensures ItemByteOffset(b, Chunk(0, TypeSet, 8, 15, 6, 9), 2) == 15
    ensures ItemByteOffset(b, Chunk(0, TypeSet, 8, 15, 6, 9), 3) == 0
    ensures ByteOffset(b, 0, [0]) == 9 && ByteOffset(b, 0, [1]) == 12
    ensures ByteOffset(b, 0, [2]) == 15 && ByteOffset(b, 0, [3]) == 0
  {
    DecodeWide(b, 0);
    DecodeShort(b, 9);
    DecodeShort(b, 12);
    CountStep(b, 12, 15, Chunk(12, TypeUInt32, 1, 3, 1, 14), 0);
    CountStep(b, 9, 15, Chunk(9, TypeUInt32, 1, 3, 1, 11), 1);
    assert SkipItems(b, 12, 1) == 15;
  }

  /** A chunk that is not a container is a leaf of the tree. */
  lemma ParseLeaf(buf: seq<u8>, at: nat, limit: nat, container: TypeCode, c: Chunk)
    requires limit <= |buf| && Decode(buf, at) == Ok(c) && at + c.totalLength <= limit
    requires c.chunkType != container
    ensures Parse(buf, at, limit, container) == Some(Tree(c, []))
  {
  }

  /** A container is a node whose kids are the trees of its payload. */
  lemma ParseNode(buf: seq<u8>, at: nat, limit: nat, container: TypeCode, c: Chunk, kids: seq<Tree>)
    requires limit <= |buf| && Decode(buf, at) == Ok(c) && at + c.totalLength <= limit
    requires c.chunkType == container && ParseItems(buf, c.data, c.data + c.dataLength, container) == Some(kids)
    ensures Parse(buf, at, limit, container) == Some(Tree(c, kids))
  {
  }

  /** One more tree in front of a parsed run. */
  lemma ItemsStep(buf: seq<u8>, pos: nat, end: nat, container: TypeCode, t: Tree, rest: seq<Tree>, all: seq<Tree>)
    requires pos < end <= |buf| && Parse(buf, pos, end, container) == Some(t)
    requires ParseItems(buf, pos + t.head.totalLength, end, container) == Some(rest)
    requires all == [t] + rest
    ensures ParseItems(buf, pos, end, container) == Some(all)
  {
  }

  /** The buffer of test.c, in the format of chunk.c (container code 12). */
  predicate DriverBytes(b: seq<u8>)
  {
    && |b| == 22
    && b[0] == 0x1c && b[1] == 0x14 && b[2] == 0x10 && b[3] == 0x01 && b[4] == 0x09 && b[5] == 0x1c
    && b[6] == 0x09 && b[7] == 0x10 && b[8] == 0x01 && b[9] == 0x09 && b[10] == 0x11 && b[11] == 0x01
    && b[12] == 0x08 && b[13] == 0x12 && b[14] == 0x01 && b[15] == 0x07 && b[16] == 0x11 && b[17] == 0x01
    && b[18] == 0x08 && b[19] == 0x12 && b[20] == 0x01 && b[21] == 0x07
  }


  /** The tree test.c builds from: a container holding a leaf, a container of three leaves, and two leaves. */
  function DriverTree(): Tree
  {
    Tree(Chunk(0, TypeChunk, 1, 22, 20, 2), [
      Tree(Chunk(2, 0, 1, 3, 1, 4), []),
      Tree(Chunk(5, TypeChunk, 1, 11, 9, 7), [
        Tree(Chunk(7, 0, 1, 3, 1, 9), []),
        Tree(Chunk(10, 1, 1, 3, 1, 12), []),
        Tree(Chunk(13, 2, 1, 3, 1, 15), [])]),
      Tree(Chunk(16, 1, 1, 3, 1, 18), []),
      Tree(Chunk(19, 2, 1, 3, 1, 21), [])])
  }

  /** The inner container of test.c, at 5. */
  lemma DriverInner(b: seq<u8>)
    requires DriverBytes(b)
    ensures Parse(b, 5, 22, TypeChunk) == Some(DriverTree().kids[1])
  {
    var kids := DriverTree().kids[1].kids;
    DecodeShort(b, 7);
    DecodeShort(b, 10);
    DecodeShort(b, 13);
    ParseLeaf(b, 13, 16, TypeChunk, kids[2].head);
    ItemsStep(b, 13, 16, TypeChunk, kids[2], [], [kids[2]]);
    ParseLeaf(b, 10, 16, TypeChunk, kids[1].head);
    ItemsStep(b, 10, 16, TypeChunk, kids[1], [kids[2]], kids[1..]);
    ParseLeaf(b, 7, 16, TypeChunk, kids[0].head);
    ItemsStep(b, 7, 16, TypeChunk, kids[0], kids[1..], kids);
    DecodeShort(b, 5);
    ParseNode(b, 5, 22, TypeChunk, DriverTree().kids[1].head, kids);
  }

  /** test.c's buffer parses to DriverTree. */
  lemma DriverParses(b: seq<u8>)
    requires DriverBytes(b)
    ensures Parse(b, 0, 22, TypeChunk) == Some(DriverTree())
  {
    var kids := DriverTree().kids;
    DecodeShort(b, 2);
    DecodeShort(b, 16);
    DecodeShort(b, 19);
    ParseLeaf(b, 19, 22, TypeChunk, kids[3].head);
    ItemsStep(b, 19, 22, TypeChunk, kids[3], [], [kids[3]]);
    ParseLeaf(b, 16, 22, TypeChunk, kids[2].head);
    ItemsStep(b, 16, 22, TypeChunk, kids[2], [kids[3]], kids[2..]);
    DriverInner(b);
    ItemsStep(b, 5, 22, TypeChunk, kids[1], kids[2..], kids[1..]);
    ParseLeaf(b, 2, 22, TypeChunk, kids[0].head);
    ItemsStep(b, 2, 22, TypeChunk, kids[0], kids[1..], kids);
    DecodeShort(b, 0);
    ParseNode(b, 0, 22, TypeChunk, DriverTree().head, kids);
  }

  /** test.c: ast_build over its buffer counts eight objects. */
  method DriverCount() returns (count: nat)
    ensures count == 8
  {
    var buf: seq<u8> := [0x1c, 0x14, 0x10, 0x01, 0x09, 0x1c, 0x09, 0x10, 0x01, 0x09, 0x11, 0x01, 0x08, 0x12, 0x01, 0x07, 0x11, 0x01, 0x08, 0x12, 0x01, 0x07];
    assert DriverBytes(buf);
    DriverParses(buf);
    count := AstBuild(buf);
  }

  /**
   * The TEST_STRUCTURE of test_chunk_node.c: the layout of test_chunk.c's,
   * with a uint8 first item, a nested set of two uint8 items and an int8,
   * and two uint8 items after it.
   */
  predicate NodeTestBytes(b: seq<u8>)
  {
    && |b| == 36
    && b[0] == 0x8d && b[1] == 0x1b && b[2] == 0x00 && b[3] == 0x00 && b[4] == 0x00 && b[5] == 0x00
    && b[6] == 0x00 && b[7] == 0x00 && b[8] == 0x00 && b[9] == 0x11 && b[10] == 0x01 && b[11] == 0x09
    && b[12] == 0x8d && b[13] == 0x09 && b[14] == 0x00 && b[15] == 0x00 && b[16] == 0x00 && b[17] == 0x00
    && b[18] == 0x00 && b[19] == 0x00 && b[20] == 0x00 && b[21] == 0x11 && b[22] == 0x01 && b[23] == 0x09
    && b[24] == 0x11 && b[25] == 0x01 && b[26] == 0x08 && b[27] == 0x12 && b[28] == 0x01 && b[29] == 0x07
    && b[30] == 0x11 && b[31] == 0x01 && b[32] == 0x08 && b[33] == 0x11 && b[34] == 0x01 && b[35] == 0x07
  }

  /** The tree of test_chunk_node.c's TEST_STRUCTURE. */
  function NodeTestTree(): Tree
  {
    Tree(Chunk(0, TypeSet, 8, 36, 27, 9), [
      Tree(Chunk(9, TypeUInt8, 1, 3, 1, 11), []),
      Tree(Chunk(12, TypeSet, 8, 18, 9, 21), [
        Tree(Chunk(21, TypeUInt8, 1, 3, 1, 23), []),
        Tree(Chunk(24, TypeUInt8, 1, 3, 1, 26), []),
        Tree(Chunk(27, TypeInt8, 1, 3, 1, 29), [])]),
      Tree(Chunk(30, TypeUInt8, 1, 3, 1, 32), []),
      Tree(Chunk(33, TypeUInt8, 1, 3, 1, 35), [])])
  }

  /** The nested set of test_chunk_node.c's buffer, at 12. */
  lemma NodeTestInner(b: seq<u8>)
    requires NodeTestBytes(b)
    ensures Parse(b, 12, 36, TypeSet) == Some(NodeTestTree().kids[1])
  {
    var kids := NodeTestTree().kids[1].kids;
    DecodeShort(b, 21);
    DecodeShort(b, 24);
    DecodeShort(b, 27);
    ParseLeaf(b, 27, 30, TypeSet, kids[2].head);
    ItemsStep(b, 27, 30, TypeSet, kids[2], [], [kids[2]]);
    ParseLeaf(b, 24, 30, TypeSet, kids[1].head);
    ItemsStep(b, 24, 30, TypeSet, kids[1], [kids[2]], kids[1..]);
    ParseLeaf(b, 21, 30, TypeSet, kids[0].head);
    ItemsStep(b, 21, 30, TypeSet, kids[0], kids[1..], kids);
    DecodeWide(b, 12);
    ParseNode(b, 12, 36, TypeSet, NodeTestTree().kids[1].head, kids);
  }

  /** The four items of the root set of test_chunk_node.c's buffer fill its payload [9, 36). */
  lemma NodeTestRootItems(b: seq<u8>)
    requires NodeTestBytes(b)
    ensures ParseItems(b, 9, 36, TypeSet) == Some(NodeTestTree().kids)
  {
    var kids := NodeTestTree().kids;
    DecodeShort(b, 9);
    DecodeShort(b, 30);
    DecodeShort(b, 33);
    ParseLeaf(b, 33, 36, TypeSet, kids[3].head);
    ItemsStep(b, 33, 36, TypeSet, kids[3], [], [kids[3]]);
    ParseLeaf(b, 30, 36, TypeSet, kids[2].head);
    ItemsStep(b, 30, 36, TypeSet, kids[2], [kids[3]], kids[2..]);
    NodeTestInner(b);
    ItemsStep(b, 12, 36, TypeSet, kids[1], kids[2..], kids[1..]);
    ParseLeaf(b, 9, 36, TypeSet, kids[0].head);
    ItemsStep(b, 9, 36, TypeSet, kids[0], kids[1..], kids);
  }

  /** The root header of test_chunk_node.c's buffer: a set of 27 payload bytes. */
  lemma NodeTestRoot(b: seq<u8>)
    requires NodeTestBytes(b)
    ensures Decode(b, 0) == Ok(Chunk(0, TypeSet, 8, 36, 27, 9))
  {
    DecodeWide(b, 0);
  }

  /** test_chunk_node.c's buffer parses to NodeTestTree. */
  lemma NodeTestParses(b: seq<u8>)
    requires NodeTestBytes(b)
    ensures Parse(b, 0, 36, TypeSet) == Some(NodeTestTree())
  {
    NodeTestRootItems(b);
    NodeTestRoot(b);
    ParseNode(b, 0, 36, TypeSet, NodeTestTree().head, NodeTestTree().kids);
  }

  /** A node heap representing NodeTestTree has four children at the root, the second with three. */
  lemma NodeTestShape(nodes: seq<NodeRec>, i: nat, lo: nat, hi: nat)
    requires Represents(nodes, i, NodeTestTree(), lo, hi)
    ensures nodes[i].nrChildren == 4 && nodes[i].children.Addr?
    ensures nodes[i].children.index + 1 < |nodes| && nodes[nodes[i].children.index + 1].nrChildren == 3
  {
    var t := NodeTestTree();
    assert Represents(nodes, nodes[i].children.index + 1, t.kids[1], lo, hi);
  }

  /**
   * test_chunk_node_build: chunk_node_build over test_chunk_node.c's buffer
   * gives a root SET node with four children, the second of them a SET
   * node with three.
   */
  method NodeBuildTest(buf: seq<u8>) returns (nrChildren: nat, nested: nat)
    requires NodeTestBytes(buf)
    ensures nrChildren == 4 && nested == 3
  {
    NodeTestParses(buf);
    var heap := new NodeHeap();
    var root := heap.Build(buf);
    NodeTestShape(heap.nodes, root.index, 0, |heap.nodes|);
    var node := heap.nodes[root.index];
    nrChildren := node.nrChildren;
    nested := heap.nodes[node.children.index + 1].nrChildren;
  }
}
