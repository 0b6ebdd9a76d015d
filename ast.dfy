/**
 * ast.c: counting the chunks of a buffer by walking it with a callback that
 * increments a counter.
 */
module Ast {
  import opened Wrappers
  import opened Bytes
  import opened ChunkCodec
  import opened ChunkTree
  import opened ChunkWalk

  /** object_counter: the callback bumps the counter behind its payload by one. */
  function ObjectCounter(c: Chunk, n: nat): nat
  {
    n + 1
  }

  /** Counting over a run of chunks adds the run's length to the counter. */
  lemma {:induction false} FoldCounter(n: nat, cs: seq<Chunk>)
    ensures FoldChunks(ObjectCounter, n, cs) == n + |cs|
    decreases |cs|
  {
    if cs != [] {
      FoldCounter(n + 1, cs[1..]);
    }
  }

  /**
   * ast_build: walks the tree at the start of `buf` with a zeroed counter
   * and returns it: the number of chunks in the tree, containers included.
   * That number never exceeds the buffer's length (every chunk takes at
   * least its header byte), so the C code's 64-bit counter cannot wrap.
   */
  method AstBuild(buf: seq<u8>) returns (count: nat)
    requires Parse(buf, 0, |buf|, TypeChunk).Some?
    ensures count == Count(Parse(buf, 0, |buf|, TypeChunk).value)
    ensures count == |PreOrder(Parse(buf, 0, |buf|, TypeChunk).value)|
    ensures 0 < count <= |buf|
  {
    ghost var t := Parse(buf, 0, |buf|, TypeChunk).value;
    var counter: nat := 0;
    var _, out := Walk(buf, 0, ObjectCounter, counter, |buf|, t);
    FoldCounter(0, PreOrder(t));
    PreOrderCount(t);
    CountWithinBytes(buf, 0, |buf|, TypeChunk, t);
    count := out;
  }
}
