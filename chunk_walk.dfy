/**
 * The reference reader of chunk.c: it decodes a header byte by byte and then
 * walks a container's items depth first, handing every chunk to a callback
 * before its items (pre-order), items left to right.
 *
 * chunk.c is an older snapshot of the format: its container code is
 * CHUNK_TYPE_CHUNK = 12 (the code chunk.h later gives to REF, while SET
 * became 13), and a chunk's data length is called `length` there.
 */
module ChunkWalk {
  import opened Wrappers
  import opened Bytes
  import opened ChunkCodec
  import opened ChunkSet
  import opened ChunkTree

  /** CHUNK_TYPE_CHUNK, the container code of chunk.c. */
  const TypeChunk: TypeCode := 12

  /**
   * The callback's effect on the payload, applied to each chunk of `cs` in
   * order: the C callback writes through `void* payload`, modelled as a
   * function from the chunk and the old payload to the new payload.
   */
  function FoldChunks<S>(f: (Chunk, S) -> S, s: S, cs: seq<Chunk>): S
    decreases |cs|
  {
    if cs == [] then s else FoldChunks(f, f(cs[0], s), cs[1..])
  }

  /** Folding over two runs one after the other is folding over their concatenation. */
  lemma {:induction false} FoldChunksAppend<S>(f: (Chunk, S) -> S, s: S, a: seq<Chunk>, b: seq<Chunk>)
    ensures FoldChunks(f, s, a + b) == FoldChunks(f, FoldChunks(f, s, a), b)
    decreases |a|
  {
    if a != [] {
      assert (a + b)[0] == a[0] && (a + b)[1..] == a[1..] + b;
      FoldChunksAppend(f, f(a[0], s), a[1..], b);
    } else {
      assert a + b == b;
    }
  }

  /**
   * The order the callback sees: a container first, then the chunks of its
   * item k as one contiguous run, starting right after the chunks of items
   * 0 to k-1.
   */
  lemma PreOrderKidPosition(t: Tree, k: nat)
    requires k < |t.kids|
    ensures PreOrder(t)[0] == t.head
    ensures 1 + CountAll(t.kids[..k]) + Count(t.kids[k]) <= |PreOrder(t)|
    ensures PreOrder(t)[1 + CountAll(t.kids[..k]) .. 1 + CountAll(t.kids[..k]) + Count(t.kids[k])]
      == PreOrder(t.kids[k])
  {
    var before, kid, after := t.kids[..k], t.kids[k], t.kids[k + 1..];
    assert t.kids == before + [kid] + after;
    PreOrderAllAppend(before + [kid], after);
    PreOrderAllAppend(before, [kid]);
    assert PreOrderAll([kid]) == PreOrder(kid) by {
      assert [kid][1..] == [];
    }
    PreOrderAllCount(before);
    PreOrderCount(kid);
    assert PreOrder(t) == [t.head] + PreOrderAll(before) + PreOrder(kid) + PreOrderAll(after);
  }

  /**
   * chunk_walk_pointer: decodes the chunk at `at` (the header byte split
   * into its nibbles, the length accumulated one little-endian byte at a
   * time), fires the callback on it and, for a container, walks its items
   * one after another until their total lengths use up its length. Returns
   * the decoded header and the payload after all callbacks.
   *
   * The C code trusts its input; here the buffer must hold a well-formed
   * tree at `at` (the ghost `t`), which keeps every read in bounds and makes
   * the items' lengths add up exactly, so `remaining` never wraps.
   */
  method Walk<S>(buf: seq<u8>, at: nat, callback: (Chunk, S) -> S, payload: S, ghost limit: nat, ghost t: Tree)
    returns (chunk: Chunk, out: S)
    requires limit <= |buf| && Parse(buf, at, limit, TypeChunk) == Some(t)
    ensures chunk == t.head
    ensures out == FoldChunks(callback, payload, PreOrder(t))
    decreases limit - at, 0
  {
    ParsedHead(buf, at, limit, TypeChunk, t);
    chunk := ReadHeader(buf, at);
    var length := chunk.dataLength;

    out := callback(chunk, payload);

    if chunk.chunkType == TypeChunk {
      ghost var s, e := ParsedKids(buf, t, at, limit, TypeChunk);
      out := WalkItems(buf, chunk.data, length, callback, out, payload, t.head, t.kids, e);
    } else {
      assert t.kids == [];
    }
  }

  /**
   * The container loop of chunk_walk_pointer: walks the items one after
   * another from `data`, taking each item's total length off `remaining`
   * until it reaches zero.
   */
  method WalkItems<S>(buf: seq<u8>, data: nat, remaining: nat, callback: (Chunk, S) -> S, out: S,
                      ghost payload: S, ghost head: Chunk, ghost kids: seq<Tree>, ghost e: nat)
    returns (next: S)
    requires e <= |buf| && data + remaining == e
    requires ParseItems(buf, data, e, TypeChunk) == Some(kids)
    requires out == FoldChunks(callback, payload, [head])
    ensures next == FoldChunks(callback, payload, [head] + PreOrderAll(kids))
    decreases e - data, 2
  {
    var pos := data;
    var left := remaining;
    next := out;
    ghost var k: nat := 0;
    while left != 0
      invariant k <= |kids| && data <= pos && pos + left == e
      invariant ParseItems(buf, pos, e, TypeChunk) == Some(kids[k..])
      invariant next == FoldChunks(callback, payload, [head] + PreOrderAll(kids[..k]))
      decreases left
    {
      var childTotal;
      childTotal, next := WalkItem(buf, pos, callback, next, payload, head, kids, k, e);
      pos := pos + childTotal;
      left := left - childTotal;
      k := k + 1;
    }
    assert kids[k..] == [];
    assert kids[..k] == kids;
  }

  /**
   * One turn of the container loop of chunk_walk_pointer: walks item k,
   * which starts at `data`, and gives back its total length and the payload
   * after the callbacks on its chunks.
   */
  method WalkItem<S>(buf: seq<u8>, data: nat, callback: (Chunk, S) -> S, out: S,
                     ghost payload: S, ghost head: Chunk, ghost kids: seq<Tree>, ghost k: nat, ghost e: nat)
    returns (childTotal: nat, next: S)
    requires e <= |buf| && data < e && k <= |kids|
    requires ParseItems(buf, data, e, TypeChunk) == Some(kids[k..])
    requires out == FoldChunks(callback, payload, [head] + PreOrderAll(kids[..k]))
    ensures k < |kids| && childTotal == kids[k].head.totalLength && data + childTotal <= e
    ensures ParseItems(buf, data + childTotal, e, TypeChunk) == Some(kids[k + 1..])
    ensures next == FoldChunks(callback, payload, [head] + PreOrderAll(kids[..k + 1]))
    decreases e - data, 1
  {
    assert kids[k..] != [];
    ParseItemsCons(buf, data, e, TypeChunk, kids[k..]);
    assert kids[k..][0] == kids[k];
    var child;
    child, next := Walk(buf, data, callback, out, e, kids[k]);
    ParsedHead(buf, data, e, TypeChunk, kids[k]);
    childTotal := 1 + child.nrLengthBytes + child.dataLength;
    WalkStep(callback, payload, head, kids, k, out);
    assert kids[k..][1..] == kids[k + 1..];
  }

  /**
   * The header part of chunk_walk_pointer: the type from the low nibble of
   * the first byte, the number of length bytes from the high nibble, then the
   * length accumulated byte by byte, byte i shifted left by 8*i.
   */
  method ReadHeader(buf: seq<u8>, at: nat) returns (chunk: Chunk)
    requires Decode(buf, at).Ok?
    ensures chunk == Decode(buf, at).value
  {
    var index: nat := 1;
    var headByte := buf[at];
    var chunkType: TypeCode := headByte as nat % 16;
    var nrLengthBytes: nat := headByte as nat / 16;
    var length: nat := 0;
    var i: nat := 0;
    while i < nrLengthBytes
      invariant i <= nrLengthBytes && index == 1 + i
      invariant length == LeRead(buf, at + 1, i)
    {
      LeReadStep(buf, at + 1, i);
      length := length + buf[at + index] as nat * Pow256(i);
      index := index + 1;
      i := i + 1;
    }
    chunk := Chunk(at, chunkType, nrLengthBytes, 1 + nrLengthBytes + length, length, at + index);
  }

  /** After walking item k, the payload has seen the container and items 0 to k. */
  lemma WalkStep<S>(f: (Chunk, S) -> S, s: S, head: Chunk, kids: seq<Tree>, k: nat, before: S)
    requires k < |kids|
    requires before == FoldChunks(f, s, [head] + PreOrderAll(kids[..k]))
    ensures FoldChunks(f, before, PreOrder(kids[k])) == FoldChunks(f, s, [head] + PreOrderAll(kids[..k + 1]))
  {
    assert kids[..k + 1] == kids[..k] + [kids[k]];
    PreOrderAllAppend(kids[..k], [kids[k]]);
    assert PreOrderAll([kids[k]]) == PreOrder(kids[k]) + PreOrderAll([]);
    assert [head] + PreOrderAll(kids[..k + 1]) == ([head] + PreOrderAll(kids[..k])) + PreOrder(kids[k]);
    FoldChunksAppend(f, s, [head] + PreOrderAll(kids[..k]), PreOrder(kids[k]));
  }
}
