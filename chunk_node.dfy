/**
 * chunk_node.c: building an in-memory tree of nodes from an encoded buffer.
 * Every SET gets a heap array with one node per item; every other chunk is a
 * leaf node. The heap is a sequence of node records and a node's address is
 * its index in it, so malloc is an append and the children array of a SET is
 * a run of consecutive indices.
 */
module ChunkNodes {
  import opened Wrappers
  import opened Bytes
  import opened ChunkCodec
  import opened ChunkSet
  import opened ChunkTree

  /** A pointer: NULL or an index (into the node heap, or into the buffer for `start`). */
  datatype Ptr = Null | Addr(index: nat)

  /** chunk_node_t. */
  datatype NodeRec = NodeRec(
    nodeType: TypeCode,
    dataLength: nat,
    nrChildren: nat,
    children: Ptr,
    selected: bv8,
    start: Ptr,
    byteOffset: nat)

  /** A node as memset(0) leaves it. */
  const ZeroNode := NodeRec(0, 0, 0, Null, 0, Null, 0)

  /**
   * Node i of the heap stands for tree t: it carries the head's type and
   * data length, a SET node points at an array of one node per item, each
   * standing for that item, and a leaf has no children. Every node of the
   * subtree below i lies in [lo, hi). The fields the builder does not set
   * (selected, start, byte_offset) are still zero.
   */
  ghost predicate Represents(nodes: seq<NodeRec>, i: nat, t: Tree, lo: nat, hi: nat)
    decreases t
  {
    && i < |nodes| && lo <= hi <= |nodes|
    && nodes[i].nodeType == t.head.chunkType
    && nodes[i].dataLength == t.head.dataLength
    && nodes[i].selected == 0 && nodes[i].start == Null && nodes[i].byteOffset == 0
    && if t.head.chunkType == TypeSet then
         && nodes[i].nrChildren == |t.kids|
         && nodes[i].children.Addr?
         && lo <= nodes[i].children.index
         && nodes[i].children.index + |t.kids| <= hi
         && forall k | 0 <= k < |t.kids| :: Represents(nodes, nodes[i].children.index + k, t.kids[k], lo, hi)
       else
         && nodes[i].nrChildren == 0
         && nodes[i].children == Null
  }

  /** A representation survives any change outside its root and its footprint. */
  lemma {:induction false} RepresentsFrame(nodes: seq<NodeRec>, nodes': seq<NodeRec>, i: nat, t: Tree, lo: nat, hi: nat)
    requires Represents(nodes, i, t, lo, hi)
    requires i < |nodes'| && hi <= |nodes'| && nodes'[i] == nodes[i]
    requires forall j | lo <= j < hi :: nodes'[j] == nodes[j]
    ensures Represents(nodes', i, t, lo, hi)
    decreases t
  {
    if t.head.chunkType == TypeSet {
      var b := nodes[i].children.index;
      forall k | 0 <= k < |t.kids|
        ensures Represents(nodes', b + k, t.kids[k], lo, hi)
      {
        RepresentsFrame(nodes, nodes', b + k, t.kids[k], lo, hi);
      }
    }
  }

  /** A representation holds in any wider footprint. */
  lemma {:induction false} RepresentsWiden(nodes: seq<NodeRec>, i: nat, t: Tree, lo: nat, hi: nat, lo': nat, hi': nat)
    requires Represents(nodes, i, t, lo, hi)
    requires lo' <= lo && hi <= hi' <= |nodes|
    ensures Represents(nodes, i, t, lo', hi')
    decreases t
  {
    if t.head.chunkType == TypeSet {
      var b := nodes[i].children.index;
      forall k | 0 <= k < |t.kids|
        ensures Represents(nodes, b + k, t.kids[k], lo', hi')
      {
        RepresentsWiden(nodes, b + k, t.kids[k], lo, hi, lo', hi');
      }
    }
  }

  /**
   * One more child built into slot b + slot: the children built before it
   * keep their representation, all of them now within [lo, |nodes|).
   */
  lemma ChildBuilt(pre: seq<NodeRec>, nodes: seq<NodeRec>, b: nat, lo: nat, kids: seq<Tree>, slot: nat)
    requires slot < |kids| && b + slot < lo <= |pre| <= |nodes|
    requires forall k | 0 <= k < slot :: Represents(pre, b + k, kids[k], lo, |pre|)
    requires forall j | 0 <= j < |pre| && j != b + slot :: nodes[j] == pre[j]
    requires Represents(nodes, b + slot, kids[slot], |pre|, |nodes|)
    ensures forall k | 0 <= k < slot + 1 :: Represents(nodes, b + k, kids[k], lo, |nodes|)
  {
    forall k | 0 <= k < slot + 1
      ensures Represents(nodes, b + k, kids[k], lo, |nodes|)
    {
      if k < slot {
        RepresentsFrame(pre, nodes, b + k, kids[k], lo, |pre|);
        RepresentsWiden(nodes, b + k, kids[k], lo, |pre|, lo, |nodes|);
      } else {
        RepresentsWiden(nodes, b + k, kids[k], |pre|, |nodes|, lo, |nodes|);
      }
    }
  }

  /** The children of a SET node, each represented within [lo, |nodes|), are so within [lo', |nodes|). */
  lemma KidsWiden(nodes: seq<NodeRec>, b: nat, kids: seq<Tree>, lo: nat, lo': nat)
    requires lo' <= lo <= |nodes|
    requires forall k | 0 <= k < |kids| :: Represents(nodes, b + k, kids[k], lo, |nodes|)
    ensures forall k | 0 <= k < |kids| :: Represents(nodes, b + k, kids[k], lo', |nodes|)
  {
    forall k | 0 <= k < |kids|
      ensures Represents(nodes, b + k, kids[k], lo', |nodes|)
    {
      RepresentsWiden(nodes, b + k, kids[k], lo, |nodes|, lo', |nodes|);
    }
  }

  /**
   * A SET node's children line up with chunk_get_nth on the SET it was
   * built from: child nth has the type and data length of item nth.
   */
  lemma ChildIsNth(buf: seq<u8>, at: nat, limit: nat, t: Tree, nodes: seq<NodeRec>, i: nat, lo: nat, hi: nat, nth: nat)
    requires limit <= |buf| && Parse(buf, at, limit, TypeSet) == Some(t)
    requires Represents(nodes, i, t, lo, hi) && t.head.chunkType == TypeSet
    requires nth < nodes[i].nrChildren
    ensures GetNth(buf, at, nth).Some?
    ensures nodes[i].children.index + nth < |nodes|
    ensures nodes[nodes[i].children.index + nth].nodeType == GetNth(buf, at, nth).value.chunkType
    ensures nodes[nodes[i].children.index + nth].dataLength == GetNth(buf, at, nth).value.dataLength
  {
    GetNthIsKid(buf, at, limit, t, nth);
    assert Represents(nodes, nodes[i].children.index + nth, t.kids[nth], lo, hi);
  }

  /**
   * The offsets at which the loop of chunk_node_construct calls itself, with
   * the first item at `pos` and the counter starting at `remaining`: it goes
   * on while the counter is non-zero, stepping by each child's total length.
   * It stops at an offset where no header decodes (the C code reads past
   * the buffer there) and after a child longer than what remains (the C
   * subtraction wraps there).
   */
  function ChildOffsets(buf: seq<u8>, pos: nat, remaining: nat): seq<nat>
    decreases remaining
  {
    if remaining == 0 then []
    else match Decode(buf, pos)
      case Err(_) => [pos]
      case Ok(c) =>
        if c.totalLength <= remaining
        then [pos] + ChildOffsets(buf, pos + c.totalLength, remaining - c.totalLength)
        else [pos]
  }

  /** The addresses of a run of chunks. */
  function Addresses(cs: seq<Chunk>): (r: seq<nat>)
    ensures |r| == |cs|
  {
    if cs == [] then [] else [cs[0].address] + Addresses(cs[1..])
  }

  /**
   * With a counter that covers a run of consecutive items and `extra` bytes
   * more, the loop visits every item and then carries on after the run.
   */
  lemma {:induction false} ChildOffsetsRun(buf: seq<u8>, pos: nat, cs: seq<Chunk>, extra: nat, remaining: nat, end: nat)
    requires Consecutive(buf, pos, cs)
    requires remaining == Span(cs) + extra && end == pos + Span(cs)
    ensures ChildOffsets(buf, pos, remaining) == Addresses(cs) + ChildOffsets(buf, end, extra)
    decreases |cs|
  {
    if cs == [] {
      assert pos == end && remaining == extra && Addresses(cs) == [];
      assert Addresses(cs) + ChildOffsets(buf, end, extra) == ChildOffsets(buf, pos, remaining);
    } else {
      var c, tl := cs[0], cs[1..];
      var next, rest := pos + c.totalLength, remaining - c.totalLength;
      assert Span(cs) == c.totalLength + Span(tl);
      ChildOffsetsRun(buf, next, tl, extra, rest, end);
      ChildOffsetsStep(buf, pos, c, remaining, next, rest);
      assert Addresses(cs) == [pos] + Addresses(tl);
      Regroup(ChildOffsets(buf, pos, remaining), pos, ChildOffsets(buf, next, rest), Addresses(tl), ChildOffsets(buf, end, extra));
    }
  }

  lemma Regroup(whole: seq<nat>, pos: nat, tail: seq<nat>, rest: seq<nat>, after: seq<nat>)
    requires whole == [pos] + tail && tail == rest + after
    ensures whole == ([pos] + rest) + after
  {
  }

  /** A child that fits the counter is built and the loop goes on after it. */
  lemma ChildOffsetsStep(buf: seq<u8>, pos: nat, c: Chunk, remaining: nat, next: nat, rest: nat)
    requires Decode(buf, pos) == Ok(c) && c.totalLength <= remaining
    requires next == pos + c.totalLength && rest == remaining - c.totalLength
    ensures ChildOffsets(buf, pos, remaining) == [pos] + ChildOffsets(buf, next, rest)
  {
  }

  /**
   * The counter seeded with the SET's data length, as the corrected builder
   * does: one construction per item, at the item's offset, and no more.
   */
  lemma ChildOffsetsCorrected(buf: seq<u8>, at: nat, limit: nat, t: Tree)
    requires limit <= |buf| && Parse(buf, at, limit, TypeSet) == Some(t)
    requires t.head.chunkType == TypeSet
    ensures ChildOffsets(buf, t.head.data, t.head.dataLength) == Addresses(Heads(t.kids))
    ensures |ChildOffsets(buf, t.head.data, t.head.dataLength)| == |t.kids|
  {
    var s, e := ParsedKids(buf, t, at, limit, TypeSet);
    ParsedRun(buf, s, e, TypeSet, t.kids);
    ChildOffsetsRun(buf, s, Heads(t.kids), 0, t.head.dataLength, e);
    assert ChildOffsets(buf, e, 0) == [];
  }

  /**
   * The counter seeded with the SET's total length, as chunk_node.c:25 does:
   * after the last item 1 + nrLengthBytes is still left, so the loop builds
   * one more child, from the bytes just past the SET, into a slot beyond the
   * nr_items nodes the children array holds.
   */
  lemma ChildOffsetsAsWritten(buf: seq<u8>, at: nat, limit: nat, t: Tree)
    requires limit <= |buf| && Parse(buf, at, limit, TypeSet) == Some(t)
    requires t.head.chunkType == TypeSet
    ensures |ChildOffsets(buf, t.head.data, t.head.totalLength)| > |t.kids|
    ensures ChildOffsets(buf, t.head.data, t.head.totalLength)[|t.kids|] == at + t.head.totalLength
  {
    var s, e := ParsedKids(buf, t, at, limit, TypeSet);
    ParsedRun(buf, s, e, TypeSet, t.kids);
    ChildOffsetsRun(buf, s, Heads(t.kids), 1 + t.head.nrLengthBytes, t.head.totalLength, e);
    var tail := ChildOffsets(buf, e, 1 + t.head.nrLengthBytes);
    assert tail != [] && tail[0] == e;
    assert (Addresses(Heads(t.kids)) + tail)[|t.kids|] == tail[0];
  }

  /** The node heap: every node allocated so far, a node's index being its address. */
  class NodeHeap {
    var nodes: seq<NodeRec>

    constructor()
      ensures nodes == []
    {
      nodes := [];
    }

    /** chunk_node_make: allocates one node and zeroes it. */
    method Make() returns (p: Ptr)
      modifies this
      ensures p == Addr(|old(nodes)|)
      ensures nodes == old(nodes) + [ZeroNode]
    {
      p := Addr(|nodes|);
      nodes := nodes + [ZeroNode];
    }

    /** The malloc and memset of a SET's children: n consecutive zeroed nodes. */
    method MakeArray(n: nat) returns (p: Ptr)
      modifies this
      ensures p == Addr(|old(nodes)|)
      ensures nodes == old(nodes) + seq(n, _ => ZeroNode)
    {
      p := Addr(|nodes|);
      nodes := nodes + seq(n, _ => ZeroNode);
    }

    /** chunk_node_init: copies the chunk's type and data length into the node, and nothing else. */
    method Init(p: Ptr, c: Chunk)
      requires p.Addr? && p.index < |nodes|
      modifies this
      ensures nodes == old(nodes)[p.index := old(nodes)[p.index].(nodeType := c.chunkType, dataLength := c.dataLength)]
    {
      nodes := nodes[p.index := nodes[p.index].(nodeType := c.chunkType, dataLength := c.dataLength)];
    }

    /**
     * chunk_node_construct, with its two defects corrected (see
     * ChildOffsetsAsWritten and FillChildrenAsWritten): decodes the chunk at
     * `at` into the zeroed node p and, for a SET, builds its children. Nodes
     * allocated before the call, other than p, are left alone; everything
     * below p is freshly allocated.
     */
    method Construct(buf: seq<u8>, at: nat, p: Ptr, ghost limit: nat, ghost t: Tree) returns (chunk: Chunk)
      requires limit <= |buf| && Parse(buf, at, limit, TypeSet) == Some(t)
      requires p.Addr? && p.index < |nodes| && nodes[p.index] == ZeroNode
      modifies this
      ensures chunk == t.head
      ensures |old(nodes)| <= |nodes|
      ensures forall j | 0 <= j < |old(nodes)| && j != p.index :: nodes[j] == old(nodes)[j]
      ensures Represents(nodes, p.index, t, |old(nodes)|, |nodes|)
      decreases limit - at, 1
    {
      ParsedHead(buf, at, limit, TypeSet, t);
      chunk := Decode(buf, at).value;
      Init(p, chunk);
      if chunk.chunkType == TypeSet {
        NrItemsOfTree(buf, at, limit, t);
        ghost var s, e := ParsedKids(buf, t, at, limit, TypeSet);
        ConstructSet(buf, p, chunk, e, t);
      } else {
        assert t.kids == [];
      }
    }

    /**
     * The SET branch of chunk_node_construct: the node gets nr_items
     * children in a fresh array, and item after item is built into
     * consecutive slots until the items' total lengths use up the SET's
     * data length.
     */
    method ConstructSet(buf: seq<u8>, p: Ptr, chunk: Chunk, ghost e: nat, ghost t: Tree)
      requires chunk == t.head && chunk.chunkType == TypeSet && e == chunk.data + chunk.dataLength <= |buf|
      requires ParseItems(buf, chunk.data, e, TypeSet) == Some(t.kids)
      requires NrItems(buf, chunk) == Some(|t.kids|)
      requires p.Addr? && p.index < |nodes|
      requires nodes[p.index] == ZeroNode.(nodeType := chunk.chunkType, dataLength := chunk.dataLength)
      modifies this
      ensures |old(nodes)| <= |nodes|
      ensures forall j | 0 <= j < |old(nodes)| && j != p.index :: nodes[j] == old(nodes)[j]
      ensures Represents(nodes, p.index, t, |old(nodes)|, |nodes|)
      decreases e - chunk.data, 3
    {
      ghost var kids := t.kids;
      var nr := NrItems(buf, chunk).value;
      var children := MakeArray(nr);
      nodes := nodes[p.index := nodes[p.index].(nrChildren := nr, children := children)];
      var b := children.index;
      ghost var lo := b + nr;
      ghost var prefix := nodes[..b];
      var remaining: nat := chunk.dataLength;
      var data: nat := chunk.data;
      var slot: nat := 0;
      while remaining != 0
        invariant slot <= nr == |kids| && lo <= |nodes|
        invariant data + remaining == e
        invariant ParseItems(buf, data, e, TypeSet) == Some(kids[slot..])
        invariant nodes[..b] == prefix
        invariant forall j | b + slot <= j < lo :: nodes[j] == ZeroNode
        invariant forall k | 0 <= k < slot :: Represents(nodes, b + k, kids[k], lo, |nodes|)
        decreases remaining
      {
        var child := BuildChild(buf, data, b, slot, e, kids, lo);
        slot := slot + 1;
        data := data + child.totalLength;
        remaining := remaining - child.totalLength;
      }
      assert kids[slot..] == [];
      KidsWiden(nodes, b, kids, lo, |old(nodes)|);
      assert nodes[p.index] == prefix[p.index];
    }

    /**
     * One turn of the loop of chunk_node_construct: item `slot`, at `data`,
     * is built into the zeroed node b + slot; the items built before keep
     * their nodes.
     */
    method BuildChild(buf: seq<u8>, data: nat, b: nat, slot: nat, ghost e: nat, ghost kids: seq<Tree>, ghost lo: nat)
      returns (child: Chunk)
      requires e <= |buf| && data < e && slot <= |kids|
      requires ParseItems(buf, data, e, TypeSet) == Some(kids[slot..])
      requires b + |kids| <= lo <= |nodes|
      requires forall j | b + slot <= j < lo :: nodes[j] == ZeroNode
      requires forall k | 0 <= k < slot :: Represents(nodes, b + k, kids[k], lo, |nodes|)
      modifies this
      ensures slot < |kids| && child == kids[slot].head
      ensures data + child.totalLength <= e
      ensures ParseItems(buf, data + child.totalLength, e, TypeSet) == Some(kids[slot + 1..])
      ensures |old(nodes)| <= |nodes|
      ensures nodes[..b] == old(nodes)[..b]
      ensures forall j | b + slot + 1 <= j < lo :: nodes[j] == ZeroNode
      ensures forall k | 0 <= k < slot + 1 :: Represents(nodes, b + k, kids[k], lo, |nodes|)
      decreases e - data, 2
    {
      ghost var rest := kids[slot..];
      ParseItemsCons(buf, data, e, TypeSet, rest);
      assert rest[0] == kids[slot] && rest[1..] == kids[slot + 1..];
      ghost var pre := nodes;
      child := Construct(buf, data, Addr(b + slot), e, kids[slot]);
      ChildBuilt(pre, nodes, b, lo, kids, slot);
      assert nodes[..b] == pre[..b];
    }

    /**
     * The loop of chunk_node_construct as written for the children pointer:
     * each child is initialised at node->children, which is then advanced.
     * The slots are filled in order, but the SET node is left pointing one
     * past its array, so its first child is no longer reachable from it.
     */
    method FillChildrenAsWritten(p: Ptr, kids: seq<Chunk>)
      requires p.Addr? && p.index < |nodes| && nodes[p.index].children.Addr?
      requires p.index < nodes[p.index].children.index
      requires nodes[p.index].children.index + |kids| <= |nodes|
      modifies this
      ensures |nodes| == |old(nodes)|
      ensures nodes[p.index].children == Addr(old(nodes[p.index].children.index) + |kids|)
      ensures forall k | 0 <= k < |kids| ::
        && nodes[old(nodes[p.index].children.index) + k].nodeType == kids[k].chunkType
        && nodes[old(nodes[p.index].children.index) + k].dataLength == kids[k].dataLength
      ensures forall j | 0 <= j < |nodes| && j != p.index
          && !(old(nodes[p.index].children.index) <= j < old(nodes[p.index].children.index) + |kids|) ::
        nodes[j] == old(nodes[j])
    {
      ghost var b := nodes[p.index].children.index;
      var i := 0;
      while i < |kids|
        invariant i <= |kids| && |nodes| == |old(nodes)|
        invariant nodes[p.index].children == Addr(b + i)
        invariant forall k | 0 <= k < i ::
          nodes[b + k].nodeType == kids[k].chunkType && nodes[b + k].dataLength == kids[k].dataLength
        invariant forall j | 0 <= j < |nodes| && j != p.index && !(b <= j < b + i) :: nodes[j] == old(nodes[j])
      {
        var slot := nodes[p.index].children;
        Init(slot, kids[i]);
        nodes := nodes[p.index := nodes[p.index].(children := Addr(slot.index + 1))];
        i := i + 1;
      }
    }

    /**
     * chunk_node_build: a fresh root node built from the chunk at the start
     * of the buffer. Nodes allocated before are left alone.
     */
    method Build(buf: seq<u8>) returns (root: Ptr)
      requires Parse(buf, 0, |buf|, TypeSet).Some?
      modifies this
      ensures root == Addr(|old(nodes)|)
      ensures Represents(nodes, root.index, Parse(buf, 0, |buf|, TypeSet).value, |old(nodes)|, |nodes|)
      ensures |old(nodes)| < |nodes| && nodes[..|old(nodes)|] == old(nodes)
    {
      ghost var t := Parse(buf, 0, |buf|, TypeSet).value;
      root := Make();
      ghost var mid := nodes;
      var _ := Construct(buf, 0, root, |buf|, t);
      RepresentsWiden(nodes, root.index, t, |mid|, |nodes|, |old(nodes)|, |nodes|);
      assert nodes[..|old(nodes)|] == old(nodes);
    }
  }
}
