/**
 * A buffer read as a tree: every chunk of the container type holds its items,
 * decoded one after another until its payload is used up exactly.
 */
module ChunkTree {
  import opened Wrappers
  import opened Bytes
  import opened ChunkCodec
  import opened ChunkSet

  /** A decoded chunk and, for a container, its items in order. */
  datatype Tree = Tree(head: Chunk, kids: seq<Tree>)

  /** The headers of a run of trees. */
  function Heads(ts: seq<Tree>): (r: seq<Chunk>)
    ensures |r| == |ts|
  {
    if ts == [] then [] else [ts[0].head] + Heads(ts[1..])
  }

  lemma {:induction false} HeadsAt(ts: seq<Tree>, i: nat)
    requires i < |ts|
    ensures Heads(ts)[i] == ts[i].head
    decreases i
  {
    if i > 0 {
      HeadsAt(ts[1..], i - 1);
    }
  }

  /**
   * The tree of the chunk at `at`, which must end by `limit`; chunks of type
   * `container` are descended into. None when a header does not decode, a
   * chunk runs past `limit`, or a container's items do not fill its payload
   * exactly.
   */
  function Parse(buf: seq<u8>, at: nat, limit: nat, container: TypeCode): (r: Option<Tree>)
    requires limit <= |buf|
    ensures r.Some? ==> at < at + r.value.head.totalLength <= limit
    decreases limit - at, 0
  {
    if at >= limit then None
    else match Decode(buf, at)
      case Err(_) => None
      case Ok(c) =>
        if at + c.totalLength > limit then None
        else if c.chunkType != container then Some(Tree(c, []))
        else match ParseItems(buf, c.data, c.data + c.dataLength, container)
          case None => None
          case Some(kids) => Some(Tree(c, kids))
  }

  /** The trees of the items filling [pos, end) exactly. */
  function ParseItems(buf: seq<u8>, pos: nat, end: nat, container: TypeCode): Option<seq<Tree>>
    requires end <= |buf|
    decreases end - pos, 1
  {
    if pos >= end then (if pos == end then Some([]) else None)
    else match Parse(buf, pos, end, container)
      case None => None
      case Some(t) =>
        match ParseItems(buf, pos + t.head.totalLength, end, container)
        case None => None
        case Some(rest) => Some([t] + rest)
  }

  /** A parsed tree's head is the header decoded at its offset; only containers have items. */
  lemma ParsedHead(buf: seq<u8>, at: nat, limit: nat, container: TypeCode, t: Tree)
    requires limit <= |buf| && Parse(buf, at, limit, container) == Some(t)
    ensures Decode(buf, at) == Ok(t.head)
    ensures t.head.chunkType != container ==> t.kids == []
  {
  }

  /** A non-empty parsed run is its first item's tree followed by the run after it. */
  lemma ParseItemsCons(buf: seq<u8>, pos: nat, end: nat, container: TypeCode, ks: seq<Tree>)
    requires end <= |buf| && ParseItems(buf, pos, end, container) == Some(ks) && ks != []
    ensures pos < end
    ensures Parse(buf, pos, end, container) == Some(ks[0])
    ensures ParseItems(buf, pos + ks[0].head.totalLength, end, container) == Some(ks[1..])
  {
    var t := Parse(buf, pos, end, container).value;
    var rest := ParseItems(buf, pos + t.head.totalLength, end, container).value;
    assert ks == [t] + rest;
    assert ks[1..] == rest;
  }

  /** A parsed run's headers are decoded back to back and fill [pos, end) exactly. */
  lemma {:induction false} ParsedRun(buf: seq<u8>, pos: nat, end: nat, container: TypeCode, ks: seq<Tree>)
    requires end <= |buf| && ParseItems(buf, pos, end, container) == Some(ks)
    ensures Consecutive(buf, pos, Heads(ks)) && pos + Span(Heads(ks)) == end
    decreases |ks|
  {
    if ks == [] {
      assert pos == end;
    } else {
      ParseItemsCons(buf, pos, end, container, ks);
      ParsedHead(buf, pos, end, container, ks[0]);
      ParsedRun(buf, pos + ks[0].head.totalLength, end, container, ks[1..]);
      HeadsCons(ks);
    }
  }

  lemma HeadsCons(ks: seq<Tree>)
    requires ks != []
    ensures Heads(ks)[0] == ks[0].head && Heads(ks)[1..] == Heads(ks[1..])
  {
  }

  /** Every item of a parsed run is the tree parsed at its own offset. */
  lemma {:induction false} ItemsParsed(buf: seq<u8>, pos: nat, end: nat, container: TypeCode, ks: seq<Tree>, i: nat)
    requires end <= |buf| && ParseItems(buf, pos, end, container) == Some(ks) && i < |ks|
    ensures Parse(buf, ks[i].head.address, end, container) == Some(ks[i])
    decreases i
  {
    ParseItemsCons(buf, pos, end, container, ks);
    if i == 0 {
      ParsedHead(buf, pos, end, container, ks[0]);
    } else {
      ItemsParsed(buf, pos + ks[0].head.totalLength, end, container, ks[1..], i - 1);
      assert ks[1..][i - 1] == ks[i];
    }
  }

  /** A parsed container's items are the items parsed from its payload [s, e). */
  lemma ParsedKids(buf: seq<u8>, t: Tree, at: nat, limit: nat, container: TypeCode) returns (s: nat, e: nat)
    requires limit <= |buf| && Parse(buf, at, limit, container) == Some(t)
    requires t.head.chunkType == container
    ensures at < s <= e <= limit && e - s < t.head.totalLength
    ensures s == t.head.data && e == t.head.data + t.head.dataLength
    ensures ParseItems(buf, s, e, container) == Some(t.kids)
  {
    ParsedHead(buf, at, limit, container, t);
    s := t.head.data;
    e := t.head.data + t.head.dataLength;
  }

  /** The header-only scan of a parsed set finds exactly its items' headers. */
  lemma ScanAgrees(buf: seq<u8>, t: Tree, at: nat, limit: nat)
    requires limit <= |buf| && Parse(buf, at, limit, TypeSet) == Some(t)
    requires t.head.chunkType == TypeSet
    ensures SetItems(buf, t.head) == Some(Heads(t.kids))
  {
    var s, e := ParsedKids(buf, t, at, limit, TypeSet);
    ParsedRun(buf, s, e, TypeSet, t.kids);
    SetItemsExact(buf, t.head, Heads(t.kids));
  }

  /** The number of chunks in a tree: itself and all its descendants. */
  function Count(t: Tree): nat
  {
    1 + CountAll(t.kids)
  }

  function CountAll(ts: seq<Tree>): nat
  {
    if ts == [] then 0 else Count(ts[0]) + CountAll(ts[1..])
  }

  /** The chunks of a tree in pre-order: a chunk, then each item's chunks, left to right. */
  function PreOrder(t: Tree): seq<Chunk>
  {
    [t.head] + PreOrderAll(t.kids)
  }

  function PreOrderAll(ts: seq<Tree>): seq<Chunk>
  {
    if ts == [] then [] else PreOrder(ts[0]) + PreOrderAll(ts[1..])
  }

  lemma {:induction false} PreOrderAllAppend(a: seq<Tree>, b: seq<Tree>)
    ensures PreOrderAll(a + b) == PreOrderAll(a) + PreOrderAll(b)
  {
    if a == [] {
      assert a + b == b;
    } else {
      assert (a + b)[1..] == a[1..] + b;
      PreOrderAllAppend(a[1..], b);
    }
  }

  /** The pre-order listing holds each chunk of the tree exactly once. */
  lemma {:induction false} PreOrderCount(t: Tree)
    ensures |PreOrder(t)| == Count(t)
    decreases t, 1
  {
    PreOrderAllCount(t.kids);
  }

  lemma {:induction false} PreOrderAllCount(ts: seq<Tree>)
    ensures |PreOrderAll(ts)| == CountAll(ts)
    decreases ts, 0
  {
    if ts != [] {
      PreOrderCount(ts[0]);
      PreOrderAllCount(ts[1..]);
    }
  }

  /**
   * A parsed chunk tree never has more chunks than bytes, so a 64-bit
   * counter of its chunks cannot wrap.
   */
  lemma {:induction false} CountWithinBytes(buf: seq<u8>, at: nat, limit: nat, container: TypeCode, t: Tree)
    requires limit <= |buf| && Parse(buf, at, limit, container) == Some(t)
    ensures Count(t) <= t.head.totalLength
    decreases limit - at, 0
  {
    var c := t.head;
    if c.chunkType == container {
      var s, e := ParsedKids(buf, t, at, limit, container);
      CountAllWithinBytes(buf, s, e, container, t.kids);
      assert Count(t) == 1 + CountAll(t.kids);
    } else {
      assert Count(t) == 1 + CountAll([]);
    }
  }

  lemma {:induction false} CountAllWithinBytes(buf: seq<u8>, pos: nat, end: nat, container: TypeCode, ks: seq<Tree>)
    requires end <= |buf| && ParseItems(buf, pos, end, container) == Some(ks)
    ensures CountAll(ks) <= end - pos
    decreases end - pos, 1
  {
    if ks != [] {
      ParseItemsCons(buf, pos, end, container, ks);
      var t := ks[0];
      CountWithinBytes(buf, pos, end, container, t);
      CountAllWithinBytes(buf, pos + t.head.totalLength, end, container, ks[1..]);
      assert CountAll(ks) == Count(t) + CountAll(ks[1..]);
    }
  }

  /** The subtree a path of item indices names (the empty path names the root). */
  function Select(t: Tree, path: seq<nat>): Option<Tree>
    decreases |path|
  {
    if path == [] then Some(t)
    else if path[0] < |t.kids| then Select(t.kids[path[0]], path[1..])
    else None
  }

  /**
   * The buffer offset a non-empty path names in a tree of sets: the item it
   * ends at, or, when the last index equals its set's item count, the end of
   * that set.
   */
  function Locate(t: Tree, path: seq<nat>): Option<nat>
    requires path != []
    decreases |path|
  {
    if t.head.chunkType != TypeSet then None
    else if |path| == 1 then
      if path[0] < |t.kids| then Some(t.kids[path[0]].head.address)
      else if path[0] == |t.kids| then Some(t.head.address + t.head.totalLength)
      else None
    else if path[0] < |t.kids| then Locate(t.kids[path[0]], path[1..])
    else None
  }

  /** A parsed tree's header says how many items it has: its number of subtrees, for a set. */
  lemma NrItemsOfTree(buf: seq<u8>, at: nat, limit: nat, t: Tree)
    requires limit <= |buf| && Parse(buf, at, limit, TypeSet) == Some(t)
    ensures Decode(buf, t.head.address) == Ok(t.head)
    ensures NrItems(buf, t.head) == if t.head.chunkType == TypeSet then Some(|t.kids|) else None
  {
    ParsedHead(buf, at, limit, TypeSet, t);
    if t.head.chunkType == TypeSet {
      ScanAgrees(buf, t, at, limit);
      NrItemsMeaning(buf, t.head);
    }
  }

  /** chunk_set_get_nth on a parsed set gives exactly the headers of its subtrees. */
  lemma GetNthIsKid(buf: seq<u8>, at: nat, limit: nat, t: Tree, nth: nat)
    requires limit <= |buf| && Parse(buf, at, limit, TypeSet) == Some(t)
    ensures GetNth(buf, at, nth) == if nth < |t.kids| then Some(t.kids[nth].head) else None
  {
    ParsedHead(buf, at, limit, TypeSet, t);
    GetNthMeaning(buf, at, nth);
    if t.head.chunkType == TypeSet {
      ScanAgrees(buf, t, at, limit);
      if nth < |t.kids| {
        HeadsAt(t.kids, nth);
      }
    }
  }

  /** The offset chunk_byte_offset finds for a path is where the path leads in the parsed tree. */
  lemma {:induction false} ByteOffsetLocates(buf: seq<u8>, at: nat, limit: nat, t: Tree, path: seq<nat>)
    requires limit <= |buf| && Parse(buf, at, limit, TypeSet) == Some(t) && path != []
    ensures Locate(t, path).Some? ==> Locate(t, path).value > at
    ensures ByteOffset(buf, at, path) == if Locate(t, path).Some? then Locate(t, path).value - at else 0
    decreases |path|
  {
    ParsedHead(buf, at, limit, TypeSet, t);
    var c := t.head;
    if c.chunkType == TypeSet {
      ScanAgrees(buf, t, at, limit);
      ByteOffsetStep(buf, at, path, c, Heads(t.kids));
      var idx := path[0];
      if idx < |t.kids| {
        HeadsAt(t.kids, idx);
        if |path| > 1 {
          ByteOffsetDeeper(buf, at, path, c, Heads(t.kids));
          var kid := t.kids[idx];
          var s, e := ParsedKids(buf, t, at, limit, TypeSet);
          ItemsParsed(buf, s, e, TypeSet, t.kids, idx);
          ByteOffsetLocates(buf, kid.head.address, e, kid, path[1..]);
        }
      }
    } else {
      ByteOffsetNotSet(buf, at, path, c);
    }
  }

  /**
   * In a parsed tree of sets, the subtree a non-empty path selects is the
   * chunk at the offset chunk_byte_offset gives for that path.
   */
  lemma {:induction false} ByteOffsetSelects(buf: seq<u8>, at: nat, limit: nat, t: Tree, path: seq<nat>, sub: Tree)
    requires limit <= |buf| && Parse(buf, at, limit, TypeSet) == Some(t) && path != []
    requires Select(t, path) == Some(sub)
    ensures sub.head.address > at
    ensures ByteOffset(buf, at, path) == sub.head.address - at
  {
    SelectLocates(buf, at, limit, t, path, sub);
    ByteOffsetLocates(buf, at, limit, t, path);
  }

  lemma {:induction false} SelectLocates(buf: seq<u8>, at: nat, limit: nat, t: Tree, path: seq<nat>, sub: Tree)
    requires limit <= |buf| && Parse(buf, at, limit, TypeSet) == Some(t) && path != []
    requires Select(t, path) == Some(sub)
    ensures Locate(t, path) == Some(sub.head.address)
    decreases |path|
  {
    ParsedHead(buf, at, limit, TypeSet, t);
    var kid := t.kids[path[0]];
    if |path| > 1 {
      var s, e := ParsedKids(buf, t, at, limit, TypeSet);
      ItemsParsed(buf, s, e, TypeSet, t.kids, path[0]);
      SelectLocates(buf, kid.head.address, e, kid, path[1..], sub);
    }
  }
}
