/**
 * Addressing inside a set: a set's payload is its items' chunks back to back,
 * with no gaps, and items are found by index or by a path of indices.
 */
module ChunkSet {
  import opened Wrappers
  import opened Bytes
  import opened ChunkCodec

  /** The number of bytes a run of chunks occupies. */
  function Span(items: seq<Chunk>): nat
  {
    if items == [] then 0 else items[0].totalLength + Span(items[1..])
  }

  lemma {:induction false} SpanAppend(a: seq<Chunk>, b: seq<Chunk>)
    ensures Span(a + b) == Span(a) + Span(b)
  {
    if a == [] {
      assert a + b == b;
    } else {
      assert (a + b)[1..] == a[1..] + b;
      SpanAppend(a[1..], b);
    }
  }

  /** `items` are the headers decoded back to back from `pos`. */
  predicate Consecutive(buf: seq<u8>, pos: nat, items: seq<Chunk>)
    decreases |items|
  {
    items == [] ||
    (Decode(buf, pos) == Ok(items[0]) && Consecutive(buf, pos + items[0].totalLength, items[1..]))
  }

  /**
   * Decodes the item headers of the payload [pos, end): stops exactly at
   * `end`, or fails if a header cannot be decoded or an item runs past `end`.
   */
  function ScanItems(buf: seq<u8>, pos: nat, end: nat): (r: Option<seq<Chunk>>)
    ensures r.Some? ==> pos <= end <= |buf| && |r.value| <= end - pos
    decreases end - pos
  {
    if end > |buf| || pos > end then None
    else if pos == end then Some([])
    else match Decode(buf, pos)
      case Err(_) => None
      case Ok(c) =>
        if pos + c.totalLength > end then None
        else match ScanItems(buf, pos + c.totalLength, end)
          case None => None
          case Some(rest) => Some([c] + rest)
  }

  /** What the scan finds is a gap-free run of items that ends exactly at `end`. */
  lemma {:induction false} ScanItemsSound(buf: seq<u8>, pos: nat, end: nat, items: seq<Chunk>)
    requires ScanItems(buf, pos, end) == Some(items)
    ensures Consecutive(buf, pos, items) && pos + Span(items) == end
    decreases end - pos
  {
    if pos < end {
      var c := Decode(buf, pos).value;
      var rest := ScanItems(buf, pos + c.totalLength, end).value;
      ScanItemsSound(buf, pos + c.totalLength, end, rest);
      assert items == [c] + rest;
      assert items[1..] == rest;
    }
  }

  /** Any gap-free run of items that ends at `end` is the one the scan finds. */
  lemma {:induction false} ScanItemsComplete(buf: seq<u8>, pos: nat, end: nat, items: seq<Chunk>)
    requires Consecutive(buf, pos, items) && pos + Span(items) == end && end <= |buf|
    ensures ScanItems(buf, pos, end) == Some(items)
    decreases |items|
  {
    if items != [] {
      var c, rest := items[0], items[1..];
      var next := pos + c.totalLength;
      assert Decode(buf, pos) == Ok(c) && Consecutive(buf, next, rest);
      assert next + Span(rest) == end;
      ScanItemsComplete(buf, next, end, rest);
      assert ScanItems(buf, pos, end) == Some([c] + rest);
      assert [c] + rest == items;
    }
  }

  /** Item i of a gap-free run sits at `pos` plus the span of the items before it. */
  lemma {:induction false} ConsecutiveAt(buf: seq<u8>, pos: nat, items: seq<Chunk>, i: nat)
    requires Consecutive(buf, pos, items) && i < |items|
    ensures Decode(buf, pos + Span(items[..i])) == Ok(items[i])
    ensures items[i].address == pos + Span(items[..i])
    decreases i
  {
    if i > 0 {
      var next := pos + items[0].totalLength;
      assert Consecutive(buf, next, items[1..]);
      ConsecutiveAt(buf, next, items[1..], i - 1);
      SpanTail(items, i);
      assert items[1..][i - 1] == items[i];
    }
  }

  /** The span of the first i items is the first item's length plus the span of the next i - 1. */
  lemma SpanTail(items: seq<Chunk>, i: nat)
    requires 0 < i <= |items|
    ensures Span(items[..i]) == items[0].totalLength + Span(items[1..][..i - 1])
  {
    assert items[..i] == [items[0]] + items[1..][..i - 1];
    SpanAppend([items[0]], items[1..][..i - 1]);
  }

  /** Offset `pos + Span(items[..idx])` is item idx, or the end of the run for idx == |items|. */
  lemma OffsetInRun(buf: seq<u8>, pos: nat, items: seq<Chunk>, idx: nat)
    requires Consecutive(buf, pos, items) && idx <= |items|
    ensures idx < |items| ==> Decode(buf, pos + Span(items[..idx])) == Ok(items[idx])
    ensures idx == |items| ==> Span(items[..idx]) == Span(items)
  {
    if idx < |items| {
      ConsecutiveAt(buf, pos, items, idx);
    } else {
      assert items[..idx] == items;
    }
  }

  /** The items of a set chunk, or None for another type or a malformed payload. */
  function SetItems(buf: seq<u8>, c: Chunk): Option<seq<Chunk>>
  {
    if c.chunkType == TypeSet then ScanItems(buf, c.data, c.data + c.dataLength) else None
  }

  /** A set whose payload is exactly a gap-free run of items has those items. */
  lemma SetItemsExact(buf: seq<u8>, c: Chunk, items: seq<Chunk>)
    requires c.chunkType == TypeSet && c.data + c.dataLength <= |buf|
    requires Consecutive(buf, c.data, items) && Span(items) == c.dataLength
    ensures SetItems(buf, c) == Some(items)
  {
    ScanItemsComplete(buf, c.data, c.data + c.dataLength, items);
  }

  /**
   * The number of items that fill [pos, end) back to back, counted header by
   * header; None when a header does not decode or the items do not end
   * exactly at `end`.
   */
  function CountItems(buf: seq<u8>, pos: nat, end: nat): (r: Option<nat>)
    ensures r.Some? ==> pos <= end <= |buf| && r.value <= end - pos
    decreases end - pos
  {
    if end > |buf| || pos > end then None
    else if pos == end then Some(0)
    else match Decode(buf, pos)
      case Err(_) => None
      case Ok(c) =>
        if pos + c.totalLength > end then None
        else match CountItems(buf, pos + c.totalLength, end)
          case None => None
          case Some(n) => Some(n + 1)
  }

  /** Counting succeeds exactly when the scan does, and counts the items it finds. */
  lemma {:induction false} CountItemsScans(buf: seq<u8>, pos: nat, end: nat)
    ensures CountItems(buf, pos, end)
      == if ScanItems(buf, pos, end).Some? then Some(|ScanItems(buf, pos, end).value|) else None
    decreases end - pos
  {
    if pos < end && end <= |buf| && Decode(buf, pos).Ok? {
      var c := Decode(buf, pos).value;
      if pos + c.totalLength <= end {
        CountItemsScans(buf, pos + c.totalLength, end);
      }
    }
  }

  /** The offset reached from `pos` by stepping over k items, header and payload. */
  function SkipItems(buf: seq<u8>, pos: nat, k: nat): (r: nat)
    ensures r >= pos
    decreases k
  {
    if k == 0 then pos
    else match Decode(buf, pos)
      case Err(_) => pos
      case Ok(c) => SkipItems(buf, pos + c.totalLength, k - 1)
  }

  /** Stepping over the first k items of a gap-free run lands where those items end. */
  lemma {:induction false} SkipItemsSpan(buf: seq<u8>, pos: nat, items: seq<Chunk>, k: nat)
    requires Consecutive(buf, pos, items) && k <= |items|
    ensures SkipItems(buf, pos, k) == pos + Span(items[..k])
    decreases k
  {
    if k > 0 {
      SkipItemsSpan(buf, pos + items[0].totalLength, items[1..], k - 1);
      SpanTail(items, k);
    }
  }

  /** chunk_set_nr_items: the number of items of a set; None for another type or a malformed payload. */
  function NrItems(buf: seq<u8>, c: Chunk): Option<nat>
  {
    if c.chunkType == TypeSet then CountItems(buf, c.data, c.data + c.dataLength) else None
  }

  /**
   * The count is the number of the set's items; a set that has a count
   * lies inside the buffer and has no more items than payload bytes.
   */
  lemma NrItemsMeaning(buf: seq<u8>, c: Chunk)
    requires Decode(buf, c.address) == Ok(c)
    ensures NrItems(buf, c) == if SetItems(buf, c).Some? then Some(|SetItems(buf, c).value|) else None
    ensures NrItems(buf, c).Some? ==>
      && c.chunkType == TypeSet
      && NrItems(buf, c).value <= c.dataLength
      && c.address + c.totalLength <= |buf|
  {
    CountItemsScans(buf, c.data, c.data + c.dataLength);
  }

  /**
   * chunk_set_item_byte_offset: the offset, from the start of the set, of
   * the header of item `idx`, found by stepping over the items before it.
   * idx equal to the item count gives the end of the set; an index beyond
   * it, a non-set or a malformed payload gives 0.
   */
  function ItemByteOffset(buf: seq<u8>, c: Chunk, idx: nat): nat
    requires Decode(buf, c.address) == Ok(c)
  {
    match NrItems(buf, c)
    case None => 0
    case Some(n) => if idx <= n then SkipItems(buf, c.data, idx) - c.address else 0
  }

  /**
   * The offset is non-zero exactly for the indices of a well-formed set up
   * to its item count. It is the header plus the items before idx, laid
   * out without gaps, and it leads to item idx, or, for idx equal to the
   * count, to the end of the set.
   */
  lemma ItemByteOffsetMeaning(buf: seq<u8>, c: Chunk, idx: nat)
    requires Decode(buf, c.address) == Ok(c)
    ensures ItemByteOffset(buf, c, idx) != 0 <==> SetItems(buf, c).Some? && idx <= |SetItems(buf, c).value|
    ensures SetItems(buf, c).Some? && idx <= |SetItems(buf, c).value| ==>
      ItemByteOffset(buf, c, idx) == 1 + c.nrLengthBytes + Span(SetItems(buf, c).value[..idx])
    ensures SetItems(buf, c).Some? && idx < |SetItems(buf, c).value| ==>
      Decode(buf, c.address + ItemByteOffset(buf, c, idx)) == Ok(SetItems(buf, c).value[idx])
    ensures SetItems(buf, c).Some? && idx == |SetItems(buf, c).value| ==>
      ItemByteOffset(buf, c, idx) == c.totalLength
  {
    NrItemsMeaning(buf, c);
    if SetItems(buf, c).Some? && idx <= |SetItems(buf, c).value| {
      var items := SetItems(buf, c).value;
      ScanItemsSound(buf, c.data, c.data + c.dataLength, items);
      SkipItemsSpan(buf, c.data, items, idx);
      OffsetInRun(buf, c.data, items, idx);
    }
  }

  /**
   * chunk_set_get_nth: the header of item `nth` of the set at `at`, decoded
   * at that item's offset, when the chunk there is a set with more than
   * `nth` items.
   */
  function GetNth(buf: seq<u8>, at: nat, nth: nat): Option<Chunk>
  {
    match Decode(buf, at)
    case Err(_) => None
    case Ok(c) =>
      match NrItems(buf, c)
      case None => None
      case Some(n) =>
        if nth < n then
          match Decode(buf, at + ItemByteOffset(buf, c, nth))
          case Err(_) => None
          case Ok(item) => Some(item)
        else None
  }

  /**
   * An item is found exactly when the chunk at `at` is a well-formed set
   * with more than `nth` items, and it is that set's item `nth`, sitting at
   * the offset chunk_set_item_byte_offset gives.
   */
  lemma GetNthMeaning(buf: seq<u8>, at: nat, nth: nat)
    ensures GetNth(buf, at, nth) ==
      if Decode(buf, at).Ok? && SetItems(buf, Decode(buf, at).value).Some?
         && nth < |SetItems(buf, Decode(buf, at).value).value|
      then Some(SetItems(buf, Decode(buf, at).value).value[nth])
      else None
    ensures GetNth(buf, at, nth).Some? ==>
      GetNth(buf, at, nth).value.address == at + ItemByteOffset(buf, Decode(buf, at).value, nth)
  {
    if Decode(buf, at).Ok? {
      var c := Decode(buf, at).value;
      NrItemsMeaning(buf, c);
      ItemByteOffsetMeaning(buf, c, nth);
    }
  }

  /**
   * chunk_byte_offset: follows a path of item indices from the chunk at
   * `at` and gives the offset, from `at`, of the item it names. The last
   * index may equal its set's item count (the end of that set); every
   * earlier index must name an item that is a set. 0 when the path cannot
   * be followed (and for the empty path).
   */
  function ByteOffset(buf: seq<u8>, at: nat, path: seq<nat>): nat
    decreases |path|
  {
    if path == [] then 0
    else match Decode(buf, at)
      case Err(_) => 0
      case Ok(c) =>
        var off := ItemByteOffset(buf, c, path[0]);
        if off == 0 || |path| == 1 then off
        else if Some(path[0]) == NrItems(buf, c) then 0
        else
          var inner := ByteOffset(buf, at + off, path[1..]);
          if inner == 0 then 0 else off + inner
  }

  /**
   * One step of chunk_byte_offset, read in terms of the items of the set at
   * `at`: the first index names an item, or, as the last index, the end of
   * the set; anything beyond gives 0.
   */
  lemma ByteOffsetStep(buf: seq<u8>, at: nat, path: seq<nat>, c: Chunk, items: seq<Chunk>)
    requires path != [] && Decode(buf, at) == Ok(c) && SetItems(buf, c) == Some(items)
    ensures path[0] > |items| ==> ByteOffset(buf, at, path) == 0
    ensures |path| == 1 && path[0] == |items| ==> ByteOffset(buf, at, path) == c.totalLength
    ensures |path| > 1 && path[0] == |items| ==> ByteOffset(buf, at, path) == 0
    ensures path[0] < |items| ==> at < items[path[0]].address
    ensures |path| == 1 && path[0] < |items| ==> ByteOffset(buf, at, path) == items[path[0]].address - at
  {
    var off := ItemByteOffset(buf, c, path[0]);
    ItemByteOffsetMeaning(buf, c, path[0]);
    NrItemsMeaning(buf, c);
    if path[0] == |items| {
    } else if path[0] < |items| {
      assert Decode(buf, at + off) == Ok(items[path[0]]);
    }
  }

  /** A longer path continues from the item its first index names. */
  lemma ByteOffsetDeeper(buf: seq<u8>, at: nat, path: seq<nat>, c: Chunk, items: seq<Chunk>)
    requires |path| > 1 && Decode(buf, at) == Ok(c) && SetItems(buf, c) == Some(items)
    requires path[0] < |items|
    ensures at < items[path[0]].address
    ensures
      var inner := ByteOffset(buf, items[path[0]].address, path[1..]);
      ByteOffset(buf, at, path) == if inner == 0 then 0 else items[path[0]].address - at + inner
  {
    var i := path[0];
    var off := ItemByteOffset(buf, c, i);
    assert off != 0 && at + off == items[i].address && NrItems(buf, c) == Some(|items|) by {
      ItemByteOffsetMeaning(buf, c, i);
      NrItemsMeaning(buf, c);
      assert Decode(buf, at + off) == Ok(items[i]);
    }
    ByteOffsetUnfold(buf, at, path, c, off);
  }

  /** One unfolding of chunk_byte_offset, given the header at `at` and the first offset. */
  lemma ByteOffsetUnfold(buf: seq<u8>, at: nat, path: seq<nat>, c: Chunk, off: nat)
    requires |path| > 1 && Decode(buf, at) == Ok(c) && off == ItemByteOffset(buf, c, path[0])
    requires off != 0 && NrItems(buf, c) != Some(path[0])
    ensures
      var inner := ByteOffset(buf, at + off, path[1..]);
      ByteOffset(buf, at, path) == if inner == 0 then 0 else off + inner
  {
  }

  /** chunk_byte_offset gives 0 when the chunk at `at` is not a well-formed set. */
  lemma ByteOffsetNotSet(buf: seq<u8>, at: nat, path: seq<nat>, c: Chunk)
    requires Decode(buf, at) == Ok(c) && SetItems(buf, c).None?
    ensures ByteOffset(buf, at, path) == 0
  {
    if path != [] {
      ItemByteOffsetMeaning(buf, c, path[0]);
    }
  }
}
