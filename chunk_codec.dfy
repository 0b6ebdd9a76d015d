/**
 * The chunk header codec: one header byte whose low nibble is the type code
 * and whose high nibble is the number of length bytes, then the data length
 * in that many little-endian bytes, then the payload.
 */
module ChunkCodec {
  import opened Wrappers
  import opened Bytes

  /** A type code as it sits in the low nibble of a header byte. */
  type TypeCode = x: nat | x < 16

  const TypeUndef: TypeCode := 0x00
  const TypeUInt8: TypeCode := 0x01
  const TypeInt8: TypeCode := 0x02
  const TypeUInt16: TypeCode := 0x03
  const TypeInt16: TypeCode := 0x04
  const TypeUInt32: TypeCode := 0x05
  const TypeInt32: TypeCode := 0x06
  const TypeUInt64: TypeCode := 0x07
  const TypeInt64: TypeCode := 0x08
  const TypeFloat32: TypeCode := 0x09
  const TypeFloat64: TypeCode := 0x0a
  const TypeUtf8: TypeCode := 0x0b
  const TypeRef: TypeCode := 0x0c
  const TypeSet: TypeCode := 0x0d

  /** The widest length field a 64-bit data length needs. */
  const MaxLengthBytes: nat := 8

  /**
   * A decoded chunk: a view of the bytes at `address` of a buffer. `data` is
   * the offset where the payload starts.
   */
  datatype Chunk = Chunk(
    address: nat,
    chunkType: TypeCode,
    nrLengthBytes: nat,
    totalLength: nat,
    dataLength: nat,
    data: nat)

  datatype DecodeError = OutOfBounds | UnsupportedWidth

  /**
   * The fixed element width of a type (the `bytes_per_type` table). The table
   * has entries for codes 0 to 12 only; any other code has none.
   */
  function BytesPerType(t: TypeCode): (r: Option<nat>)
    ensures r.Some? <==> t <= 0x0c
    ensures r.Some? ==> r.value in {0, 1, 2, 4, 8}
    ensures r.Some? && r.value > 0 <==> TypeUInt8 <= t <= TypeUtf8
    ensures t in {TypeUInt8, TypeInt8, TypeUtf8} ==> r == Some(1)
    ensures t in {TypeUInt16, TypeInt16} ==> r == Some(2)
    ensures t in {TypeUInt32, TypeInt32, TypeFloat32} ==> r == Some(4)
    ensures t in {TypeUInt64, TypeInt64, TypeFloat64} ==> r == Some(8)
    ensures t in {TypeUndef, TypeRef} ==> r == Some(0)
  {
    if t <= 0x0c then Some([0, 1, 1, 2, 2, 4, 4, 8, 8, 4, 8, 1, 0][t]) else None
  }

  /** The smallest number of bytes that hold `length` (at least one). */
  function NrLengthBytes(length: nat): (w: nat)
    ensures 1 <= w
    ensures length < Pow256(w)
    ensures w == 1 || Pow256(w - 1) <= length
  {
    if length < 256 then 1
    else
      var w' := NrLengthBytes(length / 256);
      assert length < 256 * Pow256(w');
      1 + w'
  }

  /** The minimal width is the only width that is minimal. */
  lemma NrLengthBytesUnique(length: nat, w: nat)
    requires 1 <= w && length < Pow256(w) && (w == 1 || Pow256(w - 1) <= length)
    ensures NrLengthBytes(length) == w
  {
    var v := NrLengthBytes(length);
    if w > 1 {
      Pow256Below(w - 1, v);
    }
    if v > 1 {
      Pow256Below(v - 1, w);
    }
  }

  /** A 64-bit length never needs more than 8 length bytes. */
  lemma NrLengthBytesAtMost8(length: nat)
    requires length < Pow256(MaxLengthBytes)
    ensures NrLengthBytes(length) <= MaxLengthBytes
  {
    var w := NrLengthBytes(length);
    if w > 1 {
      Pow256Below(w - 1, MaxLengthBytes);
    }
  }

  /** The width of the length field the encoder chooses: sets always reserve 8 bytes. */
  function HeaderWidth(t: TypeCode, length: nat): (w: nat)
    requires length < Pow256(MaxLengthBytes)
    ensures 1 <= w <= MaxLengthBytes
    ensures length < Pow256(w)
    ensures t == TypeSet ==> w == MaxLengthBytes
    ensures t != TypeSet ==> w == NrLengthBytes(length)
  {
    NrLengthBytesAtMost8(length);
    if t == TypeSet then MaxLengthBytes else NrLengthBytes(length)
  }

  /** The header byte followed by the little-endian length bytes. */
  function EncodeHeader(t: TypeCode, length: nat): (h: seq<u8>)
    requires length < Pow256(MaxLengthBytes)
    ensures |h| == 1 + HeaderWidth(t, length)
  {
    var w := HeaderWidth(t, length);
    [(w * 16 + t) as u8] + LeBytes(length, w)
  }

  /**
   * The header byte carries the type in its low nibble and the width in its
   * high nibble; the bytes after it hold the length.
   */
  lemma EncodeHeaderFields(t: TypeCode, length: nat)
    requires length < Pow256(MaxLengthBytes)
    ensures
      var h := EncodeHeader(t, length);
      && h[0] as nat % 16 == t
      && h[0] as nat / 16 == HeaderWidth(t, length)
      && LeValue(h[1..]) == length
  {
    var w := HeaderWidth(t, length);
    var h := EncodeHeader(t, length);
    assert h[0] as nat == w * 16 + t;
    Nibbles(w, t);
    assert h[1..] == LeBytes(length, w);
  }

  /** The two nibbles of a header byte. */
  lemma Nibbles(w: nat, t: TypeCode)
    requires w < 16
    ensures (w * 16 + t) / 16 == w && (w * 16 + t) % 16 == t
  {
  }

  /**
   * Decodes the header at `at`. Does not look into the payload, so a set is
   * decoded as its own header only.
   */
  function Decode(buf: seq<u8>, at: nat): (r: Result<Chunk, DecodeError>)
    ensures r.Ok? ==>
      && r.value.address == at
      && r.value.totalLength == 1 + r.value.nrLengthBytes + r.value.dataLength
      && r.value.data == at + 1 + r.value.nrLengthBytes
      && r.value.nrLengthBytes <= MaxLengthBytes
      && r.value.data <= |buf|
  {
    if at >= |buf| then Err(OutOfBounds)
    else
      var head := buf[at] as nat;
      var n := head / 16;
      if n > MaxLengthBytes then Err(UnsupportedWidth)
      else if at + 1 + n > |buf| then Err(OutOfBounds)
      else
        var length := LeRead(buf, at + 1, n);
        Ok(Chunk(at, head % 16, n, 1 + n + length, length, at + 1 + n))
  }

  /**
   * Decoding fails only for a header that does not fit the buffer or whose
   * width nibble is wider than a 64-bit length.
   */
  lemma DecodeFails(buf: seq<u8>, at: nat)
    ensures Decode(buf, at) == Err(OutOfBounds) <==>
      at >= |buf| || (buf[at] as nat / 16 <= MaxLengthBytes && at + 1 + buf[at] as nat / 16 > |buf|)
    ensures Decode(buf, at) == Err(UnsupportedWidth) <==>
      at < |buf| && buf[at] as nat / 16 > MaxLengthBytes
  {
  }

  /** Decoding an encoded header, wherever it sits, gives back its type and length. */
  lemma DecodeEncode(prefix: seq<u8>, t: TypeCode, length: nat, rest: seq<u8>)
    requires length < Pow256(MaxLengthBytes)
    ensures
      var w := HeaderWidth(t, length);
      var at := |prefix|;
      Decode(prefix + EncodeHeader(t, length) + rest, at)
        == Ok(Chunk(at, t, w, 1 + w + length, length, at + 1 + w))
  {
    var w := HeaderWidth(t, length);
    var h := EncodeHeader(t, length);
    var buf := prefix + h + rest;
    var at := |prefix|;
    EncodeHeaderFields(t, length);
    assert buf[at] == h[0];
    assert LeRead(buf, at + 1, w) == length by {
      LeReadValue(buf, at + 1, w);
      assert buf[at + 1 .. at + 1 + w] == h[1..];
    }
  }

  /** A header whose width is the one the encoder picks is exactly the encoder's bytes. */
  lemma EncodeDecode(buf: seq<u8>, at: nat, c: Chunk)
    requires Decode(buf, at) == Ok(c)
    requires c.dataLength < Pow256(MaxLengthBytes)
    requires c.nrLengthBytes == HeaderWidth(c.chunkType, c.dataLength)
    ensures buf[at .. c.data] == EncodeHeader(c.chunkType, c.dataLength)
  {
    var w, t := c.nrLengthBytes, c.chunkType;
    assert buf[at .. c.data] == [(w * 16 + t) as u8] + LeBytes(c.dataLength, w) by {
      DecodedFields(buf, at, c);
      HeaderBytes(buf, at, w, t, c.dataLength);
    }
    EncodeHeaderIs(t, c.dataLength, w);
  }

  /** Bytes holding header byte w * 16 + t and the value `length` in w bytes. */
  lemma HeaderBytes(buf: seq<u8>, at: nat, w: nat, t: TypeCode, length: nat)
    requires at + 1 + w <= |buf| && w < 16
    requires buf[at] as nat / 16 == w && buf[at] as nat % 16 == t
    requires LeValue(buf[at + 1 .. at + 1 + w]) == length
    ensures length < Pow256(w)
    ensures buf[at .. at + 1 + w] == [(w * 16 + t) as u8] + LeBytes(length, w)
  {
    var s := buf[at + 1 .. at + 1 + w];
    assert LeBytes(length, w) == s by {
      LeBytesOfValue(s);
    }
    assert buf[at] == (w * 16 + t) as u8 by {
      assert buf[at] as nat == w * 16 + t;
    }
    assert buf[at .. at + 1 + w] == [buf[at]] + s;
  }

  lemma EncodeHeaderIs(t: TypeCode, length: nat, w: nat)
    requires length < Pow256(MaxLengthBytes) && w == HeaderWidth(t, length)
    ensures EncodeHeader(t, length) == [(w * 16 + t) as u8] + LeBytes(length, w)
  {
  }

  /** The fields of a decoded header, read off the bytes. */
  lemma DecodedFields(buf: seq<u8>, at: nat, c: Chunk)
    requires Decode(buf, at) == Ok(c)
    ensures at < |buf| && c.nrLengthBytes == buf[at] as nat / 16 && c.chunkType == buf[at] as nat % 16
    ensures c.dataLength == LeValue(buf[at + 1 .. at + 1 + c.nrLengthBytes])
  {
    LeReadValue(buf, at + 1, c.nrLengthBytes);
  }

  /**
   * chunk_write_header: writes the header for `t` and `length` at `at` and
   * returns the offset where the payload begins.
   */
  method WriteHeader(buf: array<u8>, at: nat, t: TypeCode, length: nat) returns (payload: nat)
    requires length < Pow256(MaxLengthBytes)
    requires at + 1 + HeaderWidth(t, length) <= buf.Length
    modifies buf
    ensures payload == at + |EncodeHeader(t, length)|
    ensures buf[..] == old(buf[..])[..at] + EncodeHeader(t, length) + old(buf[..])[payload..]
  {
    var w := HeaderWidth(t, length);
    var headByte := (w * 16 + t) as u8;
    ghost var before := buf[..];
    buf[at] := headByte;
    ghost var mid := buf[..];
    WriteLengthBytes(buf, at + 1, length, w);
    payload := at + 1 + w;
    HeaderSpliced(before, mid, buf[..], at, headByte, LeBytes(length, w));
    assert EncodeHeader(t, length) == [headByte] + LeBytes(length, w);
  }

  /** Writing the header byte and then the length bytes splices the whole header in. */
  lemma HeaderSpliced(before: seq<u8>, mid: seq<u8>, after: seq<u8>, at: nat, hb: u8, lb: seq<u8>)
    requires at + 1 + |lb| <= |before|
    requires mid == before[at := hb]
    requires after == mid[..at + 1] + lb + mid[at + 1 + |lb|..]
    ensures after == before[..at] + ([hb] + lb) + before[at + 1 + |lb|..]
  {
    var expected := before[..at] + ([hb] + lb) + before[at + 1 + |lb|..];
    assert |after| == |expected|;
    forall k | 0 <= k < |after|
      ensures after[k] == expected[k]
    {
      if k < at + 1 {
        assert after[k] == mid[k];
      } else if k < at + 1 + |lb| {
        assert after[k] == lb[k - at - 1];
      } else {
        assert after[k] == mid[at + 1 + |lb|..][k - at - 1 - |lb|];
      }
    }
  }

  /** Writes `length` as `w` little-endian bytes at `from`, leaving the rest of the buffer alone. */
  method WriteLengthBytes(buf: array<u8>, from: nat, length: nat, w: nat)
    requires length < Pow256(w)
    requires from + w <= buf.Length
    modifies buf
    ensures buf[..] == old(buf[..])[..from] + LeBytes(length, w) + old(buf[..])[from + w..]
  {
    var lb := LeBytes(length, w);
    ghost var before := buf[..];
    forall k | from <= k < from + w {
      buf[k] := lb[k - from];
    }
    Spliced(buf[..], before, lb, from);
  }

  /** A buffer that agrees with `h` on [at, at + |h|) and with `before` elsewhere. */
  lemma Spliced(cur: seq<u8>, before: seq<u8>, h: seq<u8>, at: nat)
    requires |cur| == |before| && at + |h| <= |before|
    requires forall k | 0 <= k < at :: cur[k] == before[k]
    requires forall k | at <= k < at + |h| :: cur[k] == h[k - at]
    requires forall k | at + |h| <= k < |cur| :: cur[k] == before[k]
    ensures cur == before[..at] + h + before[at + |h|..]
  {
    var expected := before[..at] + h + before[at + |h|..];
    forall k | 0 <= k < |cur|
      ensures cur[k] == expected[k]
    {
      if k < at {
        assert expected[k] == before[k];
      } else if k < at + |h| {
        assert expected[k] == h[k - at];
      } else {
        assert expected[k] == before[at + |h|..][k - at - |h|];
      }
    }
  }

  /** chunk_make: writes the header of a proto chunk (its type and data length). */
  method Make(buf: array<u8>, at: nat, proto: Chunk) returns (payload: nat)
    requires proto.dataLength < Pow256(MaxLengthBytes)
    requires at + 1 + HeaderWidth(proto.chunkType, proto.dataLength) <= buf.Length
    modifies buf
    ensures payload == at + |EncodeHeader(proto.chunkType, proto.dataLength)|
    ensures buf[..] == old(buf[..])[..at] + EncodeHeader(proto.chunkType, proto.dataLength) + old(buf[..])[payload..]
  {
    payload := WriteHeader(buf, at, proto.chunkType, proto.dataLength);
  }
}
