/** Bytes and little-endian numbers, as used by the chunk length field. */
module Bytes {
  /** An unsigned byte (uint8_t). */
  newtype u8 = x: int | 0 <= x < 256

  /** 256 to the power n: the number of values n bytes can hold. */
  function Pow256(n: nat): (r: nat)
    ensures r >= 1
  {
    if n == 0 then 1 else 256 * Pow256(n - 1)
  }

  lemma {:induction false} Pow256Monotonic(m: nat, n: nat)
    requires m <= n
    ensures Pow256(m) <= Pow256(n)
  {
    if m < n {
      Pow256Monotonic(m, n - 1);
    }
  }

  /** Only a smaller exponent gives a smaller power. */
  lemma Pow256Below(m: nat, n: nat)
    requires Pow256(m) < Pow256(n)
    ensures m < n
  {
    if n <= m {
      Pow256Monotonic(n, m);
    }
  }

  /** The value of a little-endian byte string: byte i weighs 256^i. */
  function LeValue(s: seq<u8>): (v: nat)
    ensures v < Pow256(|s|)
  {
    if s == [] then 0 else s[0] as nat + 256 * LeValue(s[1..])
  }

  /** The little-endian value of the n bytes of `buf` starting at `from`, read in place. */
  function LeRead(buf: seq<u8>, from: nat, n: nat): nat
    requires from + n <= |buf|
    decreases n
  {
    if n == 0 then 0 else buf[from] as nat + 256 * LeRead(buf, from + 1, n - 1)
  }

  /** Reading in place is reading the slice. */
  lemma {:induction false} LeReadValue(buf: seq<u8>, from: nat, n: nat)
    requires from + n <= |buf|
    ensures LeRead(buf, from, n) == LeValue(buf[from .. from + n])
    decreases n
  {
    if n > 0 {
      LeReadValue(buf, from + 1, n - 1);
      assert buf[from .. from + n][1..] == buf[from + 1 .. from + n];
    }
  }

  /** The n-byte little-endian representation of v, zero-padded. */
  function LeBytes(v: nat, n: nat): (s: seq<u8>)
    requires v < Pow256(n)
    ensures |s| == n
    ensures LeValue(s) == v
  {
    if n == 0 then []
    else
      assert v / 256 < Pow256(n - 1);
      [(v % 256) as u8] + LeBytes(v / 256, n - 1)
  }

  /** Reading a byte string and writing its value back at the same width gives the same bytes. */
  lemma {:induction false} LeBytesOfValue(s: seq<u8>)
    ensures LeBytes(LeValue(s), |s|) == s
  {
    if s != [] {
      var v := LeValue(s);
      assert v % 256 == s[0] as nat && v / 256 == LeValue(s[1..]);
      LeBytesOfValue(s[1..]);
    }
  }

  /**
   * One step of the byte-at-a-time accumulation: the (i+1)-byte value is
   * the i-byte value plus byte i weighted 256^i.
   */
  lemma {:induction false} LeReadStep(buf: seq<u8>, from: nat, i: nat)
    requires from + i + 1 <= |buf|
    ensures LeRead(buf, from, i + 1) == LeRead(buf, from, i) + buf[from + i] as nat * Pow256(i)
    decreases i
  {
    if i > 0 {
      LeReadStep(buf, from + 1, i - 1);
      var a, x, y, p := buf[from] as nat, LeRead(buf, from + 1, i - 1), buf[from + i] as nat, Pow256(i - 1);
      StepArith(a, x, y, p);
    }
  }

  lemma StepArith(a: nat, x: nat, y: nat, p: nat)
    ensures a + 256 * (x + y * p) == (a + 256 * x) + y * (256 * p)
  {
  }
}
