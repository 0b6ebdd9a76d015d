/**
 * The flag macros of bitwise.h, applied to a uint8_t flag byte such as a
 * node's `selected` field. In C the byte is promoted to a 32-bit int before
 * the shift, and BIT_SET and BIT_UNSET store the int result back into the
 * byte, dropping everything above bit 7. The macros assign to their first
 * argument; here they return the byte's new value.
 */
module Bitwise {
  /** The 32-bit int a flag byte is promoted to. */
  function Promote(a: bv8): (r: bv32)
    ensures r < 256
  {
    a as bv32
  }

  /** BIT_TEST(a, f): bit f of the promoted byte, 0 or 1. A shift of 32 or more is undefined in C. */
  function BitTest(a: bv8, f: bv32): (r: bv32)
    requires f < 32
    ensures r == 0 || r == 1
    ensures f < 8 ==> (r == 1 <==> a & (1 as bv8 << f as bv8) != 0)
  {
    (Promote(a) >> f) & 1
  }

  /**
   * BIT_SET(a, f): the byte with bit f set. `1 << 31` overflows a signed
   * int in C, so f stays below 31.
   */
  function BitSet(a: bv8, f: bv32): (r: bv8)
    requires f < 31
    ensures f < 8 ==> r == a | (1 as bv8 << f as bv8)
    ensures 8 <= f ==> r == a
  {
    ((Promote(a) | (1 << f)) & 0xFF) as bv8
  }

  /** BIT_UNSET(a, f): the byte with bit f cleared. */
  function BitUnset(a: bv8, f: bv32): (r: bv8)
    requires f < 31
    ensures f < 8 ==> r == a & !(1 as bv8 << f as bv8)
    ensures 8 <= f ==> r == a
  {
    (Promote(a) & !(1 << f)) as bv8
  }

  /** Only bits 0 to 7 of a flag byte can be set. */
  lemma TestAboveByte(a: bv8, f: bv32)
    requires 8 <= f < 32
    ensures BitTest(a, f) == 0
  {
    assert Promote(a) >> f == 0 by {
      assert Promote(a) < 256;
    }
  }

  /** After setting a bit of the byte, testing it gives 1. */
  lemma SetThenTest(a: bv8, f: bv32)
    requires f < 8
    ensures BitTest(BitSet(a, f), f) == 1
  {
  }

  /** Setting a bit above bit 7 is lost when the int is stored back into the byte. */
  lemma SetAboveByte(a: bv8, f: bv32)
    requires 8 <= f < 31
    ensures BitSet(a, f) == a
  {
  }

  /** After clearing a bit, testing it gives 0. */
  lemma UnsetThenTest(a: bv8, f: bv32)
    requires f < 31
    ensures BitTest(BitUnset(a, f), f) == 0
  {
  }

  /** Setting or clearing bit f leaves every other bit as it was. */
  lemma OtherBitsKept(a: bv8, f: bv32, g: bv32)
    requires f < 31 && g < 32 && g != f
    ensures BitTest(BitSet(a, f), g) == BitTest(a, g)
    ensures BitTest(BitUnset(a, f), g) == BitTest(a, g)
  {
  }

  /** Setting twice is setting once; clearing twice is clearing once. */
  lemma Idempotent(a: bv8, f: bv32)
    requires f < 31
    ensures BitSet(BitSet(a, f), f) == BitSet(a, f)
    ensures BitUnset(BitUnset(a, f), f) == BitUnset(a, f)
  {
  }

  /** Clearing undoes setting and setting undoes clearing: only the last one counts. */
  lemma LastWins(a: bv8, f: bv32)
    requires f < 31
    ensures BitUnset(BitSet(a, f), f) == BitUnset(a, f)
    ensures BitSet(BitUnset(a, f), f) == BitSet(a, f)
  {
  }

  /** A flag byte is determined by its eight tested bits. */
  lemma BitsDetermineByte(a: bv8, b: bv8)
    requires forall g: bv32 | g < 8 :: BitTest(a, g) == BitTest(b, g)
    ensures a == b
  {
    assert BitTest(a, 0) == BitTest(b, 0) && BitTest(a, 1) == BitTest(b, 1);
    assert BitTest(a, 2) == BitTest(b, 2) && BitTest(a, 3) == BitTest(b, 3);
    assert BitTest(a, 4) == BitTest(b, 4) && BitTest(a, 5) == BitTest(b, 5);
    assert BitTest(a, 6) == BitTest(b, 6) && BitTest(a, 7) == BitTest(b, 7);
    assert Promote(a) == Promote(b);
  }
}
