/**
 * 32-bit register words and the bit-field arithmetic of the RMWREG32 macro.
 *
 * Every value here is a `bv32`, so the C expressions `1<<31`, `val << startbit`
 * and `~mask` truncate to 32 bits exactly as a 32-bit store does. Bit positions
 * and widths are `bv32` too, below 32: a C shift by 32 or more is undefined.
 */
module Bits {

  /** A bit position or a field width. */
  type BitIndex = b: bv32 | b < 32

  /** `(1<<width) - 1`: the low `width` bits. */
  function Ones(width: BitIndex): bv32
  {
    (1 << width) - 1
  }

  /** `((1<<width) - 1) << start`: the bits [start, start+width) that fit in 32 bits. */
  function FieldMask(start: BitIndex, width: BitIndex): bv32
  {
    Ones(width) << start
  }

  /** Bit `k` of `x` is one: `(x & (1<<k)) != 0`, the form the poll loops test. */
  predicate Bit(x: bv32, k: BitIndex)
  {
    x & (1 << k) != 0
  }

  /** The `width`-bit field at `start`, read as `(x >> start) & ((1<<width) - 1)`. */
  function Field(x: bv32, start: BitIndex, width: BitIndex): (f: bv32)
    ensures f & !Ones(width) == 0
  {
    (x >> start) & Ones(width)
  }

  /**
   * The word RMWREG32(addr, start, width, val) stores when the register held `cur`:
   * the span is cleared and `val << start` is ORed in, WITHOUT masking `val` to
   * `width` bits.
   */
  function RmwValue(cur: bv32, start: BitIndex, width: BitIndex, val: bv32): (r: bv32)
    // inside the span: the bits of val
    ensures r & FieldMask(start, width) == (val << start) & FieldMask(start, width)
    // outside the span: the old bits, ORed with whatever of val does not fit the field
    ensures r & !FieldMask(start, width) == (cur | (val << start)) & !FieldMask(start, width)
  {
    (cur & !FieldMask(start, width)) | (val << start)
  }

  /**
   * A one-bit value leaves every other bit alone and reads back from its bit.
   * (Proved per field width: the code only writes fields of width 1 and 4.)
   */
  lemma RmwBitFits(cur: bv32, start: BitIndex, val: bv32)
    requires val <= 1
    ensures RmwValue(cur, start, 1, val) & !FieldMask(start, 1) == cur & !FieldMask(start, 1)
    ensures Field(RmwValue(cur, start, 1, val), start, 1) == val
  {
  }

  /** A value below 16 leaves every bit outside its 4-bit field alone and reads back from it. */
  lemma RmwNibbleFits(cur: bv32, start: BitIndex, val: bv32)
    requires val <= 15 && start <= 28
    ensures RmwValue(cur, start, 4, val) & !FieldMask(start, 4) == cur & !FieldMask(start, 4)
    ensures Field(RmwValue(cur, start, 4, val), start, 4) == val
  {
  }

  /** The two worked values: clearing bit 30 of an all-ones word, setting it in a zero word. */
  lemma RmwBit30Examples()
    ensures RmwValue(0xFFFF_FFFF, 30, 1, 0) == 0xBFFF_FFFF
    ensures RmwValue(0, 30, 1, 1) == 0x4000_0000
  {
  }
}
