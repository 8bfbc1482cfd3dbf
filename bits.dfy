/** Python's `&` and `>>` on the small non-negative integer codes BLASpy decodes. */
module Bits {

  /** `v & 1` */
  function And1(v: nat): (b: nat)
    requires v < 0x1_0000
    ensures b == v % 2
  {
    ((v as bv16) & 1) as nat
  }

  /** `v >> 1 & 1` */
  function SecondBit(v: nat): (b: nat)
    requires v < 0x1_0000
    ensures b == (v / 2) % 2
  {
    (((v as bv16) >> 1) & 1) as nat
  }
}
