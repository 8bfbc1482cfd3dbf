/** blaspy/constants.py: orientation codes for one or two vectors. Bit 0 is set when x is
    a row vector, bit 1 when y is one. */
module Constants {
  import Bits

  const COL: nat := 0
  const ROW: nat := 1
  const COL_COL: nat := 0
  const ROW_COL: nat := 1
  const COL_ROW: nat := 2
  const ROW_ROW: nat := 3

  /** The code naming the orientations of x and y. */
  function Orientation(xIsRow: bool, yIsRow: bool): nat
  {
    (if xIsRow then 1 else 0) + (if yIsRow then 2 else 0)
  }

  predicate XIsRow(code: nat) requires code < 0x1_0000 { Bits.And1(code) == 1 }

  predicate YIsRow(code: nat) requires code < 0x1_0000 { Bits.SecondBit(code) == 1 }

  /** Decoding an encoded pair with `& 1` and `>> 1 & 1` gives back both orientations. */
  lemma OrientationRoundTrip(xIsRow: bool, yIsRow: bool)
    ensures Orientation(xIsRow, yIsRow) < 4
    ensures XIsRow(Orientation(xIsRow, yIsRow)) == xIsRow
    ensures YIsRow(Orientation(xIsRow, yIsRow)) == yIsRow
  {
  }

  /** Every two-bit code is the encoding of the orientations it decodes to. */
  lemma OrientationDecodeRoundTrip(code: nat)
    requires code < 4
    ensures Orientation(XIsRow(code), YIsRow(code)) == code
  {
  }

  /** The four two-vector codes are exactly 0..3, named after what their bits say; the
      one-vector codes are the two-vector codes with a column y, so they agree with the x bit. */
  lemma NamedCodes()
    ensures COL_COL == Orientation(false, false) && ROW_COL == Orientation(true, false)
    ensures COL_ROW == Orientation(false, true) && ROW_ROW == Orientation(true, true)
    ensures |{COL_COL, ROW_COL, COL_ROW, ROW_ROW}| == 4
    ensures COL == COL_COL && ROW == ROW_COL && !XIsRow(COL) && XIsRow(ROW)
  {
  }
}
