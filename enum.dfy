/** blaspy/enum.py: the Vec, Order and Trans constant tables built by `enumeration()`. */
module Enum {
  import Bits
  import Constants
  import Helpers

  /** Vec: the orientation codes used by the level 1 and level 2 raw wrappers. */
  datatype Vec = COL | ROW | COL_COL | ROW_COL | COL_ROW | ROW_ROW
  {
    function Value(): nat
    {
      match this
      case COL => 0
      case ROW => 1
      case COL_COL => 0
      case ROW_COL => 1
      case COL_ROW => 2
      case ROW_ROW => 3
    }

    /** What the name says about y; the one-vector names say nothing and read as column. */
    predicate NamesRowY() { this == COL_ROW || this == ROW_ROW }

    predicate NamesRowX() { this == ROW || this == ROW_COL || this == ROW_ROW }
  }

  datatype Order = ROW_MAJOR | COL_MAJOR
  {
    function Value(): int
    {
      match this
      case ROW_MAJOR => 101
      case COL_MAJOR => 102
    }
  }

  datatype Trans = NO_TRANS | TRANS | CONJ_TRANS | CONJ_NO_TRANS
  {
    function Value(): int
    {
      match this
      case NO_TRANS => 111
      case TRANS => 112
      case CONJ_TRANS => 113
      case CONJ_NO_TRANS => 114
    }
  }

  /** Vec holds the same six values as constants.py. */
  lemma VecAgreesWithConstants()
    ensures COL.Value() == Constants.COL && ROW.Value() == Constants.ROW
    ensures COL_COL.Value() == Constants.COL_COL && ROW_COL.Value() == Constants.ROW_COL
    ensures COL_ROW.Value() == Constants.COL_ROW && ROW_ROW.Value() == Constants.ROW_ROW
  {
  }

  /** Decoding a Vec code with `& 1` and `>> 1 & 1` recovers the orientations its name
      states. */
  lemma VecDecode(v: Vec)
    ensures Bits.And1(v.Value()) == 1 <==> v.NamesRowX()
    ensures Bits.SecondBit(v.Value()) == 1 <==> v.NamesRowY()
  {
  }

  /** Order agrees with helpers.py and its two values differ. */
  lemma OrderAgreesWithHelpers(o: Order)
    ensures o.Value() == (if o == ROW_MAJOR then Helpers.ROW_MAJOR else Helpers.COL_MAJOR)
    ensures ROW_MAJOR.Value() != COL_MAJOR.Value()
  {
  }

  /** Trans agrees with helpers.py and is injective. */
  lemma TransAgreesWithHelpers(t: Trans, u: Trans)
    ensures t == NO_TRANS ==> t.Value() == Helpers.NO_TRANS
    ensures t == TRANS ==> t.Value() == Helpers.TRANS
    ensures t == CONJ_TRANS ==> t.Value() == Helpers.CONJ_TRANS
    ensures t == CONJ_NO_TRANS ==> t.Value() == Helpers.CONJ_NO_TRANS
    ensures t.Value() == u.Value() ==> t == u
  {
  }

  /** The parity decode `t & 1 == 0` ("transposed") holds for TRANS and fails for
      NO_TRANS; over all four codes it also selects CONJ_NO_TRANS, so it is exact only
      on the two codes the converters produce. */
  lemma TransParity(t: Trans)
    ensures Bits.And1(t.Value()) == 0 <==> t == TRANS || t == CONJ_NO_TRANS
    ensures Bits.And1(NO_TRANS.Value()) == 1 && Bits.And1(TRANS.Value()) == 0
  {
  }
}
