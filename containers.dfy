/** The operands a BLASpy entry point receives: NumPy containers (ndarray or matrix)
    described by their shape, dtype and container kind, or anything else. */
module Containers {

  /** Python's None for an optional argument. */
  datatype Option<T> = None | Some(value: T) {
    function GetOr(default: T): T
    {
      match this
      case Some(v) => v
      case None => default
    }
  }

  /** The element types the tests exercise. */
  datatype DType = F32 | F64 | Int | Complex

  /** `type(x) is matrix` distinguishes a numpy.matrix from a plain ndarray. */
  datatype Kind = NdArray | NpMatrix

  /** An argument: something without a `shape` attribute, or a NumPy container. */
  datatype Arg = NotArray | Arr(shape: seq<nat>, dt: DType, kind: Kind) {

    /** `m, n = a.shape` succeeds. */
    predicate IsTwoD() { Arr? && |shape| == 2 }

    function Rows(): nat requires IsTwoD() { shape[0] }

    function Cols(): nat requires IsTwoD() { shape[1] }

    /** Either the number of rows or the number of columns is one. */
    predicate IsVector() { IsTwoD() && (Rows() == 1 || Cols() == 1) }

    predicate IsSquare() { IsTwoD() && Rows() == Cols() }
  }

  /** A two-dimensional container of the given shape. */
  function Matrix(rows: nat, cols: nat, dt: DType, kind: Kind): (a: Arg)
    ensures a.IsTwoD() && a.Rows() == rows && a.Cols() == cols
    ensures a.dt == dt && a.kind == kind
  {
    Arr([rows, cols], dt, kind)
  }

  /** The two dtypes a CBLAS kernel exists for. */
  predicate Supported(dt: DType) { dt == F32 || dt == F64 }
}
