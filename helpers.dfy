/** blaspy/helpers.py: the CBLAS enum values, find_length, and the helpers the entry
    points import from it (shape reading, vector/square checks, size checks, kernel
    selection, zero allocation, mode-flag conversion). */
module Helpers {
  import opened Containers
  import opened Errors
  import opened Calls
  import Bits

  // CBLAS enum values
  const ROW_MAJOR: int := 101
  const COL_MAJOR: int := 102
  const NO_TRANS: int := 111
  const TRANS: int := 112
  const CONJ_TRANS: int := 113
  const CONJ_NO_TRANS: int := 114

  // Triangle, diagonal and side codes, with the values of the C interface of the BLAS
  // Technical Forum Standard; the model relies only on their being distinct.
  const UPPER: int := 121
  const LOWER: int := 122
  const NON_UNIT: int := 131
  const UNIT: int := 132
  const LEFT: int := 141
  const RIGHT: int := 142

  function Max(m: int, n: int): int { if m > n then m else n }

  // ---------------------------------------------------------------------------------
  // find_length

  /** The vector length handed to BLAS as "n": the longer dimension, divided by the
      stride and rounded up when the stride exceeds one (Python 2 integer division). */
  function FindLength(m: nat, n: nat, stride: int): nat
  {
    var length := if m > n then m else n;
    if stride > 1 then length / stride + (if length % stride > 0 then 1 else 0) else length
  }

  /** k is the ceiling of total / s: the least count whose multiple of s reaches total. */
  ghost predicate IsCeiling(k: int, total: int, s: int)
  {
    k * s >= total && (k - 1) * s < total
  }

  /** For every stride of at least one, find_length is the ceiling of max(m, n) / stride. */
  lemma {:induction false} FindLengthIsCeiling(m: nat, n: nat, s: int)
    requires s >= 1
    ensures IsCeiling(FindLength(m, n, s), Max(m, n), s)
  {
    var total := Max(m, n);
    if s > 1 {
      var q, rem := total / s, total % s;
      assert total == q * s + rem && 0 <= rem < s;
      if rem > 0 {
        assert FindLength(m, n, s) == q + 1;
        assert (q + 1) * s == q * s + s;
      } else {
        assert FindLength(m, n, s) == q;
        assert (q - 1) * s == q * s - s;
      }
    }
  }

  /** A stride of at most one (zero and negative strides included) leaves the length alone. */
  lemma FindLengthSmallStride(m: nat, n: nat, s: int)
    requires s <= 1
    ensures FindLength(m, n, s) == Max(m, n)
  {
  }

  /** Bounds safety: every position the kernel visits, i * stride for i below the
      effective length, lies below max(m, n). */
  lemma FindLengthInBounds(m: nat, n: nat, s: int, i: int)
    requires s >= 1 && 0 <= i < FindLength(m, n, s)
    ensures i * s < Max(m, n)
  {
    FindLengthIsCeiling(m, n, s);
    MulMonotone(i, FindLength(m, n, s) - 1, s);
  }

  /** Multiplying by a positive stride keeps the order of indices. */
  lemma MulMonotone(i: int, j: int, s: int)
    requires 0 <= i <= j && s >= 1
    ensures i * s <= j * s
  {
    assert j * s - i * s == (j - i) * s;
  }

  /** No reachable element is dropped: the visited positions extend to max(m, n). */
  lemma FindLengthCovers(m: nat, n: nat, s: int)
    requires s >= 1
    ensures FindLength(m, n, s) * s >= Max(m, n)
  {
    FindLengthIsCeiling(m, n, s);
  }

  /** A row vector and a column vector of equal length get the same effective length. */
  lemma FindLengthSymmetric(m: nat, n: nat, s: int)
    ensures FindLength(m, n, s) == FindLength(n, m, s)
  {
  }

  /** A stride that reaches past the end leaves exactly one element. */
  lemma FindLengthOneElement(m: nat, n: nat, s: int)
    requires 1 <= Max(m, n) <= s
    ensures FindLength(m, n, s) == 1
  {
    var total := Max(m, n);
    if s > 1 {
      if total < s {
        assert total / s == 0 && total % s == total;
      } else {
        assert total / s == 1 && total % s == 0;
      }
    }
  }

  /** find_length as written: a 1 x 0 vector (an empty numpy row) is given length one
      although its buffer holds no element, so the kernel reads position 0 of an empty
      buffer. */
  lemma FindLengthOverrunsEmptyVector(s: int)
    ensures FindLength(1, 0, s) == 1 > 1 * 0 && FindLength(0, 1, s) == 1 > 0 * 1
  {
    if s > 1 {
      assert 1 / s == 0 && 1 % s == 1;
    }
  }

  /** The evidently intended length: find_length computed on the number of elements. */
  function ElementLength(m: nat, n: nat, stride: int): nat
  {
    FindLength(if m == 0 || n == 0 then 0 else m, if m == 0 || n == 0 then 0 else n, stride)
  }

  /** The intended length never leads the kernel out of a vector's buffer of m * n
      elements, empty vectors included, and agrees with find_length on the non-empty ones. */
  lemma ElementLengthInBounds(m: nat, n: nat, s: int, i: int)
    requires m == 1 || n == 1
    requires s >= 1 && 0 <= i < ElementLength(m, n, s)
    ensures i * s < m * n
    ensures m >= 1 && n >= 1 ==> ElementLength(m, n, s) == FindLength(m, n, s)
  {
    if m != 0 && n != 0 {
      FindLengthInBounds(m, n, s, i);
      assert Max(m, n) == m * n;
    }
  }

  /** The six CBLAS constants are pairwise distinct; NO_TRANS is odd and TRANS even,
      which is what decoding with `& 1` relies on. */
  lemma CblasConstantsDistinct()
    ensures |{ROW_MAJOR, COL_MAJOR, NO_TRANS, TRANS, CONJ_TRANS, CONJ_NO_TRANS}| == 6
    ensures Bits.And1(NO_TRANS) == 1 && Bits.And1(TRANS) == 0
  {
  }

  // ---------------------------------------------------------------------------------
  // Reading shapes

  /** The except clause around an entry point decides what a missing `shape` attribute
      (an AttributeError) turns into. */
  datatype Handler =
    | InlineMessage(operands: seq<string>)  // raise ValueError("... must be of type numpy ...")
    | UnnamedNot2d                          // raise_not_2d_numpy() with no argument
    | GenericType                           // raise_generic_type_error()
    | Unhandled                             // no try block: the AttributeError escapes

  function OnAttributeError(h: Handler): Error
  {
    match h
    case InlineMessage(ops) => NotNumpyType(ops)
    case UnnamedNot2d => Not2dNumpy(None)
    case GenericType => GenericTypeError
    case Unhandled => MissingAttribute
  }

  /** `m, n = a.shape`, and get_matrix_dimensions. */
  function GetMatrixDimensions(a: Arg, h: Handler): (r: Result<(nat, nat)>)
    ensures r.Ok? <==> a.IsTwoD()
    ensures r.Ok? ==> r.value == (a.Rows(), a.Cols())
    ensures a.NotArray? ==> r == Fail(OnAttributeError(h))
    ensures a.Arr? && !a.IsTwoD() ==> r == Fail(ShapeUnpack) && ExceptionClass(r.error) == ValueError
  {
    match a
    case NotArray => Fail(OnAttributeError(h))
    case Arr(shape, _, _) => if |shape| == 2 then Ok((shape[0], shape[1])) else Fail(ShapeUnpack)
  }

  /** The shape of a failure to read a shape: any other error of an entry point comes
      from a later check. */
  predicate ShapeFailure(a: Arg, h: Handler, e: Error)
  {
    e == (if a.NotArray? then OnAttributeError(h) else ShapeUnpack)
  }

  datatype VectorDims = VectorDims(rows: nat, cols: nat, length: nat)

  /** get_vector_dimensions: the shape, the effective length, and the vector check. */
  function GetVectorDimensions(name: string, a: Arg, inc: int, h: Handler): (r: Result<VectorDims>)
    ensures r.Ok? <==> a.IsVector()
    ensures r.Ok? ==> r.value == VectorDims(a.Rows(), a.Cols(), FindLength(a.Rows(), a.Cols(), inc))
    ensures a.IsTwoD() && !a.IsVector() ==> r == Fail(NotVector(name, a.Rows(), a.Cols()))
    ensures !a.IsTwoD() ==> r.Fail? && ShapeFailure(a, h, r.error)
  {
    var s :- GetMatrixDimensions(a, h);
    var length := FindLength(s.0, s.1, inc);
    if !(s.0 == 1 || s.1 == 1) then RaiseNotVector(name, s.0, s.1)
    else Ok(VectorDims(s.0, s.1, length))
  }

  /** get_square_matrix_dimension: the dimension of a square matrix. */
  function GetSquareMatrixDimension(name: string, a: Arg, h: Handler): (r: Result<nat>)
    ensures r.Ok? <==> a.IsSquare()
    ensures r.Ok? ==> r.value == a.Rows() == a.Cols()
    ensures a.IsTwoD() && !a.IsSquare() ==> r == Fail(NotSquare(name, a.Rows(), a.Cols()))
    ensures !a.IsTwoD() ==> r.Fail? && ShapeFailure(a, h, r.error)
  {
    var s :- GetMatrixDimensions(a, h);
    if s.0 != s.1 then RaiseNotSquare(name, s.0, s.1) else Ok(s.0)
  }

  /** find_length applied to a container's own shape. */
  function EffectiveLength(a: Arg, inc: int): nat
    requires a.IsTwoD()
  {
    FindLength(a.Rows(), a.Cols(), inc)
  }

  /** For a non-empty vector every position a kernel visits with a stride of at least one
      lies inside the container's rows * cols elements. */
  lemma VectorKernelInBounds(a: Arg, inc: int, i: int)
    requires a.IsVector() && a.Rows() >= 1 && a.Cols() >= 1
    requires inc >= 1 && 0 <= i < EffectiveLength(a, inc)
    ensures i * inc < a.Rows() * a.Cols()
  {
    FindLengthInBounds(a.Rows(), a.Cols(), inc, i);
    assert Max(a.Rows(), a.Cols()) == a.Rows() * a.Cols();
  }

  // ---------------------------------------------------------------------------------
  // Checks

  function CheckIsVector(name: string, rows: nat, cols: nat): (r: Result<()>)
    ensures r.Ok? <==> rows == 1 || cols == 1
    ensures r.Fail? ==> r.error == NotVector(name, rows, cols)
  {
    if !(rows == 1 || cols == 1) then RaiseNotVector(name, rows, cols) else Ok(())
  }

  function CheckIsSquare(name: string, rows: nat, cols: nat): (r: Result<()>)
    ensures r.Ok? <==> rows == cols
    ensures r.Fail? ==> r.error == NotSquare(name, rows, cols)
  {
    if rows != cols then RaiseNotSquare(name, rows, cols) else Ok(())
  }

  /** check_equal_sizes: a size mismatch names both operands and both sizes, in order. */
  function CheckEqualSizes(name1: string, size1: int, name2: string, size2: int): (r: Result<()>)
    ensures r.Ok? <==> size1 == size2
    ensures r.Fail? ==> r.error == SizeMismatch(name1, size1, name2, size2)
  {
    if size1 != size2 then RaiseSizeMismatch(name1, size1, name2, size2) else Ok(())
  }

  // ---------------------------------------------------------------------------------
  // Kernel selection

  datatype Kernel = Kernel(name: string, precision: Precision)

  const ALLOWED_DTYPES: seq<string> := ["float32", "float64"]

  predicate AllAre(dtypes: seq<DType>, d: DType)
  {
    forall i :: 0 <= i < |dtypes| ==> dtypes[i] == d
  }

  function DTypeOf(p: Precision): DType { if p == Double then F64 else F32 }

  function PrecisionOf(dt: DType): Precision { if dt == F64 then Double else Single }

  /** The name of the d- or s-prefixed kernel of a routine. */
  function KernelName(routine: string, dt: DType): string
  {
    if dt == F64 then "cblas_d" + routine else "cblas_s" + routine
  }

  /** get_cblas_info (and get_func_and_data_type): the 'd' kernel when every operand is
      float64, the 's' kernel when every operand is float32, an error otherwise. */
  function GetCblasInfo(routine: string, dtypes: seq<DType>): (r: Result<Kernel>)
    ensures r.Ok? <==> AllAre(dtypes, F64) || AllAre(dtypes, F32)
    ensures r.Ok? ==> r.value.name == KernelName(routine, DTypeOf(r.value.precision))
    ensures r.Ok? ==> forall i :: 0 <= i < |dtypes| ==> dtypes[i] == DTypeOf(r.value.precision)
    ensures r.Fail? ==> r.error == InvalidDtypes(ALLOWED_DTYPES)
    // the same, for the one, two and three operands the entry points pass
    ensures |dtypes| == 1 ==> (r.Ok? <==> Supported(dtypes[0]))
    ensures |dtypes| == 2 ==> (r.Ok? <==> Supported(dtypes[0]) && dtypes[1] == dtypes[0])
    ensures |dtypes| == 3 ==> (r.Ok? <==> Supported(dtypes[0]) && dtypes[1] == dtypes[0] && dtypes[2] == dtypes[0])
    ensures r.Ok? && |dtypes| > 0 ==> r.value == Kernel(KernelName(routine, dtypes[0]), PrecisionOf(dtypes[0]))
  {
    if AllAre(dtypes, F64) then Ok(Kernel("cblas_d" + routine, Double))
    else if AllAre(dtypes, F32) then Ok(Kernel("cblas_s" + routine, Single))
    else RaiseInvalidDtypes(ALLOWED_DTYPES)
  }

  /** Precision dispatch never widens or narrows: two operands of different dtypes, or
      one of an unsupported dtype, are rejected. */
  lemma GetCblasInfoRejectsMixed(routine: string, dtypes: seq<DType>, i: nat, j: nat)
    requires i < |dtypes| && j < |dtypes|
    requires dtypes[i] != dtypes[j] || !Supported(dtypes[i])
    ensures GetCblasInfo(routine, dtypes) == Fail(InvalidDtypes(ALLOWED_DTYPES))
  {
  }

  // ---------------------------------------------------------------------------------
  // Default outputs

  /** create_zero_matrix(m, n, dtype, type): a zero m x n container. */
  function CreateZeroMatrix(m: nat, n: nat, dt: DType, kind: Kind): Arg
  {
    Matrix(m, n, dt, kind)
  }

  /** create_similar_zero_vector(x, length): a zero vector with x's dtype and kind, a row
      when x has one row and a column otherwise. */
  function CreateSimilarZeroVector(x: Arg, length: nat): (z: Arg)
    requires x.IsTwoD()
    ensures z.IsVector() && z.dt == x.dt && z.kind == x.kind
    ensures x.Rows() == 1 ==> z.Rows() == 1 && z.Cols() == length
    ensures x.Rows() != 1 ==> z.Cols() == 1 && z.Rows() == length
  {
    if x.Rows() == 1 then Matrix(1, length, x.dt, x.kind) else Matrix(length, 1, x.dt, x.kind)
  }

  /** An allocated vector has the requested effective length under stride one. */
  lemma ZeroVectorLength(x: Arg, length: nat)
    requires x.IsTwoD() && length >= 1
    ensures var z := CreateSimilarZeroVector(x, length); FindLength(z.Rows(), z.Cols(), 1) == length
  {
  }

  // ---------------------------------------------------------------------------------
  // Mode flags

  const UPLO_FLAGS: seq<string> := ["u", "U", "l", "L"]
  const TRANS_FLAGS: seq<string> := ["n", "N", "t", "T"]
  const DIAG_FLAGS: seq<string> := ["n", "N", "u", "U"]
  const SIDE_FLAGS: seq<string> := ["l", "L", "r", "R"]

  function ConvertUplo(uplo: string): (r: Result<int>)
    ensures r.Ok? <==> uplo in UPLO_FLAGS
    ensures r.Ok? ==> r.value == (if uplo in ["u", "U"] then UPPER else LOWER)
    ensures r.Fail? ==> r.error == InvalidParameter("uplo", UPLO_FLAGS, uplo)
  {
    if uplo == "u" || uplo == "U" then Ok(UPPER)
    else if uplo == "l" || uplo == "L" then Ok(LOWER)
    else RaiseInvalidParameter("uplo", UPLO_FLAGS, uplo)
  }

  function ConvertTrans(trans: string): (r: Result<int>)
    ensures r.Ok? <==> trans in TRANS_FLAGS
    ensures r.Ok? ==> r.value == (if trans in ["n", "N"] then NO_TRANS else TRANS)
    ensures r.Fail? ==> r.error == InvalidParameter("trans", TRANS_FLAGS, trans)
  {
    if trans == "n" || trans == "N" then Ok(NO_TRANS)
    else if trans == "t" || trans == "T" then Ok(TRANS)
    else RaiseInvalidParameter("trans", TRANS_FLAGS, trans)
  }

  function ConvertDiag(diag: string): (r: Result<int>)
    ensures r.Ok? <==> diag in DIAG_FLAGS
    ensures r.Ok? ==> r.value == (if diag in ["n", "N"] then NON_UNIT else UNIT)
    ensures r.Fail? ==> r.error == InvalidParameter("diag", DIAG_FLAGS, diag)
  {
    if diag == "n" || diag == "N" then Ok(NON_UNIT)
    else if diag == "u" || diag == "U" then Ok(UNIT)
    else RaiseInvalidParameter("diag", DIAG_FLAGS, diag)
  }

  function ConvertSide(side: string): (r: Result<int>)
    ensures r.Ok? <==> side in SIDE_FLAGS
    ensures r.Ok? ==> r.value == (if side in ["l", "L"] then LEFT else RIGHT)
    ensures r.Fail? ==> r.error == InvalidParameter("side", SIDE_FLAGS, side)
  {
    if side == "l" || side == "L" then Ok(LEFT)
    else if side == "r" || side == "R" then Ok(RIGHT)
    else RaiseInvalidParameter("side", SIDE_FLAGS, side)
  }

  predicate IsAsciiLower(c: char) { 'a' <= c <= 'z' }

  function ToUpper(c: char): char requires IsAsciiLower(c) { (c as int - 32) as char }

  /** On single ASCII letters every conversion accepts exactly its alphabet and ignores
      case: a lower-case letter and its capital give the same outcome and code. */
  lemma ConvertFlagsCaseInsensitive(c: char)
    requires IsAsciiLower(c)
    ensures ConvertUplo([c]).Ok? <==> c == 'u' || c == 'l'
    ensures ConvertTrans([c]).Ok? <==> c == 'n' || c == 't'
    ensures ConvertDiag([c]).Ok? <==> c == 'n' || c == 'u'
    ensures ConvertSide([c]).Ok? <==> c == 'l' || c == 'r'
    ensures ConvertUplo([c]).Ok? == ConvertUplo([ToUpper(c)]).Ok?
    ensures ConvertUplo([c]).Ok? ==> ConvertUplo([c]).value == ConvertUplo([ToUpper(c)]).value
    ensures ConvertTrans([c]).Ok? == ConvertTrans([ToUpper(c)]).Ok?
    ensures ConvertTrans([c]).Ok? ==> ConvertTrans([c]).value == ConvertTrans([ToUpper(c)]).value
    ensures ConvertDiag([c]).Ok? == ConvertDiag([ToUpper(c)]).Ok?
    ensures ConvertDiag([c]).Ok? ==> ConvertDiag([c]).value == ConvertDiag([ToUpper(c)]).value
    ensures ConvertSide([c]).Ok? == ConvertSide([ToUpper(c)]).Ok?
    ensures ConvertSide([c]).Ok? ==> ConvertSide([c]).value == ConvertSide([ToUpper(c)]).value
  {
  }

  /** Every mode code has one value, and the codes of all families are distinct, so no
      converted flag can be mistaken for another. */
  lemma ModeCodesDistinct()
    ensures |{ROW_MAJOR, NO_TRANS, TRANS, UPPER, LOWER, NON_UNIT, UNIT, LEFT, RIGHT}| == 9
  {
  }
}
