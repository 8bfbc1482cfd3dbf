/** blaspy/level_3/gemm.py: C := beta * C + alpha * op(A) * op(B). */
module Gemm {
  import opened Containers
  import opened Errors
  import opened Calls
  import opened Helpers
  import opened Kernel

  const HANDLER: Handler := UnnamedNot2d

  /** The dimensions gemm derives from the flags, as written: (m, k_A) from A, and (n, k_B)
      from B's column count and A's shape. Both comparisons are case-sensitive. */
  datatype Dims = Dims(m: nat, n: nat, kA: nat, kB: nat)

  function DerivedDims(A: Arg, B: Arg, transA: string, transB: string): Dims
    requires A.IsTwoD() && B.IsTwoD()
  {
    var (m, kA) := if transA == "n" then (A.Rows(), A.Cols()) else (A.Cols(), A.Rows());
    var (n, kB) := if transB == "n" then (B.Cols(), A.Cols()) else (A.Rows(), A.Cols());
    Dims(m, n, kA, kB)
  }

  function ResolvedC(A: Arg, B: Arg, C: Option<Arg>, transA: string, transB: string): Arg
    requires A.IsTwoD() && B.IsTwoD()
  {
    var d := DerivedDims(A, B, transA, transB);
    if C.Some? then C.value else CreateZeroMatrix(d.m, d.n, A.dt, A.kind)
  }

  /** The checks gemm makes before it calls the kernel, as written: both operands and the
      resolved C two-dimensional, the flags accepted, k_A equal to the k_B derived above,
      C of m x n, and one supported dtype. */
  predicate Resolves(A: Arg, B: Arg, C: Option<Arg>, transA: string, transB: string)
  {
    A.IsTwoD() && B.IsTwoD() && ResolvedC(A, B, C, transA, transB).IsTwoD()
    && transA in TRANS_FLAGS && transB in TRANS_FLAGS
    && DerivedDims(A, B, transA, transB).kA == DerivedDims(A, B, transA, transB).kB
    && DerivedDims(A, B, transA, transB).m == ResolvedC(A, B, C, transA, transB).Rows()
    && DerivedDims(A, B, transA, transB).n == ResolvedC(A, B, C, transA, transB).Cols()
    && A.dt == B.dt == ResolvedC(A, B, C, transA, transB).dt && Supported(A.dt)
  }

  /** gemm(A, B, C=None, trans_a='n', trans_b='n', alpha=1, beta=1, lda=None, ldb=None,
      ldc=None). The default for ldc is guarded by a test of lda, which is never None by
      then, so ldc stays None unless it is passed with C; a None in the c_int slot of the
      kernel's argtypes makes ctypes refuse the call (argument 14), and no except clause
      catches that. */
  function Gemm(A: Arg, B: Arg, C: Option<Arg> := None, transA: string := "n", transB: string := "n",
                alpha: real := 1.0, beta: real := 1.0, lda: Option<int> := None, ldb: Option<int> := None,
                ldc: Option<int> := None): (r: Result<Call>)
    ensures r.Ok? <==> Resolves(A, B, C, transA, transB) && C.Some? && ldc.Some?
    ensures r.Ok? ==> r.value == Call(KernelName("gemm", A.dt),
      [IntArg(ROW_MAJOR), IntArg(if transA in ["n", "N"] then NO_TRANS else TRANS),
       IntArg(if transB in ["n", "N"] then NO_TRANS else TRANS),
       IntArg(DerivedDims(A, B, transA, transB).m), IntArg(DerivedDims(A, B, transA, transB).n),
       IntArg(DerivedDims(A, B, transA, transB).kA), CoefArg(alpha),
       BufArg("A"), IntArg(lda.GetOr(A.Cols())), BufArg("B"), IntArg(ldb.GetOr(B.Cols())), CoefArg(beta),
       BufArg("C"), IntArg(ldc.value)],
      ["C"], ReturnsContainer("C", Provided))
    // every check passes, and then ctypes refuses the None in ldc's place
    ensures Resolves(A, B, C, transA, transB) && (C.None? || ldc.None?) ==> r == Fail(CtypesArgument(14))
    // the flags are converted after C is resolved and before the checks
    ensures (A.IsTwoD() && B.IsTwoD() && ResolvedC(A, B, C, transA, transB).IsTwoD() && transA !in TRANS_FLAGS)
            ==> r == Fail(InvalidParameter("trans", TRANS_FLAGS, transA))
    ensures (A.IsTwoD() && B.IsTwoD() && ResolvedC(A, B, C, transA, transB).IsTwoD()
             && transA in TRANS_FLAGS && transB !in TRANS_FLAGS)
            ==> r == Fail(InvalidParameter("trans", TRANS_FLAGS, transB))
    // the inner dimensions, as derived, are compared first
    ensures (A.IsTwoD() && B.IsTwoD() && ResolvedC(A, B, C, transA, transB).IsTwoD()
             && transA in TRANS_FLAGS && transB in TRANS_FLAGS
             && DerivedDims(A, B, transA, transB).kA != DerivedDims(A, B, transA, transB).kB)
            ==> r == Fail(SizeMismatch("A", DerivedDims(A, B, transA, transB).kA, "B", DerivedDims(A, B, transA, transB).kB))
    ensures (A.IsTwoD() && B.IsTwoD() && ResolvedC(A, B, C, transA, transB).IsTwoD()
             && transA in TRANS_FLAGS && transB in TRANS_FLAGS
             && DerivedDims(A, B, transA, transB).kA == DerivedDims(A, B, transA, transB).kB
             && DerivedDims(A, B, transA, transB).m != ResolvedC(A, B, C, transA, transB).Rows())
            ==> r == Fail(SizeMismatch("A", DerivedDims(A, B, transA, transB).m, "C", ResolvedC(A, B, C, transA, transB).Rows()))
    ensures (A.IsTwoD() && B.IsTwoD() && ResolvedC(A, B, C, transA, transB).IsTwoD()
             && transA in TRANS_FLAGS && transB in TRANS_FLAGS
             && DerivedDims(A, B, transA, transB).kA == DerivedDims(A, B, transA, transB).kB
             && DerivedDims(A, B, transA, transB).m == ResolvedC(A, B, C, transA, transB).Rows()
             && DerivedDims(A, B, transA, transB).n != ResolvedC(A, B, C, transA, transB).Cols())
            ==> r == Fail(SizeMismatch("B", DerivedDims(A, B, transA, transB).n, "C", ResolvedC(A, B, C, transA, transB).Cols()))
    ensures (A.IsTwoD() && B.IsTwoD() && ResolvedC(A, B, C, transA, transB).IsTwoD()
             && transA in TRANS_FLAGS && transB in TRANS_FLAGS
             && DerivedDims(A, B, transA, transB).kA == DerivedDims(A, B, transA, transB).kB
             && DerivedDims(A, B, transA, transB).m == ResolvedC(A, B, C, transA, transB).Rows()
             && DerivedDims(A, B, transA, transB).n == ResolvedC(A, B, C, transA, transB).Cols()
             && !(A.dt == B.dt == ResolvedC(A, B, C, transA, transB).dt && Supported(A.dt)))
            ==> r == Fail(InvalidDtypes(ALLOWED_DTYPES))
  {
    var sA :- GetMatrixDimensions(A, HANDLER);
    var sB :- GetMatrixDimensions(B, HANDLER);
    var d := DerivedDims(A, B, transA, transB);
    var c := ResolvedC(A, B, C, transA, transB);
    var ldcIn := if C.Some? then ldc else None;
    var sC :- GetMatrixDimensions(c, HANDLER);
    var ldaV := lda.GetOr(sA.1);
    var ldbV := ldb.GetOr(sB.1);
    var ta :- ConvertTrans(transA);
    var tb :- ConvertTrans(transB);
    var _ :- CheckEqualSizes("A", d.kA, "B", d.kB);
    var _ :- CheckEqualSizes("A", d.m, "C", sC.0);
    var _ :- CheckEqualSizes("B", d.n, "C", sC.1);
    var k :- GetCblasInfo("gemm", [A.dt, B.dt, c.dt]);
    if ldcIn.None? then Fail(CtypesArgument(14))
    else
      Ok(Call(k.name,
              [IntArg(ROW_MAJOR), IntArg(ta), IntArg(tb), IntArg(d.m), IntArg(d.n), IntArg(d.kA), CoefArg(alpha),
               BufArg("A"), IntArg(ldaV), BufArg("B"), IntArg(ldbV), CoefArg(beta),
               BufArg("C"), IntArg(ldcIn.value)],
              ["C"], ReturnsContainer("C", if C.Some? then Provided else Allocated(c))))
  }

  /** gemm as written: without transposes the inner dimensions are never compared, since
      k_B is taken from A. A 2 x 3 A and a 5 x 4 B (with a 2 x 4 C and its ldc) are
      accepted and the kernel is told k = 3. */
  lemma GemmIgnoresInnerDimension()
    ensures var r := Gemm(Matrix(2, 3, F64, NdArray), Matrix(5, 4, F64, NdArray), Some(Matrix(2, 4, F64, NdArray)),
                          "n", "n", 1.0, 1.0, None, None, Some(4));
      r.Ok? && r.value.args[3..6] == [IntArg(2), IntArg(4), IntArg(3)]
  {
    assert "n" in TRANS_FLAGS;
  }

  /** gemm as written never succeeds without an explicit ldc, nor with C omitted: ldc is
      then None when the kernel is called, and ctypes refuses it. */
  lemma GemmLdcNone(A: Arg, B: Arg, C: Option<Arg>, transA: string, transB: string, alpha: real, beta: real,
                    lda: Option<int>, ldb: Option<int>, ldc: Option<int>)
    ensures !Gemm(A, B, C, transA, transB, alpha, beta, lda, ldb).Ok?
    ensures !Gemm(A, B, None, transA, transB, alpha, beta, lda, ldb, ldc).Ok?
    ensures Gemm(Matrix(2, 3, F64, NdArray), Matrix(3, 2, F64, NdArray)) == Fail(CtypesArgument(14))
  {
    assert "n" in TRANS_FLAGS;
  }

  /** gemm as written compares flags case-sensitively when it derives the dimensions: 'N'
      passes conversion but is read as a transpose, so a conformant A and B are rejected. */
  lemma GemmUppercaseN()
    ensures Gemm(Matrix(2, 3, F64, NdArray), Matrix(3, 2, F64, NdArray), None, "N", "n") == Fail(SizeMismatch("A", 2, "B", 3))
    ensures Gemm(Matrix(2, 3, F64, NdArray), Matrix(3, 2, F64, NdArray), Some(Matrix(2, 2, F64, NdArray)),
                 "n", "n", 1.0, 1.0, None, None, Some(2)).Ok?
  {
    assert "N" in TRANS_FLAGS && "n" in TRANS_FLAGS;
  }

  // ---------------------------------------------------------------------------------
  // The evidently intended gemm

  predicate NotTransposed(flag: string) { flag == "n" || flag == "N" }

  /** op(A) is m x k_A and op(B) is k_B x n, read from each operand's own shape; ntA and
      ntB say whether each operand is used untransposed. */
  function DimsFor(A: Arg, B: Arg, ntA: bool, ntB: bool): Dims
    requires A.IsTwoD() && B.IsTwoD()
  {
    var (m, kA) := if ntA then (A.Rows(), A.Cols()) else (A.Cols(), A.Rows());
    var (kB, n) := if ntB then (B.Rows(), B.Cols()) else (B.Cols(), B.Rows());
    Dims(m, n, kA, kB)
  }

  function IntendedDims(A: Arg, B: Arg, transA: string, transB: string): Dims
    requires A.IsTwoD() && B.IsTwoD()
  {
    DimsFor(A, B, NotTransposed(transA), NotTransposed(transB))
  }

  /** Where the written dimension rule and the intended one meet: A's pair agrees unless
      trans_a is 'N', n agrees when trans_b is 'n', and the written k_B is always A's
      column count rather than anything of B. */
  lemma DerivedDimsAgainstIntended(A: Arg, B: Arg, transA: string, transB: string)
    requires A.IsTwoD() && B.IsTwoD()
    ensures transA != "N" ==> (DerivedDims(A, B, transA, transB).m == IntendedDims(A, B, transA, transB).m
                               && DerivedDims(A, B, transA, transB).kA == IntendedDims(A, B, transA, transB).kA)
    ensures transB == "n" ==> DerivedDims(A, B, transA, transB).n == IntendedDims(A, B, transA, transB).n
    ensures DerivedDims(A, B, transA, transB).kB == A.Cols()
  {
  }

  /** The C the intended gemm works on: the given one, or m x n zeros of A's dtype. */
  function CFor(A: Arg, B: Arg, C: Option<Arg>, ntA: bool, ntB: bool): Arg
    requires A.IsTwoD() && B.IsTwoD()
  {
    var d := DimsFor(A, B, ntA, ntB);
    if C.Some? then C.value else CreateZeroMatrix(d.m, d.n, A.dt, A.kind)
  }

  function IntendedC(A: Arg, B: Arg, C: Option<Arg>, transA: string, transB: string): Arg
    requires A.IsTwoD() && B.IsTwoD()
  {
    CFor(A, B, C, NotTransposed(transA), NotTransposed(transB))
  }

  /** What the intended gemm demands: op(A) (m x k) and op(B) (k x n) conform, C is m x n,
      and all three share one supported dtype. */
  predicate IntendedConforms(A: Arg, B: Arg, C: Option<Arg>, transA: string, transB: string)
  {
    A.IsTwoD() && B.IsTwoD() && IntendedC(A, B, C, transA, transB).IsTwoD()
    && transA in TRANS_FLAGS && transB in TRANS_FLAGS
    && IntendedDims(A, B, transA, transB).kA == IntendedDims(A, B, transA, transB).kB
    && IntendedDims(A, B, transA, transB).m == IntendedC(A, B, C, transA, transB).Rows()
    && IntendedDims(A, B, transA, transB).n == IntendedC(A, B, C, transA, transB).Cols()
    && A.dt == B.dt == IntendedC(A, B, C, transA, transB).dt && Supported(A.dt)
  }

  /** gemm with the dimensions taken from each operand's own shape, case-insensitive
      flags, and ldc defaulting to C's column count. */
  function GemmIntended(A: Arg, B: Arg, C: Option<Arg> := None, transA: string := "n", transB: string := "n",
                        alpha: real := 1.0, beta: real := 1.0, lda: Option<int> := None, ldb: Option<int> := None,
                        ldc: Option<int> := None): (r: Result<Call>)
    ensures r.Ok? <==> IntendedConforms(A, B, C, transA, transB)
    ensures r.Ok? ==> r.value == Call(KernelName("gemm", A.dt),
      [IntArg(ROW_MAJOR), IntArg(if NotTransposed(transA) then NO_TRANS else TRANS),
       IntArg(if NotTransposed(transB) then NO_TRANS else TRANS),
       IntArg(IntendedDims(A, B, transA, transB).m), IntArg(IntendedDims(A, B, transA, transB).n),
       IntArg(IntendedDims(A, B, transA, transB).kA), CoefArg(alpha),
       BufArg("A"), IntArg(lda.GetOr(A.Cols())), BufArg("B"), IntArg(ldb.GetOr(B.Cols())), CoefArg(beta),
       BufArg("C"), IntArg(if C.Some? then ldc.GetOr(C.value.Cols()) else IntendedDims(A, B, transA, transB).n)],
      ["C"], ReturnsContainer("C", if C.Some? then Provided else Allocated(IntendedC(A, B, C, transA, transB))))
  {
    var _ :- GetMatrixDimensions(A, HANDLER);
    var _ :- GetMatrixDimensions(B, HANDLER);
    var _ :- GetMatrixDimensions(IntendedC(A, B, C, transA, transB), HANDLER);
    var _ :- ConvertTrans(transA);
    var _ :- ConvertTrans(transB);
    IntendedCall(A, B, C, NotTransposed(transA), NotTransposed(transB), alpha, beta, lda, ldb, ldc)
  }

  /** The intended gemm once its flags are converted: the three size checks, the dtype
      dispatch and the kernel's argument list. */
  function IntendedCall(A: Arg, B: Arg, C: Option<Arg>, ntA: bool, ntB: bool, alpha: real, beta: real,
                        lda: Option<int>, ldb: Option<int>, ldc: Option<int>): Result<Call>
    requires A.IsTwoD() && B.IsTwoD() && CFor(A, B, C, ntA, ntB).IsTwoD()
  {
    var d := DimsFor(A, B, ntA, ntB);
    var c := CFor(A, B, C, ntA, ntB);
    var ldcV := if C.Some? then ldc.GetOr(c.Cols()) else c.Cols();
    var _ :- CheckEqualSizes("A", d.kA, "B", d.kB);
    var _ :- CheckEqualSizes("A", d.m, "C", c.Rows());
    var _ :- CheckEqualSizes("B", d.n, "C", c.Cols());
    var k :- GetCblasInfo("gemm", [A.dt, B.dt, c.dt]);
    Ok(Call(k.name,
            [IntArg(ROW_MAJOR), IntArg(if ntA then NO_TRANS else TRANS), IntArg(if ntB then NO_TRANS else TRANS),
             IntArg(d.m), IntArg(d.n), IntArg(d.kA), CoefArg(alpha),
             BufArg("A"), IntArg(lda.GetOr(A.Cols())), BufArg("B"), IntArg(ldb.GetOr(B.Cols())), CoefArg(beta),
             BufArg("C"), IntArg(ldcV)],
            ["C"], ReturnsContainer("C", if C.Some? then Provided else Allocated(c))))
  }

  /** The intended gemm rejects the operands the written one accepts above. */
  lemma GemmIntendedChecksInnerDimension()
    ensures GemmIntended(Matrix(2, 3, F64, NdArray), Matrix(5, 4, F64, NdArray)) == Fail(SizeMismatch("A", 3, "B", 5))
  {
    assert "n" in TRANS_FLAGS;
  }

  /** The intended gemm reads its flags case-insensitively, as convert_trans does: any two
      accepted flags that agree after lower-casing give the same outcome. */
  lemma GemmIntendedCaseInsensitive(A: Arg, B: Arg, C: Option<Arg>, tA1: string, tA2: string, tB1: string, tB2: string,
                                    alpha: real, beta: real, lda: Option<int>, ldb: Option<int>, ldc: Option<int>)
    requires tA1 in TRANS_FLAGS && tA2 in TRANS_FLAGS && NotTransposed(tA1) == NotTransposed(tA2)
    requires tB1 in TRANS_FLAGS && tB2 in TRANS_FLAGS && NotTransposed(tB1) == NotTransposed(tB2)
    ensures GemmIntended(A, B, C, tA1, tB1, alpha, beta, lda, ldb, ldc) == GemmIntended(A, B, C, tA2, tB2, alpha, beta, lda, ldb, ldc)
  {
    if A.IsTwoD() && B.IsTwoD() {
      assert IntendedC(A, B, C, tA1, tB1) == IntendedC(A, B, C, tA2, tB2);
    }
  }

  /** The written and the intended gemm part ways on conformant-looking operands beyond
      the inner dimension: with A 2 x 3, B 3 x 2 and C 2 x 2 (ldc 2), ('N', 'n') is
      rejected as written and accepted as intended, and ('n', 't') is accepted as written,
      with k_B taken from A, and rejected as intended. */
  lemma GemmWrittenAndIntendedDisagree()
    ensures var A, B, C := Matrix(2, 3, F64, NdArray), Matrix(3, 2, F64, NdArray), Some(Matrix(2, 2, F64, NdArray));
      Gemm(A, B, C, "N", "n", 1.0, 1.0, None, None, Some(2)) == Fail(SizeMismatch("A", 2, "B", 3))
      && GemmIntended(A, B, C, "N", "n", 1.0, 1.0, None, None, Some(2)).Ok?
    ensures var A, B, C := Matrix(2, 3, F64, NdArray), Matrix(3, 2, F64, NdArray), Some(Matrix(2, 2, F64, NdArray));
      Gemm(A, B, C, "n", "t", 1.0, 1.0, None, None, Some(2)).Ok?
      && GemmIntended(A, B, C, "n", "t", 1.0, 1.0, None, None, Some(2)) == Fail(SizeMismatch("A", 3, "B", 2))
  {
    assert "N" in TRANS_FLAGS && "n" in TRANS_FLAGS && "t" in TRANS_FLAGS;
  }

  // ---------------------------------------------------------------------------------
  // The kernel call on the containers' data

  /** gemm on C's data, resolved as intended. A given C (CData its data) is overwritten and
      returned; an omitted C is allocated as m x n zeros and returned. null stands for the
      raised error. */
  method GemmInPlace(A: Arg, B: Arg, CData: array?<real>, library: nat -> real, C: Option<Arg> := None,
                     transA: string := "n", transB: string := "n", alpha: real := 1.0, beta: real := 1.0,
                     lda: Option<int> := None, ldb: Option<int> := None, ldc: Option<int> := None)
    returns (r: Result<Call>, out: array?<real>)
    requires C.Some? <==> CData != null
    requires C.Some? ==> Holds(CData, C.value)
    requires RowMajorFits(C, ldc)
    modifies CData
    ensures r == GemmIntended(A, B, C, transA, transB, alpha, beta, lda, ldb, ldc)
    ensures r.Fail? ==> out == null && (CData != null ==> CData[..] == old(CData[..]))
    ensures r.Ok? ==> out != null && (C.Some? ==> out == CData) && (C.None? ==> fresh(out))
    ensures r.Ok? ==> out[..] == Results(IntendedDims(A, B, transA, transB).m * IntendedDims(A, B, transA, transB).n, library)
  {
    r := GemmIntended(A, B, C, transA, transB, alpha, beta, lda, ldb, ldc);
    out := null;
    if r.Ok? {
      var d := IntendedDims(A, B, transA, transB);
      out := MatrixOutput(CData, d.m, d.n, library);
    }
  }
}
