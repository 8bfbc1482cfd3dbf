/** blaspy/level_3/syrk.py: C := beta * C + alpha * A * A^T, or alpha * A^T * A. */
module Syrk {
  import opened Containers
  import opened Errors
  import opened Calls
  import opened Helpers
  import opened Kernel

  const HANDLER: Handler := GenericType

  predicate Transposed(trans: string) { trans == "t" || trans == "T" }

  /** (n, k): A's shape, swapped when transposed. */
  function RankDims(A: Arg, trans: string): (nat, nat)
    requires A.IsTwoD()
  {
    if !Transposed(trans) then (A.Rows(), A.Cols()) else (A.Cols(), A.Rows())
  }

  function ResolvedC(A: Arg, C: Option<Arg>, trans: string): Arg
    requires A.IsTwoD()
  {
    var n := RankDims(A, trans).0;
    if C.Some? then C.value else CreateZeroMatrix(n, n, A.dt, A.kind)
  }

  /** syrk(A, C=None, uplo='u', trans='n', alpha=1, beta=1, lda=None, ldc=None). */
  function Syrk(A: Arg, C: Option<Arg> := None, uplo: string := "u", trans: string := "n",
                alpha: real := 1.0, beta: real := 1.0, lda: Option<int> := None, ldc: Option<int> := None): (r: Result<Call>)
    ensures r.Ok? <==> (uplo in UPLO_FLAGS && trans in TRANS_FLAGS && A.IsTwoD()
      && ResolvedC(A, C, trans).IsSquare() && ResolvedC(A, C, trans).Rows() == RankDims(A, trans).0
      && A.dt == ResolvedC(A, C, trans).dt && Supported(A.dt))
    ensures r.Ok? ==> r.value == Call(KernelName("syrk", A.dt),
      [IntArg(ROW_MAJOR), IntArg(if uplo in ["u", "U"] then UPPER else LOWER),
       IntArg(if Transposed(trans) then TRANS else NO_TRANS),
       IntArg(RankDims(A, trans).0), IntArg(RankDims(A, trans).1), CoefArg(alpha),
       BufArg("A"), IntArg(lda.GetOr(A.Cols())), CoefArg(beta),
       BufArg("C"), IntArg(if C.Some? then ldc.GetOr(RankDims(A, trans).0) else RankDims(A, trans).0)],
      ["C"], ReturnsContainer("C", if C.Some? then Provided else Allocated(ResolvedC(A, C, trans))))
    ensures uplo !in UPLO_FLAGS ==> r == Fail(InvalidParameter("uplo", UPLO_FLAGS, uplo))
    ensures uplo in UPLO_FLAGS && trans !in TRANS_FLAGS ==> r == Fail(InvalidParameter("trans", TRANS_FLAGS, trans))
    ensures (uplo in UPLO_FLAGS && trans in TRANS_FLAGS && A.IsTwoD() && ResolvedC(A, C, trans).IsTwoD()
             && !ResolvedC(A, C, trans).IsSquare())
            ==> r == Fail(NotSquare("C", ResolvedC(A, C, trans).Rows(), ResolvedC(A, C, trans).Cols()))
    ensures (uplo in UPLO_FLAGS && trans in TRANS_FLAGS && A.IsTwoD() && ResolvedC(A, C, trans).IsSquare()
             && ResolvedC(A, C, trans).Rows() != RankDims(A, trans).0)
            ==> r == Fail(SizeMismatch("A", RankDims(A, trans).0, "C", ResolvedC(A, C, trans).Rows()))
  {
    var u :- ConvertUplo(uplo);
    var t :- ConvertTrans(trans);
    var sA :- GetMatrixDimensions(A, HANDLER);
    var (n, k) := RankDims(A, trans);
    var c := ResolvedC(A, C, trans);
    var ldcIn := if C.Some? then ldc else None;
    var dimC :- GetSquareMatrixDimension("C", c, HANDLER);
    var ldaV := lda.GetOr(sA.1);
    var ldcV := ldcIn.GetOr(dimC);
    var _ :- CheckEqualSizes("A", n, "C", dimC);
    var kern :- GetCblasInfo("syrk", [A.dt, c.dt]);
    Ok(Call(kern.name,
            [IntArg(ROW_MAJOR), IntArg(u), IntArg(t), IntArg(n), IntArg(k), CoefArg(alpha),
             BufArg("A"), IntArg(ldaV), CoefArg(beta), BufArg("C"), IntArg(ldcV)],
            ["C"], ReturnsContainer("C", if C.Some? then Provided else Allocated(c))))
  }

  /** The dimension the raw string selects agrees with the converted code: for an accepted
      flag, the transpose the kernel is told about is the one the dimensions assume. */
  lemma SyrkTransposeAgreesWithCode(trans: string)
    requires trans in TRANS_FLAGS
    ensures ConvertTrans(trans).Ok? && (ConvertTrans(trans).value == TRANS <==> Transposed(trans))
  {
  }

  // ---------------------------------------------------------------------------------
  // The kernel call on the containers' data

  /** syrk on C's data. A given C (CData its data) is overwritten and returned; an omitted
      C is allocated as n x n zeros and returned. null stands for the raised error. */
  method SyrkInPlace(A: Arg, CData: array?<real>, library: nat -> real, C: Option<Arg> := None,
                     uplo: string := "u", trans: string := "n", alpha: real := 1.0, beta: real := 1.0,
                     lda: Option<int> := None, ldc: Option<int> := None)
    returns (r: Result<Call>, out: array?<real>)
    requires C.Some? <==> CData != null
    requires C.Some? ==> Holds(CData, C.value)
    requires RowMajorFits(C, ldc)
    modifies CData
    ensures r == Syrk(A, C, uplo, trans, alpha, beta, lda, ldc)
    ensures r.Fail? ==> out == null && (CData != null ==> CData[..] == old(CData[..]))
    ensures r.Ok? ==> out != null && (C.Some? ==> out == CData) && (C.None? ==> fresh(out))
    ensures r.Ok? ==> A.IsTwoD() && out[..] == Results(RankDims(A, trans).0 * RankDims(A, trans).0, library)
  {
    r := Syrk(A, C, uplo, trans, alpha, beta, lda, ldc);
    out := null;
    if r.Ok? {
      var n := RankDims(A, trans).0;
      out := MatrixOutput(CData, n, n, library);
    }
  }
}
