/** blaspy/level_3/syr2k.py: C := beta * C + alpha * (A * B^T + B * A^T), or the transposed form. */
module Syr2k {
  import opened Containers
  import opened Errors
  import opened Calls
  import opened Helpers
  import opened Kernel
  import Syrk

  const HANDLER: Handler := GenericType

  /** syr2k(A, B, C=None, uplo='u', trans='n', alpha=1, beta=1, lda=None, ldb=None, ldc=None). */
  function Syr2k(A: Arg, B: Arg, C: Option<Arg> := None, uplo: string := "u", trans: string := "n",
                 alpha: real := 1.0, beta: real := 1.0, lda: Option<int> := None, ldb: Option<int> := None,
                 ldc: Option<int> := None): (r: Result<Call>)
    ensures r.Ok? <==> (uplo in UPLO_FLAGS && trans in TRANS_FLAGS && A.IsTwoD() && B.IsTwoD()
      && Syrk.ResolvedC(A, C, trans).IsSquare()
      && A.Rows() == B.Rows() && A.Cols() == B.Cols()
      && Syrk.ResolvedC(A, C, trans).Rows() == Syrk.RankDims(A, trans).0
      && A.dt == B.dt == Syrk.ResolvedC(A, C, trans).dt && Supported(A.dt))
    ensures r.Ok? ==> r.value == Call(KernelName("syr2k", A.dt),
      [IntArg(ROW_MAJOR), IntArg(if uplo in ["u", "U"] then UPPER else LOWER),
       IntArg(if Syrk.Transposed(trans) then TRANS else NO_TRANS),
       IntArg(Syrk.RankDims(A, trans).0), IntArg(Syrk.RankDims(A, trans).1), CoefArg(alpha),
       BufArg("A"), IntArg(lda.GetOr(A.Cols())), BufArg("B"), IntArg(ldb.GetOr(B.Cols())), CoefArg(beta),
       BufArg("C"), IntArg(if C.Some? then ldc.GetOr(Syrk.RankDims(A, trans).0) else Syrk.RankDims(A, trans).0)],
      ["C"], ReturnsContainer("C", if C.Some? then Provided else Allocated(Syrk.ResolvedC(A, C, trans))))
    ensures uplo !in UPLO_FLAGS ==> r == Fail(InvalidParameter("uplo", UPLO_FLAGS, uplo))
    ensures uplo in UPLO_FLAGS && trans !in TRANS_FLAGS ==> r == Fail(InvalidParameter("trans", TRANS_FLAGS, trans))
    // A and B must have the same shape, whatever trans is
    ensures (uplo in UPLO_FLAGS && trans in TRANS_FLAGS && A.IsTwoD() && B.IsTwoD()
             && Syrk.ResolvedC(A, C, trans).IsSquare() && A.Rows() != B.Rows())
            ==> r == Fail(SizeMismatch("A", A.Rows(), "B", B.Rows()))
    ensures (uplo in UPLO_FLAGS && trans in TRANS_FLAGS && A.IsTwoD() && B.IsTwoD()
             && Syrk.ResolvedC(A, C, trans).IsSquare() && A.Rows() == B.Rows() && A.Cols() != B.Cols())
            ==> r == Fail(SizeMismatch("A", A.Cols(), "B", B.Cols()))
  {
    var u :- ConvertUplo(uplo);
    var t :- ConvertTrans(trans);
    var sA :- GetMatrixDimensions(A, HANDLER);
    var sB :- GetMatrixDimensions(B, HANDLER);
    var (n, k) := Syrk.RankDims(A, trans);
    var c := Syrk.ResolvedC(A, C, trans);
    var ldcIn := if C.Some? then ldc else None;
    var dimC :- GetSquareMatrixDimension("C", c, HANDLER);
    var ldaV := lda.GetOr(sA.1);
    var ldbV := ldb.GetOr(sB.1);
    var ldcV := ldcIn.GetOr(dimC);
    var _ :- CheckEqualSizes("A", sA.0, "B", sB.0);
    var _ :- CheckEqualSizes("A", sA.1, "B", sB.1);
    var _ :- CheckEqualSizes("A", n, "C", dimC);
    var kern :- GetCblasInfo("syr2k", [A.dt, B.dt, c.dt]);
    Ok(Call(kern.name,
            [IntArg(ROW_MAJOR), IntArg(u), IntArg(t), IntArg(n), IntArg(k), CoefArg(alpha),
             BufArg("A"), IntArg(ldaV), BufArg("B"), IntArg(ldbV), CoefArg(beta), BufArg("C"), IntArg(ldcV)],
            ["C"], ReturnsContainer("C", if C.Some? then Provided else Allocated(c))))
  }

  /** syr2k accepts exactly the operands syrk accepts for A and C, plus a B of A's shape
      and dtype. */
  lemma Syr2kExtendsSyrk(A: Arg, B: Arg, C: Option<Arg>, uplo: string, trans: string, alpha: real, beta: real,
                         lda: Option<int>, ldb: Option<int>, ldc: Option<int>)
    requires B.IsTwoD() && A.IsTwoD() && B.Rows() == A.Rows() && B.Cols() == A.Cols() && B.dt == A.dt
    ensures Syr2k(A, B, C, uplo, trans, alpha, beta, lda, ldb, ldc).Ok?
         == Syrk.Syrk(A, C, uplo, trans, alpha, beta, lda, ldc).Ok?
  {
  }

  // ---------------------------------------------------------------------------------
  // The kernel call on the containers' data

  /** syr2k on C's data. A given C (CData its data) is overwritten and returned; an
      omitted C is allocated as n x n zeros and returned. null stands for the raised error. */
  method Syr2kInPlace(A: Arg, B: Arg, CData: array?<real>, library: nat -> real, C: Option<Arg> := None,
                      uplo: string := "u", trans: string := "n", alpha: real := 1.0, beta: real := 1.0,
                      lda: Option<int> := None, ldb: Option<int> := None, ldc: Option<int> := None)
    returns (r: Result<Call>, out: array?<real>)
    requires C.Some? <==> CData != null
    requires C.Some? ==> Holds(CData, C.value)
    requires RowMajorFits(C, ldc)
    modifies CData
    ensures r == Syr2k(A, B, C, uplo, trans, alpha, beta, lda, ldb, ldc)
    ensures r.Fail? ==> out == null && (CData != null ==> CData[..] == old(CData[..]))
    ensures r.Ok? ==> out != null && (C.Some? ==> out == CData) && (C.None? ==> fresh(out))
    ensures r.Ok? ==> A.IsTwoD() && out[..] == Results(Syrk.RankDims(A, trans).0 * Syrk.RankDims(A, trans).0, library)
  {
    r := Syr2k(A, B, C, uplo, trans, alpha, beta, lda, ldb, ldc);
    out := null;
    if r.Ok? {
      var n := Syrk.RankDims(A, trans).0;
      out := MatrixOutput(CData, n, n, library);
    }
  }
}
