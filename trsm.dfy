/** blaspy/level_3/trsm.py: solve op(A) * X = alpha * B or X * op(A) = alpha * B, overwriting B with X. */
module Trsm {
  import opened Containers
  import opened Errors
  import opened Calls
  import opened Helpers
  import opened Kernel
  import Trmm

  const HANDLER: Handler := GenericType

  /** trsm(A, B, side='l', uplo='u', trans_a='n', diag='n', alpha=1, lda=None, ldb=None):
      side, uplo, trans and diag are converted first, and the side used for the check is
      the converted code. B is overwritten and nothing is returned. */
  function Trsm(A: Arg, B: Arg, side: string := "l", uplo: string := "u", transA: string := "n",
                diag: string := "n", alpha: real := 1.0, lda: Option<int> := None, ldb: Option<int> := None): (r: Result<Call>)
    ensures r.Ok? <==> (side in SIDE_FLAGS && uplo in UPLO_FLAGS && transA in TRANS_FLAGS && diag in DIAG_FLAGS
      && A.IsSquare() && B.IsTwoD()
      && A.Rows() == (if side in ["l", "L"] then B.Rows() else B.Cols())
      && A.dt == B.dt && Supported(A.dt))
    ensures r.Ok? ==> r.value == Call(KernelName("trsm", A.dt),
      [IntArg(ROW_MAJOR), IntArg(if side in ["l", "L"] then LEFT else RIGHT),
       IntArg(if uplo in ["u", "U"] then UPPER else LOWER),
       IntArg(if transA in ["n", "N"] then NO_TRANS else TRANS), IntArg(if diag in ["n", "N"] then NON_UNIT else UNIT),
       IntArg(B.Rows()), IntArg(B.Cols()), CoefArg(alpha),
       BufArg("A"), IntArg(lda.GetOr(A.Rows())), BufArg("B"), IntArg(ldb.GetOr(B.Cols()))],
      ["B"], ReturnsNothing)
    ensures side !in SIDE_FLAGS ==> r == Fail(InvalidParameter("side", SIDE_FLAGS, side))
    ensures side in SIDE_FLAGS && uplo !in UPLO_FLAGS ==> r == Fail(InvalidParameter("uplo", UPLO_FLAGS, uplo))
    ensures side in SIDE_FLAGS && uplo in UPLO_FLAGS && transA !in TRANS_FLAGS ==>
      r == Fail(InvalidParameter("trans", TRANS_FLAGS, transA))
    ensures (side in SIDE_FLAGS && uplo in UPLO_FLAGS && transA in TRANS_FLAGS && diag !in DIAG_FLAGS)
            ==> r == Fail(InvalidParameter("diag", DIAG_FLAGS, diag))
    ensures (side in SIDE_FLAGS && uplo in UPLO_FLAGS && transA in TRANS_FLAGS && diag in DIAG_FLAGS
             && A.IsTwoD() && !A.IsSquare())
            ==> r.Fail? && r.error == NotSquare("A", A.Rows(), A.Cols())
    ensures (side in SIDE_FLAGS && uplo in UPLO_FLAGS && transA in TRANS_FLAGS && diag in DIAG_FLAGS
             && A.IsSquare() && B.IsTwoD() && A.Rows() != (if side in ["l", "L"] then B.Rows() else B.Cols()))
            ==> r == Fail(SizeMismatch("A", A.Rows(), "B", if side in ["l", "L"] then B.Rows() else B.Cols()))
  {
    var s :- ConvertSide(side);
    var u :- ConvertUplo(uplo);
    var t :- ConvertTrans(transA);
    var d :- ConvertDiag(diag);
    var left := s == LEFT;
    var dimA :- GetSquareMatrixDimension("A", A, HANDLER);
    var sB :- GetMatrixDimensions(B, HANDLER);
    var ldaV := lda.GetOr(dimA);
    var ldbV := ldb.GetOr(sB.1);
    var _ :- if left then CheckEqualSizes("A", dimA, "B", sB.0) else CheckEqualSizes("A", dimA, "B", sB.1);
    var kern :- GetCblasInfo("trsm", [A.dt, B.dt]);
    Ok(Call(kern.name,
            [IntArg(ROW_MAJOR), IntArg(s), IntArg(u), IntArg(t), IntArg(d), IntArg(sB.0), IntArg(sB.1), CoefArg(alpha),
             BufArg("A"), IntArg(ldaV), BufArg("B"), IntArg(ldbV)],
            ["B"], ReturnsNothing))
  }

  /** trsm and trmm resolve the same operands the same way: they accept the same
      arguments and differ only in the kernel's name. */
  lemma TrsmAgreesWithTrmm(A: Arg, B: Arg, side: string, uplo: string, transA: string, diag: string,
                           alpha: real, lda: Option<int>, ldb: Option<int>)
    ensures Trsm(A, B, side, uplo, transA, diag, alpha, lda, ldb).Ok?
         == Trmm.Trmm(A, B, side, uplo, transA, diag, alpha, lda, ldb).Ok?
    ensures Trsm(A, B, side, uplo, transA, diag, alpha, lda, ldb).Ok? ==>
      Trsm(A, B, side, uplo, transA, diag, alpha, lda, ldb).value.args
      == Trmm.Trmm(A, B, side, uplo, transA, diag, alpha, lda, ldb).value.args
  {
  }

  // ---------------------------------------------------------------------------------
  // The kernel call on the container's data

  /** trsm on B's data: every element of B takes the solution the library computes;
      nothing is returned. On failure nothing is written. */
  method TrsmInPlace(A: Arg, B: Arg, BData: array<real>, library: nat -> real, side: string := "l",
                     uplo: string := "u", transA: string := "n", diag: string := "n", alpha: real := 1.0,
                     lda: Option<int> := None, ldb: Option<int> := None)
    returns (r: Result<Call>)
    requires Holds(BData, B) && RowMajorFits(Some(B), ldb)
    modifies BData
    ensures r == Trsm(A, B, side, uplo, transA, diag, alpha, lda, ldb)
    ensures r.Fail? ==> BData[..] == old(BData[..])
    ensures r.Ok? ==> BData[..] == Results(BData.Length, library)
  {
    r := Trsm(A, B, side, uplo, transA, diag, alpha, lda, ldb);
    if r.Ok? {
      var _ := MatrixOutput(BData, B.Rows(), B.Cols(), library);
    }
  }
}
