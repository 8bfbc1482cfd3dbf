/** blaspy/level_3/trmm.py: B := alpha * op(A) * B, or alpha * B * op(A), with A triangular. */
module Trmm {
  import opened Containers
  import opened Errors
  import opened Calls
  import opened Helpers
  import opened Kernel
  import Symm

  const HANDLER: Handler := GenericType

  /** trmm(A, B, side='l', uplo='u', trans_a='n', diag='n', alpha=1, lda=None, ldb=None):
      the four flags are converted first; the side used for the dimensions is read from the
      raw string. B is overwritten and nothing is returned. */
  function Trmm(A: Arg, B: Arg, side: string := "l", uplo: string := "u", transA: string := "n",
                diag: string := "n", alpha: real := 1.0, lda: Option<int> := None, ldb: Option<int> := None): (r: Result<Call>)
    ensures r.Ok? <==> (uplo in UPLO_FLAGS && side in SIDE_FLAGS && transA in TRANS_FLAGS && diag in DIAG_FLAGS
      && A.IsSquare() && B.IsTwoD()
      && A.Rows() == (if side in ["l", "L"] then B.Rows() else B.Cols())
      && A.dt == B.dt && Supported(A.dt))
    ensures r.Ok? ==> r.value == Call(KernelName("trmm", A.dt),
      [IntArg(ROW_MAJOR), IntArg(if side in ["l", "L"] then LEFT else RIGHT),
       IntArg(if uplo in ["u", "U"] then UPPER else LOWER),
       IntArg(if transA in ["n", "N"] then NO_TRANS else TRANS), IntArg(if diag in ["n", "N"] then NON_UNIT else UNIT),
       IntArg(B.Rows()), IntArg(B.Cols()), CoefArg(alpha),
       BufArg("A"), IntArg(lda.GetOr(A.Rows())), BufArg("B"), IntArg(ldb.GetOr(B.Cols()))],
      ["B"], ReturnsNothing)
    // all four flags are converted before any dimension is read
    ensures uplo !in UPLO_FLAGS ==> r == Fail(InvalidParameter("uplo", UPLO_FLAGS, uplo))
    ensures uplo in UPLO_FLAGS && side !in SIDE_FLAGS ==> r == Fail(InvalidParameter("side", SIDE_FLAGS, side))
    ensures uplo in UPLO_FLAGS && side in SIDE_FLAGS && transA !in TRANS_FLAGS ==>
      r == Fail(InvalidParameter("trans", TRANS_FLAGS, transA))
    ensures (uplo in UPLO_FLAGS && side in SIDE_FLAGS && transA in TRANS_FLAGS && diag !in DIAG_FLAGS)
            ==> r == Fail(InvalidParameter("diag", DIAG_FLAGS, diag))
    ensures (uplo in UPLO_FLAGS && side in SIDE_FLAGS && transA in TRANS_FLAGS && diag in DIAG_FLAGS
             && A.IsSquare() && B.IsTwoD() && A.Rows() != (if side in ["l", "L"] then B.Rows() else B.Cols()))
            ==> r == Fail(SizeMismatch("A", A.Rows(), "B", if side in ["l", "L"] then B.Rows() else B.Cols()))
  {
    var u :- ConvertUplo(uplo);
    var s :- ConvertSide(side);
    var t :- ConvertTrans(transA);
    var d :- ConvertDiag(diag);
    var left := side == "l" || side == "L";
    var dimA :- GetSquareMatrixDimension("A", A, HANDLER);
    var sB :- GetMatrixDimensions(B, HANDLER);
    var (m, n, k) := Symm.SideDims(dimA, B, left);
    var ldaV := lda.GetOr(dimA);
    var ldbV := ldb.GetOr(sB.1);
    var _ :- CheckEqualSizes("A", dimA, "B", k);
    var kern :- GetCblasInfo("trmm", [A.dt, B.dt]);
    Ok(Call(kern.name,
            [IntArg(ROW_MAJOR), IntArg(s), IntArg(u), IntArg(t), IntArg(d), IntArg(m), IntArg(n), CoefArg(alpha),
             BufArg("A"), IntArg(ldaV), BufArg("B"), IntArg(ldbV)],
            ["B"], ReturnsNothing))
  }

  /** For an accepted side flag the raw-string test and the converted code agree. */
  lemma TrmmSideAgreesWithCode(side: string)
    requires side in SIDE_FLAGS
    ensures ConvertSide(side).Ok? && (ConvertSide(side).value == LEFT <==> (side == "l" || side == "L"))
  {
  }

  // ---------------------------------------------------------------------------------
  // The kernel call on the container's data

  /** trmm on B's data: every element of B takes the library's result; nothing is
      returned. On failure nothing is written. */
  method TrmmInPlace(A: Arg, B: Arg, BData: array<real>, library: nat -> real, side: string := "l",
                     uplo: string := "u", transA: string := "n", diag: string := "n", alpha: real := 1.0,
                     lda: Option<int> := None, ldb: Option<int> := None)
    returns (r: Result<Call>)
    requires Holds(BData, B) && RowMajorFits(Some(B), ldb)
    modifies BData
    ensures r == Trmm(A, B, side, uplo, transA, diag, alpha, lda, ldb)
    ensures r.Fail? ==> BData[..] == old(BData[..])
    ensures r.Ok? ==> BData[..] == Results(BData.Length, library)
  {
    r := Trmm(A, B, side, uplo, transA, diag, alpha, lda, ldb);
    if r.Ok? {
      var _ := MatrixOutput(BData, B.Rows(), B.Cols(), library);
    }
  }
}
