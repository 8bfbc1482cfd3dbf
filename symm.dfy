/** blaspy/level_3/symm.py: C := beta * C + alpha * A * B, or alpha * B * A, with A symmetric. */
module Symm {
  import opened Containers
  import opened Errors
  import opened Calls
  import opened Helpers
  import opened Kernel

  /** symm has no except clause. */
  const HANDLER: Handler := Unhandled

  /** (m, n, k): (dim_A, n_B, m_B) when A is on the left, (m_B, dim_A, n_B) on the right. */
  function SideDims(dimA: nat, B: Arg, left: bool): (nat, nat, nat)
    requires B.IsTwoD()
  {
    if left then (dimA, B.Cols(), B.Rows()) else (B.Rows(), dimA, B.Cols())
  }

  function ResolvedC(A: Arg, B: Arg, C: Option<Arg>, left: bool): Arg
    requires A.IsTwoD() && B.IsTwoD()
  {
    var (m, n, _) := SideDims(A.Rows(), B, left);
    if C.Some? then C.value else CreateZeroMatrix(m, n, A.dt, A.kind)
  }

  /** symm(A, B, C=None, side='l', uplo='u', alpha=1.0, beta=1.0, lda=None, ldb=None, ldc=None). */
  function Symm(A: Arg, B: Arg, C: Option<Arg> := None, side: string := "l", uplo: string := "u",
                alpha: real := 1.0, beta: real := 1.0, lda: Option<int> := None, ldb: Option<int> := None,
                ldc: Option<int> := None): (r: Result<Call>)
    ensures r.Ok? <==> (uplo in UPLO_FLAGS && side in SIDE_FLAGS && A.IsSquare() && B.IsTwoD()
      && ResolvedC(A, B, C, side in ["l", "L"]).IsTwoD()
      && A.Rows() == (if side in ["l", "L"] then B.Rows() else B.Cols())
      && ResolvedC(A, B, C, side in ["l", "L"]).Rows() == B.Rows()
      && ResolvedC(A, B, C, side in ["l", "L"]).Cols() == B.Cols()
      && A.dt == B.dt == ResolvedC(A, B, C, side in ["l", "L"]).dt && Supported(A.dt))
    ensures r.Ok? ==> r.value == Call(KernelName("symm", A.dt),
      [IntArg(ROW_MAJOR), IntArg(if side in ["l", "L"] then LEFT else RIGHT),
       IntArg(if uplo in ["u", "U"] then UPPER else LOWER), IntArg(B.Rows()), IntArg(B.Cols()), CoefArg(alpha),
       BufArg("A"), IntArg(lda.GetOr(A.Rows())), BufArg("B"), IntArg(ldb.GetOr(B.Cols())), CoefArg(beta),
       BufArg("C"), IntArg(if C.Some? then ldc.GetOr(B.Cols()) else B.Cols())],
      ["C"], ReturnsContainer("C", if C.Some? then Provided else Allocated(ResolvedC(A, B, C, side in ["l", "L"]))))
    // side and uplo are converted before any dimension is read
    ensures uplo !in UPLO_FLAGS ==> r == Fail(InvalidParameter("uplo", UPLO_FLAGS, uplo))
    ensures uplo in UPLO_FLAGS && side !in SIDE_FLAGS ==> r == Fail(InvalidParameter("side", SIDE_FLAGS, side))
    ensures (uplo in UPLO_FLAGS && side in SIDE_FLAGS && A.IsTwoD() && !A.IsSquare())
            ==> r == Fail(NotSquare("A", A.Rows(), A.Cols()))
    ensures (uplo in UPLO_FLAGS && side in SIDE_FLAGS && A.IsSquare() && B.IsTwoD()
             && ResolvedC(A, B, C, side in ["l", "L"]).IsTwoD()
             && A.Rows() != (if side in ["l", "L"] then B.Rows() else B.Cols()))
            ==> r == Fail(SizeMismatch("A", A.Rows(), "B", if side in ["l", "L"] then B.Rows() else B.Cols()))
  {
    var u :- ConvertUplo(uplo);
    var s :- ConvertSide(side);
    var left := s == LEFT;
    var dimA :- GetSquareMatrixDimension("A", A, HANDLER);
    var sB :- GetMatrixDimensions(B, HANDLER);
    var (m, n, k) := SideDims(dimA, B, left);
    var c := ResolvedC(A, B, C, left);
    var ldcIn := if C.Some? then ldc else None;
    var sC :- GetMatrixDimensions(c, HANDLER);
    var ldaV := lda.GetOr(dimA);
    var ldbV := ldb.GetOr(sB.1);
    var ldcV := ldcIn.GetOr(sC.1);
    var _ :- CheckEqualSizes("A", dimA, "B", k);
    var _ :- CheckEqualSizes(if left then "A" else "B", m, "C", sC.0);
    var _ :- CheckEqualSizes(if left then "B" else "A", n, "C", sC.1);
    var kern :- GetCblasInfo("symm", [A.dt, B.dt, c.dt]);
    Ok(Call(kern.name,
            [IntArg(ROW_MAJOR), IntArg(s), IntArg(u), IntArg(m), IntArg(n), CoefArg(alpha),
             BufArg("A"), IntArg(ldaV), BufArg("B"), IntArg(ldbV), CoefArg(beta), BufArg("C"), IntArg(ldcV)],
            ["C"], ReturnsContainer("C", if C.Some? then Provided else Allocated(c))))
  }

  /** Once the checks pass, (m, n) is B's shape on either side, and so is C's. */
  lemma SymmOutputHasShapeOfB(A: Arg, B: Arg, C: Option<Arg>, side: string, uplo: string, alpha: real, beta: real,
                              lda: Option<int>, ldb: Option<int>, ldc: Option<int>)
    requires Symm(A, B, C, side, uplo, alpha, beta, lda, ldb, ldc).Ok?
    ensures var d := SideDims(A.Rows(), B, side in ["l", "L"]); d.0 == B.Rows() && d.1 == B.Cols()
    ensures C.Some? ==> C.value.IsTwoD() && C.value.Rows() == B.Rows() && C.value.Cols() == B.Cols()
  {
  }

  // ---------------------------------------------------------------------------------
  // The kernel call on the containers' data

  /** symm on C's data. A given C (CData its data) is overwritten and returned; an omitted
      C is allocated as zeros of B's shape and returned. null stands for the raised error. */
  method SymmInPlace(A: Arg, B: Arg, CData: array?<real>, library: nat -> real, C: Option<Arg> := None,
                     side: string := "l", uplo: string := "u", alpha: real := 1.0, beta: real := 1.0,
                     lda: Option<int> := None, ldb: Option<int> := None, ldc: Option<int> := None)
    returns (r: Result<Call>, out: array?<real>)
    requires C.Some? <==> CData != null
    requires C.Some? ==> Holds(CData, C.value)
    requires RowMajorFits(C, ldc)
    modifies CData
    ensures r == Symm(A, B, C, side, uplo, alpha, beta, lda, ldb, ldc)
    ensures r.Fail? ==> out == null && (CData != null ==> CData[..] == old(CData[..]))
    ensures r.Ok? ==> out != null && (C.Some? ==> out == CData) && (C.None? ==> fresh(out))
    ensures r.Ok? ==> B.IsTwoD() && out[..] == Results(B.Rows() * B.Cols(), library)
  {
    r := Symm(A, B, C, side, uplo, alpha, beta, lda, ldb, ldc);
    out := null;
    if r.Ok? {
      out := MatrixOutput(CData, B.Rows(), B.Cols(), library);
    }
  }
}
