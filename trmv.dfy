/** blaspy/level_2/trmv.py: x := A * x (or A^T * x) with A triangular. */
module Trmv {
  import opened Containers
  import opened Errors
  import opened Calls
  import opened Helpers
  import opened Kernel

  const HANDLER: Handler := GenericType

  /** trmv(A, x, uplo='u', trans_a='n', diag='n', lda=None, inc_x=1): the kernel overwrites
      x and nothing is returned. */
  function Trmv(A: Arg, x: Arg, uplo: string := "u", transA: string := "n", diag: string := "n",
                lda: Option<int> := None, incX: int := 1): (r: Result<Call>)
    ensures r.Ok? <==> (x.IsVector() && A.IsSquare() && A.Rows() == EffectiveLength(x, incX)
      && uplo in UPLO_FLAGS && transA in TRANS_FLAGS && diag in DIAG_FLAGS
      && A.dt == x.dt && Supported(A.dt))
    ensures r.Ok? ==> r.value == Call(KernelName("trmv", A.dt),
      [IntArg(ROW_MAJOR), IntArg(if uplo in ["u", "U"] then UPPER else LOWER),
       IntArg(if transA in ["n", "N"] then NO_TRANS else TRANS), IntArg(if diag in ["n", "N"] then NON_UNIT else UNIT),
       IntArg(A.Rows()), BufArg("A"), IntArg(lda.GetOr(A.Rows())), BufArg("x"), IntArg(incX)],
      ["x"], ReturnsNothing)
    ensures !x.IsVector() ==> r.Fail? && r.error == GetVectorDimensions("x", x, incX, HANDLER).error
    ensures x.IsVector() && !A.IsSquare() ==> r.Fail? && r.error == GetSquareMatrixDimension("A", A, HANDLER).error
    // the check comes before any flag is converted
    ensures x.IsVector() && A.IsSquare() && A.Rows() != EffectiveLength(x, incX) ==>
      r == Fail(SizeMismatch("A", A.Rows(), "x", EffectiveLength(x, incX)))
  {
    var dx :- GetVectorDimensions("x", x, incX, HANDLER);
    var dimA :- GetSquareMatrixDimension("A", A, HANDLER);
    var ld := lda.GetOr(dimA);
    var _ :- CheckEqualSizes("A", dimA, "x", dx.length);
    var u :- ConvertUplo(uplo);
    var t :- ConvertTrans(transA);
    var d :- ConvertDiag(diag);
    var k :- GetCblasInfo("trmv", [A.dt, x.dt]);
    Ok(Call(k.name, [IntArg(ROW_MAJOR), IntArg(u), IntArg(t), IntArg(d), IntArg(dimA), BufArg("A"), IntArg(ld),
                     BufArg("x"), IntArg(incX)],
            ["x"], ReturnsNothing))
  }

  /** The conformability check does not depend on the transpose flag: any two accepted
      flags give the same acceptance, and calls that differ only in the transpose code. */
  lemma TrmvTransIndependent(A: Arg, x: Arg, uplo: string, t1: string, t2: string, diag: string,
                             lda: Option<int>, incX: int)
    requires t1 in TRANS_FLAGS && t2 in TRANS_FLAGS
    ensures Trmv(A, x, uplo, t1, diag, lda, incX).Ok? == Trmv(A, x, uplo, t2, diag, lda, incX).Ok?
    ensures Trmv(A, x, uplo, t1, diag, lda, incX).Ok? ==>
      var a1, a2 := Trmv(A, x, uplo, t1, diag, lda, incX).value.args, Trmv(A, x, uplo, t2, diag, lda, incX).value.args;
      a1[..2] == a2[..2] && a1[3..] == a2[3..]
  {
  }

  // ---------------------------------------------------------------------------------
  // The kernel call on the container's data

  /** trmv on x's data: the kernel visits dim_A elements of x, which is x's effective
      length, they take the library's results, and nothing else changes. */
  method TrmvInPlace(A: Arg, x: Arg, xData: array<real>, library: nat -> real, uplo: string := "u",
                     transA: string := "n", diag: string := "n", lda: Option<int> := None, incX: int := 1)
    returns (r: Result<Call>)
    requires Holds(xData, x) && NonEmpty(x) && incX >= 1
    modifies xData
    ensures r == Trmv(A, x, uplo, transA, diag, lda, incX)
    ensures r.Fail? ==> xData[..] == old(xData[..])
    ensures r.Ok? ==> StridedUpdate(xData[..], old(xData[..]), incX, Results(A.Rows(), library))
  {
    r := Trmv(A, x, uplo, transA, diag, lda, incX);
    if r.Ok? {
      VectorFits(x, xData, incX);
      StridedWrite(xData, incX, Results(A.Rows(), library));
    }
  }
}
