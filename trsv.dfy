/** blaspy/level_2/trsv.py: solve A * x = b for triangular A, overwriting b with x. */
module Trsv {
  import opened Containers
  import opened Errors
  import opened Calls
  import opened Helpers
  import opened Kernel

  /** trsv has no except clause. */
  const HANDLER: Handler := Unhandled

  /** trsv(A, b, uplo='u', trans_a='n', diag='n', lda=None, inc_b=1): the three flags are
      converted before any shape is read; b is overwritten and returned. */
  function Trsv(A: Arg, b: Arg, uplo: string := "u", transA: string := "n", diag: string := "n",
                lda: Option<int> := None, incB: int := 1): (r: Result<Call>)
    ensures r.Ok? <==> (uplo in UPLO_FLAGS && transA in TRANS_FLAGS && diag in DIAG_FLAGS
      && b.IsVector() && A.IsSquare() && A.Rows() == EffectiveLength(b, incB)
      && A.dt == b.dt && Supported(A.dt))
    ensures r.Ok? ==> r.value == Call(KernelName("trsv", A.dt),
      [IntArg(ROW_MAJOR), IntArg(if uplo in ["u", "U"] then UPPER else LOWER),
       IntArg(if transA in ["n", "N"] then NO_TRANS else TRANS), IntArg(if diag in ["n", "N"] then NON_UNIT else UNIT),
       IntArg(A.Rows()), BufArg("A"), IntArg(lda.GetOr(A.Rows())), BufArg("b"), IntArg(incB)],
      ["b"], ReturnsContainer("b", Provided))
    // a bad flag wins over a bad shape
    ensures uplo !in UPLO_FLAGS ==> r == Fail(InvalidParameter("uplo", UPLO_FLAGS, uplo))
    ensures uplo in UPLO_FLAGS && transA !in TRANS_FLAGS ==> r == Fail(InvalidParameter("trans", TRANS_FLAGS, transA))
    ensures uplo in UPLO_FLAGS && transA in TRANS_FLAGS && diag !in DIAG_FLAGS ==>
      r == Fail(InvalidParameter("diag", DIAG_FLAGS, diag))
    ensures (uplo in UPLO_FLAGS && transA in TRANS_FLAGS && diag in DIAG_FLAGS
             && b.IsVector() && A.IsSquare() && A.Rows() != EffectiveLength(b, incB))
            ==> r == Fail(SizeMismatch("A", A.Rows(), "b", EffectiveLength(b, incB)))
  {
    var u :- ConvertUplo(uplo);
    var t :- ConvertTrans(transA);
    var d :- ConvertDiag(diag);
    var db :- GetVectorDimensions("b", b, incB, HANDLER);
    var dimA :- GetSquareMatrixDimension("A", A, HANDLER);
    var ld := lda.GetOr(dimA);
    var _ :- CheckEqualSizes("A", dimA, "b", db.length);
    var k :- GetCblasInfo("trsv", [A.dt, b.dt]);
    Ok(Call(k.name, [IntArg(ROW_MAJOR), IntArg(u), IntArg(t), IntArg(d), IntArg(dimA), BufArg("A"), IntArg(ld),
                     BufArg("b"), IntArg(incB)],
            ["b"], ReturnsContainer("b", Provided)))
  }

  /** A single-character flag outside its alphabet (u/U/l/L, n/N/t/T, n/N/u/U) is reported
      for the first flag that carries it, whatever A and b are. */
  lemma TrsvFlagAlphabets(A: Arg, b: Arg, c: char, lda: Option<int>, incB: int)
    ensures !(c in "uUlL") ==> Trsv(A, b, [c], "n", "n", lda, incB) == Fail(InvalidParameter("uplo", UPLO_FLAGS, [c]))
    ensures !(c in "nNtT") ==> Trsv(A, b, "u", [c], "n", lda, incB) == Fail(InvalidParameter("trans", TRANS_FLAGS, [c]))
    ensures !(c in "nNuU") ==> Trsv(A, b, "u", "n", [c], lda, incB) == Fail(InvalidParameter("diag", DIAG_FLAGS, [c]))
  {
  }

  // ---------------------------------------------------------------------------------
  // The kernel call on the container's data

  /** trsv on b's data: b's visited elements take the solution the library computes,
      nothing else changes, and the object returned is b itself (null stands for the
      raised error). */
  method TrsvInPlace(A: Arg, b: Arg, bData: array<real>, library: nat -> real, uplo: string := "u",
                     transA: string := "n", diag: string := "n", lda: Option<int> := None, incB: int := 1)
    returns (r: Result<Call>, out: array?<real>)
    requires Holds(bData, b) && NonEmpty(b) && incB >= 1
    modifies bData
    ensures r == Trsv(A, b, uplo, transA, diag, lda, incB)
    ensures r.Fail? ==> out == null && bData[..] == old(bData[..])
    ensures r.Ok? ==> out == bData
    ensures r.Ok? ==> StridedUpdate(bData[..], old(bData[..]), incB, Results(A.Rows(), library))
  {
    r := Trsv(A, b, uplo, transA, diag, lda, incB);
    out := null;
    if r.Ok? {
      VectorFits(b, bData, incB);
      StridedWrite(bData, incB, Results(A.Rows(), library));
      out := bData;
    }
  }
}
