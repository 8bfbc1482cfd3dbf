/** blaspy/level_2/syr2.py: the symmetric rank-2 update A := A + alpha * x * y^T + alpha * y * x^T. */
module Syr2 {
  import opened Containers
  import opened Errors
  import opened Calls
  import opened Helpers
  import opened Kernel

  /** syr2 has no except clause: a missing shape attribute escapes as AttributeError. */
  const HANDLER: Handler := Unhandled

  /** The A syr2 uses: the given one, or a zero matrix sized by x's effective length only. */
  function ResolvedA(x: Arg, A: Option<Arg>, incX: int): Arg
    requires x.IsTwoD()
  {
    if A.Some? then A.value else CreateZeroMatrix(EffectiveLength(x, incX), EffectiveLength(x, incX), x.dt, x.kind)
  }

  /** syr2(x, y, A=None, uplo='u', alpha=1.0, lda=None, inc_x=1, inc_y=1). */
  function Syr2(x: Arg, y: Arg, A: Option<Arg> := None, uplo: string := "u", alpha: real := 1.0,
                lda: Option<int> := None, incX: int := 1, incY: int := 1): (r: Result<Call>)
    ensures r.Ok? <==> (x.IsVector() && y.IsVector() && ResolvedA(x, A, incX).IsSquare()
      && ResolvedA(x, A, incX).Rows() == EffectiveLength(x, incX)
      && ResolvedA(x, A, incX).Rows() == EffectiveLength(y, incY)
      && uplo in UPLO_FLAGS
      && ResolvedA(x, A, incX).dt == x.dt == y.dt && Supported(x.dt))
    ensures r.Ok? ==> r.value == Call(KernelName("syr2", x.dt),
      [IntArg(ROW_MAJOR), IntArg(if uplo in ["u", "U"] then UPPER else LOWER), IntArg(EffectiveLength(x, incX)),
       CoefArg(alpha), BufArg("x"), IntArg(incX), BufArg("y"), IntArg(incY), BufArg("A"),
       IntArg(if A.Some? then lda.GetOr(EffectiveLength(x, incX)) else EffectiveLength(x, incX))],
      ["A"], ReturnsContainer("A", if A.Some? then Provided else Allocated(ResolvedA(x, A, incX))))
    ensures !x.IsVector() ==> r.Fail? && r.error == GetVectorDimensions("x", x, incX, HANDLER).error
    ensures x.IsVector() && !y.IsVector() ==> r.Fail? && r.error == GetVectorDimensions("y", y, incY, HANDLER).error
    // the flag is converted after the conformability checks
    ensures (x.IsVector() && y.IsVector() && ResolvedA(x, A, incX).IsSquare()
             && ResolvedA(x, A, incX).Rows() == EffectiveLength(x, incX)
             && ResolvedA(x, A, incX).Rows() == EffectiveLength(y, incY) && uplo !in UPLO_FLAGS)
            ==> r == Fail(InvalidParameter("uplo", UPLO_FLAGS, uplo))
    ensures (x.IsVector() && y.IsVector() && ResolvedA(x, A, incX).IsSquare()
             && ResolvedA(x, A, incX).Rows() == EffectiveLength(x, incX)
             && ResolvedA(x, A, incX).Rows() == EffectiveLength(y, incY) && uplo in UPLO_FLAGS
             && !(ResolvedA(x, A, incX).dt == x.dt == y.dt && Supported(x.dt)))
            ==> r == Fail(InvalidDtypes(ALLOWED_DTYPES))
  {
    var dx :- GetVectorDimensions("x", x, incX, HANDLER);
    var dy :- GetVectorDimensions("y", y, incY, HANDLER);
    var a := ResolvedA(x, A, incX);
    var given := if A.Some? then lda else None;
    var dimA :- GetSquareMatrixDimension("A", a, HANDLER);
    var ld := given.GetOr(dimA);
    var _ :- CheckEqualSizes("A", dimA, "x", dx.length);
    var _ :- CheckEqualSizes("A", dimA, "y", dy.length);
    var code :- ConvertUplo(uplo);
    var k :- GetCblasInfo("syr2", [a.dt, x.dt, y.dt]);
    Ok(Call(k.name, [IntArg(ROW_MAJOR), IntArg(code), IntArg(dimA), CoefArg(alpha), BufArg("x"), IntArg(incX),
                     BufArg("y"), IntArg(incY), BufArg("A"), IntArg(ld)],
            ["A"], ReturnsContainer("A", if A.Some? then Provided else Allocated(a))))
  }

  /** The default A follows x alone: with A omitted, a y of another effective length is
      reported against the new matrix. */
  lemma Syr2OmittedASizedByX(x: Arg, y: Arg, uplo: string, alpha: real, lda: Option<int>, incX: int, incY: int)
    requires x.IsVector() && y.IsVector() && EffectiveLength(x, incX) != EffectiveLength(y, incY)
    ensures Syr2(x, y, None, uplo, alpha, lda, incX, incY)
         == Fail(SizeMismatch("A", EffectiveLength(x, incX), "y", EffectiveLength(y, incY)))
  {
  }

  // ---------------------------------------------------------------------------------
  // The kernel call on the containers' data

  /** syr2 on A's data. A given A (AData its data) is overwritten and returned; an omitted
      A is allocated as x_length x x_length zeros and returned. null stands for the raised
      error. */
  method Syr2InPlace(x: Arg, y: Arg, AData: array?<real>, library: nat -> real, A: Option<Arg> := None,
                     uplo: string := "u", alpha: real := 1.0, lda: Option<int> := None, incX: int := 1,
                     incY: int := 1)
    returns (r: Result<Call>, out: array?<real>)
    requires A.Some? <==> AData != null
    requires A.Some? ==> Holds(AData, A.value)
    requires RowMajorFits(A, lda)
    modifies AData
    ensures r == Syr2(x, y, A, uplo, alpha, lda, incX, incY)
    ensures r.Fail? ==> out == null && (AData != null ==> AData[..] == old(AData[..]))
    ensures r.Ok? ==> out != null && (A.Some? ==> out == AData) && (A.None? ==> fresh(out))
    ensures r.Ok? ==> out[..] == Results(EffectiveLength(x, incX) * EffectiveLength(x, incX), library)
  {
    r := Syr2(x, y, A, uplo, alpha, lda, incX, incY);
    out := null;
    if r.Ok? {
      out := MatrixOutput(AData, EffectiveLength(x, incX), EffectiveLength(x, incX), library);
    }
  }
}
