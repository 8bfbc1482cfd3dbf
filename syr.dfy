/** blaspy/level_2/syr.py: the symmetric rank-1 update A := A + alpha * x * x^T. */
module Syr {
  import opened Containers
  import opened Errors
  import opened Calls
  import opened Helpers
  import opened Kernel

  const HANDLER: Handler := UnnamedNot2d

  /** The A syr uses: the given one, or a zero x_length x x_length matrix with x's dtype
      and kind. */
  function ResolvedA(x: Arg, A: Option<Arg>, incX: int): Arg
    requires x.IsTwoD()
  {
    if A.Some? then A.value else CreateZeroMatrix(EffectiveLength(x, incX), EffectiveLength(x, incX), x.dt, x.kind)
  }

  /** syr(x, A=None, uplo='u', alpha=1, lda=None, inc_x=1). When A is created, a given lda
      is discarded and lda becomes dim_A. */
  function Syr(x: Arg, A: Option<Arg> := None, uplo: string := "u", alpha: real := 1.0,
               lda: Option<int> := None, incX: int := 1): (r: Result<Call>)
    ensures r.Ok? <==> (x.IsVector() && ResolvedA(x, A, incX).IsSquare()
      && ResolvedA(x, A, incX).Rows() == EffectiveLength(x, incX)
      && uplo in UPLO_FLAGS
      && ResolvedA(x, A, incX).dt == x.dt && Supported(x.dt))
    ensures r.Ok? ==> r.value == Call(KernelName("syr", x.dt),
      [IntArg(ROW_MAJOR), IntArg(if uplo in ["u", "U"] then UPPER else LOWER), IntArg(EffectiveLength(x, incX)),
       CoefArg(alpha), BufArg("x"), IntArg(incX), BufArg("A"),
       IntArg(if A.Some? then lda.GetOr(EffectiveLength(x, incX)) else EffectiveLength(x, incX))],
      ["A"], ReturnsContainer("A", if A.Some? then Provided else Allocated(ResolvedA(x, A, incX))))
    ensures !x.IsVector() ==> r.Fail? && r.error == GetVectorDimensions("x", x, incX, HANDLER).error
    ensures x.IsVector() && ResolvedA(x, A, incX).IsTwoD() && !ResolvedA(x, A, incX).IsSquare() ==>
      r == Fail(NotSquare("A", ResolvedA(x, A, incX).Rows(), ResolvedA(x, A, incX).Cols()))
    ensures (x.IsVector() && ResolvedA(x, A, incX).IsSquare()
             && ResolvedA(x, A, incX).Rows() != EffectiveLength(x, incX))
            ==> r == Fail(SizeMismatch("A", ResolvedA(x, A, incX).Rows(), "x", EffectiveLength(x, incX)))
    // the flag is converted after the checks, the dtypes last
    ensures (x.IsVector() && ResolvedA(x, A, incX).IsSquare()
             && ResolvedA(x, A, incX).Rows() == EffectiveLength(x, incX) && uplo !in UPLO_FLAGS)
            ==> r == Fail(InvalidParameter("uplo", UPLO_FLAGS, uplo))
    ensures (x.IsVector() && ResolvedA(x, A, incX).IsSquare()
             && ResolvedA(x, A, incX).Rows() == EffectiveLength(x, incX) && uplo in UPLO_FLAGS
             && !(ResolvedA(x, A, incX).dt == x.dt && Supported(x.dt)))
            ==> r == Fail(InvalidDtypes(ALLOWED_DTYPES))
  {
    var dx :- GetVectorDimensions("x", x, incX, HANDLER);
    var a := ResolvedA(x, A, incX);
    var given := if A.Some? then lda else None;
    var dimA :- GetSquareMatrixDimension("A", a, HANDLER);
    var ld := given.GetOr(dimA);
    var _ :- CheckEqualSizes("A", dimA, "x", dx.length);
    var code :- ConvertUplo(uplo);
    var k :- GetCblasInfo("syr", [a.dt, x.dt]);
    Ok(Call(k.name, [IntArg(ROW_MAJOR), IntArg(code), IntArg(dimA), CoefArg(alpha), BufArg("x"), IntArg(incX),
                     BufArg("A"), IntArg(ld)],
            ["A"], ReturnsContainer("A", if A.Some? then Provided else Allocated(a))))
  }

  /** With A omitted, any vector of a supported dtype and any valid flag is accepted, and
      the kernel gets the new x_length x x_length matrix with lda = x_length. */
  lemma SyrOmittedA(x: Arg, uplo: string, alpha: real, lda: Option<int>, incX: int)
    requires x.IsVector() && Supported(x.dt) && uplo in UPLO_FLAGS
    ensures Syr(x, None, uplo, alpha, lda, incX).Ok?
    ensures Syr(x, None, uplo, alpha, lda, incX).value.args[7] == IntArg(EffectiveLength(x, incX))
    ensures Syr(x, None, uplo, alpha, lda, incX).value.result ==
      ReturnsContainer("A", Allocated(Matrix(EffectiveLength(x, incX), EffectiveLength(x, incX), x.dt, x.kind)))
  {
  }

  // ---------------------------------------------------------------------------------
  // The kernel call on the containers' data

  /** syr on A's data. A given A (AData its data) is overwritten and returned; an omitted A
      is allocated as x_length x x_length zeros and returned. null stands for the raised
      error. */
  method SyrInPlace(x: Arg, AData: array?<real>, library: nat -> real, A: Option<Arg> := None,
                    uplo: string := "u", alpha: real := 1.0, lda: Option<int> := None, incX: int := 1)
    returns (r: Result<Call>, out: array?<real>)
    requires A.Some? <==> AData != null
    requires A.Some? ==> Holds(AData, A.value)
    requires RowMajorFits(A, lda)
    modifies AData
    ensures r == Syr(x, A, uplo, alpha, lda, incX)
    ensures r.Fail? ==> out == null && (AData != null ==> AData[..] == old(AData[..]))
    ensures r.Ok? ==> out != null && (A.Some? ==> out == AData) && (A.None? ==> fresh(out))
    ensures r.Ok? ==> out[..] == Results(EffectiveLength(x, incX) * EffectiveLength(x, incX), library)
  {
    r := Syr(x, A, uplo, alpha, lda, incX);
    out := null;
    if r.Ok? {
      out := MatrixOutput(AData, EffectiveLength(x, incX), EffectiveLength(x, incX), library);
    }
  }
}
