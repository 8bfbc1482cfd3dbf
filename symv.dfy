/** blaspy/level_2/symv.py: y := beta * y + alpha * A * x with A symmetric. */
module Symv {
  import opened Containers
  import opened Errors
  import opened Calls
  import opened Helpers
  import opened Kernel

  const HANDLER: Handler := InlineMessage(["A", "x", "y"])

  /** The y symv uses: the given one, or a zero vector of m_A elements, a row exactly
      when x has one row, with x's dtype and kind. */
  function ResolvedY(A: Arg, x: Arg, y: Option<Arg>): Arg
    requires A.IsTwoD() && x.IsTwoD()
  {
    if y.Some? then y.value else CreateSimilarZeroVector(x, A.Rows())
  }

  /** symv(A, x, y=None, uplo='u', alpha=1, beta=1, lda=None, inc_x=1, inc_y=1). */
  function Symv(A: Arg, x: Arg, y: Option<Arg> := None, uplo: string := "u", alpha: real := 1.0,
                beta: real := 1.0, lda: Option<int> := None, incX: int := 1, incY: int := 1): (r: Result<Call>)
    ensures r.Ok? <==> (A.IsSquare() && x.IsVector() && (y.Some? || (incX == 1 && incY == 1))
      && ResolvedY(A, x, y).IsVector()
      && EffectiveLength(x, incX) == A.Rows() && EffectiveLength(ResolvedY(A, x, y), incY) == A.Rows()
      && uplo in UPLO_FLAGS
      && A.dt == x.dt == ResolvedY(A, x, y).dt && Supported(A.dt))
    ensures r.Ok? ==> r.value == Call(KernelName("symv", A.dt),
      [IntArg(ROW_MAJOR), IntArg(if uplo in ["u", "U"] then UPPER else LOWER), IntArg(A.Rows()), CoefArg(alpha),
       BufArg("A"), IntArg(lda.GetOr(A.Cols())), BufArg("x"), IntArg(incX), CoefArg(beta), BufArg("y"), IntArg(incY)],
      ["y"], ReturnsContainer("y", if y.Some? then Provided else Allocated(ResolvedY(A, x, y))))
    ensures A.IsTwoD() && x.IsTwoD() && y.None? && (incX != 1 || incY != 1) ==> r == Fail(YRequiredForStrides)
    // the flag is converted only once every shape check has passed
    ensures (A.IsSquare() && x.IsVector() && (y.Some? || (incX == 1 && incY == 1))
             && ResolvedY(A, x, y).IsVector()
             && EffectiveLength(x, incX) == A.Rows() && EffectiveLength(ResolvedY(A, x, y), incY) == A.Rows()
             && uplo !in UPLO_FLAGS)
            ==> r == Fail(InvalidParameter("uplo", UPLO_FLAGS, uplo))
    ensures (A.IsTwoD() && x.IsVector() && (y.Some? || (incX == 1 && incY == 1))
             && ResolvedY(A, x, y).IsVector() && !A.IsSquare())
            ==> r == Fail(NotSquare("A", A.Rows(), A.Cols()))
    ensures r.Fail? ==> ExceptionClass(r.error) == ValueError
  {
    var sA :- GetMatrixDimensions(A, HANDLER);
    var sx :- GetMatrixDimensions(x, HANDLER);
    if y.None? && (incX != 1 || incY != 1) then Fail(YRequiredForStrides)
    else
      var yv := ResolvedY(A, x, y);
      var sy :- GetMatrixDimensions(yv, HANDLER);
      var xLength := FindLength(sx.0, sx.1, incX);
      var yLength := FindLength(sy.0, sy.1, incY);
      var ld := lda.GetOr(sA.1);
      var _ :- CheckIsVector("x", sx.0, sx.1);
      var _ :- CheckIsVector("y", sy.0, sy.1);
      var _ :- CheckIsSquare("A", sA.0, sA.1);
      var _ :- CheckEqualSizes("A", sA.0, "x", xLength);
      var _ :- CheckEqualSizes("A", sA.0, "y", yLength);
      var code :- ConvertUplo(uplo);
      var args := [IntArg(ROW_MAJOR), IntArg(code), IntArg(sA.0), CoefArg(alpha), BufArg("A"), IntArg(ld),
                   BufArg("x"), IntArg(incX), CoefArg(beta), BufArg("y"), IntArg(incY)];
      var result := ReturnsContainer("y", if y.Some? then Provided else Allocated(yv));
      if A.dt == F64 && x.dt == F64 && yv.dt == F64 then Ok(Call("cblas_dsymv", args, ["y"], result))
      else if A.dt == F32 && x.dt == F32 && yv.dt == F32 then Ok(Call("cblas_ssymv", args, ["y"], result))
      else Fail(DtypeNotSupported(["A", "x", "y"]))
  }

  /** The allocated y: m_A elements, a row exactly when x has one row (so a 1 x 1 x gives
      a row), a numpy matrix exactly when x is one, and it always conforms to a non-empty A. */
  lemma SymvDefaultY(A: Arg, x: Arg)
    requires A.IsSquare() && A.Rows() >= 1 && x.IsVector()
    ensures var z := ResolvedY(A, x, None);
      z.IsVector() && z.kind == x.kind && z.dt == x.dt
      && (z.Rows() == 1 <==> x.Rows() == 1 || A.Rows() == 1)
      && EffectiveLength(z, 1) == A.Rows()
  {
  }

  // ---------------------------------------------------------------------------------
  // The kernel call on the containers' data

  /** symv on y's data. A given y (yData its data) is overwritten and returned; an omitted
      y is allocated as m_A zeros and returned. The kernel visits m_A elements, which is
      y's effective length; they take the library's results and nothing else changes.
      null stands for the raised error. */
  method SymvInPlace(A: Arg, x: Arg, yData: array?<real>, library: nat -> real, y: Option<Arg> := None,
                     uplo: string := "u", alpha: real := 1.0, beta: real := 1.0, lda: Option<int> := None,
                     incX: int := 1, incY: int := 1)
    returns (r: Result<Call>, out: array?<real>)
    requires y.Some? <==> yData != null
    requires y.Some? ==> Holds(yData, y.value) && NonEmpty(y.value)
    requires incY >= 1
    modifies yData
    ensures r == Symv(A, x, y, uplo, alpha, beta, lda, incX, incY)
    ensures r.Fail? ==> out == null && (yData != null ==> yData[..] == old(yData[..]))
    ensures r.Ok? ==> out != null && (y.Some? ==> out == yData) && (y.None? ==> fresh(out) && out.Length == A.Rows())
    ensures r.Ok? ==> StridedUpdate(out[..], if y.Some? then old(yData[..]) else Zeros(out.Length), incY,
                                    Results(A.Rows(), library))
  {
    r := Symv(A, x, y, uplo, alpha, beta, lda, incX, incY);
    out := null;
    if r.Ok? {
      var z := ResolvedY(A, x, y);
      if y.Some? {
        out := yData;
      } else {
        EffectiveLengthPositive(x, incX);
        out := Allocate(z.Rows() * z.Cols());
      }
      VectorFits(z, out, incY);
      StridedWrite(out, incY, Results(A.Rows(), library));
    }
  }
}
