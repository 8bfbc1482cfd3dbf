/** blaspy/level_1/copy.py: copy the contents of x into y. */
module Copy {
  import opened Containers
  import opened Errors
  import opened Calls
  import opened Helpers
  import opened Kernel

  const HANDLER: Handler := InlineMessage(["x", "y"])

  /** copy(x, y, inc_x=1, inc_y=1): both shapes, x vector, y vector, equal effective
      lengths, then a dtype pair that is float64/float64 or float32/float32. */
  function Copy(x: Arg, y: Arg, incX: int := 1, incY: int := 1): (r: Result<Call>)
    ensures r.Ok? <==> (x.IsVector() && y.IsVector()
      && EffectiveLength(x, incX) == EffectiveLength(y, incY) && x.dt == y.dt && Supported(x.dt))
    ensures r.Ok? ==> r.value == Call(KernelName("copy", x.dt),
      [IntArg(EffectiveLength(x, incX)), BufArg("x"), IntArg(incX), BufArg("y"), IntArg(incY)],
      ["y"], ReturnsNothing)
    // both shapes are read first, then the checks run in the order x, y, lengths, dtypes
    ensures !x.IsTwoD() ==> r.Fail? && ShapeFailure(x, HANDLER, r.error)
    ensures x.IsTwoD() && !y.IsTwoD() ==> r.Fail? && ShapeFailure(y, HANDLER, r.error)
    ensures x.IsTwoD() && y.IsTwoD() && !x.IsVector() ==> r == Fail(MustBeVector("x"))
    ensures x.IsVector() && y.IsTwoD() && !y.IsVector() ==> r == Fail(MustBeVector("y"))
    ensures x.IsVector() && y.IsVector() && EffectiveLength(x, incX) != EffectiveLength(y, incY) ==>
      r == Fail(MismatchBetween("x", "y"))
    ensures (x.IsVector() && y.IsVector() && EffectiveLength(x, incX) == EffectiveLength(y, incY) &&
      !(x.dt == y.dt && Supported(x.dt))) ==> r == Fail(DtypeNotSupported(["x", "y"]))
    ensures r.Fail? ==> ExceptionClass(r.error) == ValueError
  {
    var sx :- GetMatrixDimensions(x, HANDLER);
    var sy :- GetMatrixDimensions(y, HANDLER);
    var xLength := FindLength(sx.0, sx.1, incX);
    var yLength := FindLength(sy.0, sy.1, incY);
    var args := [IntArg(xLength), BufArg("x"), IntArg(incX), BufArg("y"), IntArg(incY)];
    if !(sx.0 == 1 || sx.1 == 1) then Fail(MustBeVector("x"))
    else if !(sy.0 == 1 || sy.1 == 1) then Fail(MustBeVector("y"))
    else if xLength != yLength then Fail(MismatchBetween("x", "y"))
    else if x.dt == F64 && y.dt == F64 then Ok(Call("cblas_dcopy", args, ["y"], ReturnsNothing))
    else if x.dt == F32 && y.dt == F32 then Ok(Call("cblas_scopy", args, ["y"], ReturnsNothing))
    else Fail(DtypeNotSupported(["x", "y"]))
  }

  // ---------------------------------------------------------------------------------
  // The kernel call on the containers' data

  /** copy on the containers' data: y's visited elements become x's visited elements, one
      for one, and nothing else in y changes; x is only read. */
  method CopyInPlace(x: Arg, xData: array<real>, y: Arg, yData: array<real>, incX: int := 1, incY: int := 1)
    returns (r: Result<Call>)
    requires Holds(xData, x) && NonEmpty(x) && Holds(yData, y) && NonEmpty(y) && xData != yData
    requires incX >= 1 && incY >= 1
    modifies yData
    ensures r == Copy(x, y, incX, incY)
    ensures r.Fail? ==> yData[..] == old(yData[..])
    ensures r.Ok? ==> StrideFits(EffectiveLength(x, incX), incX, xData.Length)
    ensures r.Ok? ==> StridedUpdate(yData[..], old(yData[..]), incY, Gather(xData[..], EffectiveLength(x, incX), incX))
  {
    r := Copy(x, y, incX, incY);
    if r.Ok? {
      VectorFits(x, xData, incX);
      VectorFits(y, yData, incY);
      StridedCopy(xData, incX, yData, incY, EffectiveLength(x, incX));
    }
  }
}
