/** blaspy/level_1/asum.py: the 1-norm of a vector. */
module Asum {
  import opened Containers
  import opened Errors
  import opened Calls
  import opened Helpers

  const HANDLER: Handler := InlineMessage(["x", "y"])

  /** asum(x, inc_x=1): shape, effective length, vector check, then ?asum dispatch; the
      kernel's floating result is returned in the kernel's precision. */
  function Asum(x: Arg, incX: int := 1): (r: Result<Call>)
    ensures r.Ok? <==> x.IsVector() && Supported(x.dt)
    ensures r.Ok? ==> r.value.kernel == (if x.dt == F64 then "cblas_dasum" else "cblas_sasum")
    ensures r.Ok? ==> r.value.args == [IntArg(EffectiveLength(x, incX)), BufArg("x"), IntArg(incX)]
    ensures r.Ok? ==> r.value.writes == []
    ensures r.Ok? ==> r.value.result == ReturnsScalar(if x.dt == F64 then Double else Single)
    ensures x.IsTwoD() && !x.IsVector() ==> r == Fail(MustBeVector("x"))
    ensures x.IsVector() && !Supported(x.dt) ==> r == Fail(DtypeNotSupported(["x"]))
    ensures !x.IsTwoD() ==> r.Fail? && ShapeFailure(x, HANDLER, r.error)
    ensures r.Fail? ==> ExceptionClass(r.error) == ValueError
  {
    var s :- GetMatrixDimensions(x, HANDLER);
    var xLength := FindLength(s.0, s.1, incX);
    if !(s.0 == 1 || s.1 == 1) then Fail(MustBeVector("x"))
    else if x.dt == F64 then Ok(Call("cblas_dasum", [IntArg(xLength), BufArg("x"), IntArg(incX)], [], ReturnsScalar(Double)))
    else if x.dt == F32 then Ok(Call("cblas_sasum", [IntArg(xLength), BufArg("x"), IntArg(incX)], [], ReturnsScalar(Single)))
    else Fail(DtypeNotSupported(["x"]))
  }
}
