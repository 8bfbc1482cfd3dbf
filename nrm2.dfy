/** blaspy/level_1/nrm2.py: the Euclidean norm of a vector. */
module Nrm2 {
  import opened Containers
  import opened Errors
  import opened Calls
  import opened Helpers

  const HANDLER: Handler := UnnamedNot2d

  /** nrm2(x, inc_x=1): vector resolution and dispatch; the kernel's scalar is returned and
      x is not written. */
  function Nrm2(x: Arg, incX: int := 1): (r: Result<Call>)
    ensures r.Ok? <==> x.IsVector() && Supported(x.dt)
    ensures r.Ok? ==> r.value == Call(KernelName("nrm2", x.dt),
      [IntArg(EffectiveLength(x, incX)), BufArg("x"), IntArg(incX)], [], ReturnsScalar(PrecisionOf(x.dt)))
    ensures !x.IsVector() ==> r.Fail? && r.error == GetVectorDimensions("x", x, incX, HANDLER).error
    ensures x.IsVector() && !Supported(x.dt) ==> r == Fail(InvalidDtypes(ALLOWED_DTYPES))
  {
    var dx :- GetVectorDimensions("x", x, incX, HANDLER);
    var k :- GetCblasInfo("nrm2", [x.dt]);
    Ok(Call(k.name, [IntArg(dx.length), BufArg("x"), IntArg(incX)], [], ReturnsScalar(k.precision)))
  }
}
