/** blaspy/level_1/scal.py: x := alpha * x, returning x. */
module Scal {
  import opened Containers
  import opened Errors
  import opened Calls
  import opened Helpers
  import opened Kernel

  /** The except clause of scal calls raise_generic_type_error. */
  const HANDLER: Handler := GenericType

  /** scal(alpha, x, inc_x=1): vector resolution and dispatch; the kernel scales x in place
      and the given x is returned. */
  function Scal(alpha: real, x: Arg, incX: int := 1): (r: Result<Call>)
    ensures r.Ok? <==> x.IsVector() && Supported(x.dt)
    ensures r.Ok? ==> r.value == Call(KernelName("scal", x.dt),
      [IntArg(EffectiveLength(x, incX)), CoefArg(alpha), BufArg("x"), IntArg(incX)],
      ["x"], ReturnsContainer("x", Provided))
    ensures !x.IsVector() ==> r.Fail? && r.error == GetVectorDimensions("x", x, incX, HANDLER).error
    ensures x.IsVector() && !Supported(x.dt) ==> r == Fail(InvalidDtypes(ALLOWED_DTYPES))
  {
    var dx :- GetVectorDimensions("x", x, incX, HANDLER);
    var k :- GetCblasInfo("scal", [x.dt]);
    Ok(Call(k.name, [IntArg(dx.length), CoefArg(alpha), BufArg("x"), IntArg(incX)],
            ["x"], ReturnsContainer("x", Provided)))
  }

  // ---------------------------------------------------------------------------------
  // The kernel call on the container's data

  /** scal on x's data: x's visited elements take the library's results, nothing else
      changes, and the object returned is x itself (null stands for the raised error). */
  method ScalInPlace(alpha: real, x: Arg, xData: array<real>, library: nat -> real, incX: int := 1)
    returns (r: Result<Call>, out: array?<real>)
    requires Holds(xData, x) && NonEmpty(x) && incX >= 1
    modifies xData
    ensures r == Scal(alpha, x, incX)
    ensures r.Fail? ==> out == null && xData[..] == old(xData[..])
    ensures r.Ok? ==> out == xData
    ensures r.Ok? ==> StridedUpdate(xData[..], old(xData[..]), incX, Results(EffectiveLength(x, incX), library))
  {
    r := Scal(alpha, x, incX);
    out := null;
    if r.Ok? {
      VectorFits(x, xData, incX);
      StridedWrite(xData, incX, Results(EffectiveLength(x, incX), library));
      out := xData;
    }
  }
}
