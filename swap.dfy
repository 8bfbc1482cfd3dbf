/** blaspy/level_1/swap.py: exchange the contents of x and y. */
module Swap {
  import opened Containers
  import opened Errors
  import opened Calls
  import opened Helpers
  import opened Kernel

  const HANDLER: Handler := UnnamedNot2d

  /** swap(x, y, inc_x=1, inc_y=1): equal effective lengths and one supported dtype for
      both; the kernel writes both buffers and nothing is returned. */
  function Swap(x: Arg, y: Arg, incX: int := 1, incY: int := 1): (r: Result<Call>)
    ensures r.Ok? <==> (x.IsVector() && y.IsVector()
      && EffectiveLength(x, incX) == EffectiveLength(y, incY) && x.dt == y.dt && Supported(x.dt))
    ensures r.Ok? ==> r.value == Call(KernelName("swap", x.dt),
      [IntArg(EffectiveLength(x, incX)), BufArg("x"), IntArg(incX), BufArg("y"), IntArg(incY)],
      ["x", "y"], ReturnsNothing)
    ensures !x.IsVector() ==> r.Fail? && r.error == GetVectorDimensions("x", x, incX, HANDLER).error
    ensures x.IsVector() && !y.IsVector() ==> r.Fail? && r.error == GetVectorDimensions("y", y, incY, HANDLER).error
    ensures x.IsVector() && y.IsVector() && EffectiveLength(x, incX) != EffectiveLength(y, incY) ==>
      r == Fail(SizeMismatch("x", EffectiveLength(x, incX), "y", EffectiveLength(y, incY)))
    ensures (x.IsVector() && y.IsVector() && EffectiveLength(x, incX) == EffectiveLength(y, incY) &&
      !(x.dt == y.dt && Supported(x.dt))) ==> r == Fail(InvalidDtypes(ALLOWED_DTYPES))
  {
    var dx :- GetVectorDimensions("x", x, incX, HANDLER);
    var dy :- GetVectorDimensions("y", y, incY, HANDLER);
    var _ :- CheckEqualSizes("x", dx.length, "y", dy.length);
    var k :- GetCblasInfo("swap", [x.dt, y.dt]);
    Ok(Call(k.name, [IntArg(dx.length), BufArg("x"), IntArg(incX), BufArg("y"), IntArg(incY)],
            ["x", "y"], ReturnsNothing))
  }

  // ---------------------------------------------------------------------------------
  // The kernel call on the containers' data

  /** swap on the containers' data: the visited elements of x and y are exchanged one for
      one and nothing else changes. */
  method SwapInPlace(x: Arg, xData: array<real>, y: Arg, yData: array<real>, incX: int := 1, incY: int := 1)
    returns (r: Result<Call>)
    requires Holds(xData, x) && NonEmpty(x) && Holds(yData, y) && NonEmpty(y) && xData != yData
    requires incX >= 1 && incY >= 1
    modifies xData, yData
    ensures r == Swap(x, y, incX, incY)
    ensures r.Fail? ==> xData[..] == old(xData[..]) && yData[..] == old(yData[..])
    ensures r.Ok? ==> StrideFits(EffectiveLength(x, incX), incX, xData.Length)
    ensures r.Ok? ==> StrideFits(EffectiveLength(x, incX), incY, yData.Length)
    ensures r.Ok? ==> StridedUpdate(xData[..], old(xData[..]), incX, Gather(old(yData[..]), EffectiveLength(x, incX), incY))
    ensures r.Ok? ==> StridedUpdate(yData[..], old(yData[..]), incY, Gather(old(xData[..]), EffectiveLength(x, incX), incX))
  {
    r := Swap(x, y, incX, incY);
    if r.Ok? {
      VectorFits(x, xData, incX);
      VectorFits(y, yData, incY);
      StridedSwap(xData, incX, yData, incY, EffectiveLength(x, incX));
    }
  }
}
