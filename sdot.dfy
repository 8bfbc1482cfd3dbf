/** blaspy/level_1/sdot.py: an inner product accumulated in extended precision. */
module Sdot {
  import opened Containers
  import opened Errors
  import opened Calls
  import opened Helpers

  const HANDLER: Handler := GenericType

  const OUTPUT_FLAGS: seq<string> := ["float32", "float64"]

  /** sdot(x, y, inc_x=1, inc_y=1, output='float64'): float32 inputs only; `output`
      selects cblas_dsdot (double result) or cblas_sdsdot (float result, added scalar 0). */
  function Sdot(x: Arg, y: Arg, incX: int := 1, incY: int := 1, output: string := "float64"): (r: Result<Call>)
    ensures r.Ok? <==> (x.IsVector() && y.IsVector()
      && EffectiveLength(x, incX) == EffectiveLength(y, incY)
      && x.dt == F32 && y.dt == F32 && output in OUTPUT_FLAGS)
    ensures r.Ok? && output == "float64" ==> r.value == Call("cblas_dsdot",
      [IntArg(EffectiveLength(x, incX)), BufArg("x"), IntArg(incX), BufArg("y"), IntArg(incY)],
      [], ReturnsScalar(Double))
    ensures r.Ok? && output == "float32" ==> r.value == Call("cblas_sdsdot",
      [IntArg(EffectiveLength(x, incX)), CoefArg(0.0), BufArg("x"), IntArg(incX), BufArg("y"), IntArg(incY)],
      [], ReturnsScalar(Single))
    // lengths, then dtypes, then the output flag
    ensures x.IsVector() && y.IsVector() && EffectiveLength(x, incX) != EffectiveLength(y, incY) ==>
      r == Fail(SizeMismatch("x", EffectiveLength(x, incX), "y", EffectiveLength(y, incY)))
    ensures (x.IsVector() && y.IsVector() && EffectiveLength(x, incX) == EffectiveLength(y, incY) &&
      !(x.dt == F32 && y.dt == F32)) ==> r == Fail(InvalidDtypes(["float32"]))
    ensures (x.IsVector() && y.IsVector() && EffectiveLength(x, incX) == EffectiveLength(y, incY) &&
      x.dt == F32 && y.dt == F32 && output !in OUTPUT_FLAGS) ==>
      r == Fail(InvalidParameter("output", OUTPUT_FLAGS, output))
  {
    var dx :- GetVectorDimensions("x", x, incX, HANDLER);
    var dy :- GetVectorDimensions("y", y, incY, HANDLER);
    var _ :- CheckEqualSizes("x", dx.length, "y", dy.length);
    if !(x.dt == F32 && y.dt == F32) then RaiseInvalidDtypes(["float32"])
    else if output == "float64" then
      Ok(Call("cblas_dsdot", [IntArg(dx.length), BufArg("x"), IntArg(incX), BufArg("y"), IntArg(incY)],
              [], ReturnsScalar(Double)))
    else if output == "float32" then
      Ok(Call("cblas_sdsdot", [IntArg(dx.length), CoefArg(0.0), BufArg("x"), IntArg(incX), BufArg("y"), IntArg(incY)],
              [], ReturnsScalar(Single)))
    else RaiseInvalidParameter("output", OUTPUT_FLAGS, output)
  }

  /** float64 data is never accepted, whichever output precision is asked for. */
  lemma SdotRejectsDouble(x: Arg, y: Arg, incX: int, incY: int, output: string)
    requires x.Arr? && (x.dt == F64 || (y.Arr? && y.dt == F64))
    ensures Sdot(x, y, incX, incY, output).Fail?
  {
  }
}
