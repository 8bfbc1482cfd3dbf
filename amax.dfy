/** blaspy/level_1/amax.py: the index of the element of largest magnitude. */
module Amax {
  import opened Containers
  import opened Errors
  import opened Calls
  import opened Helpers

  /** The except clause of amax: an AttributeError becomes an inline ValueError. */
  const HANDLER: Handler := InlineMessage(["x", "y"])

  /** amax(x, inc_x=1): shape, effective length, vector check, then i?amax dispatch. */
  function Amax(x: Arg, incX: int := 1): (r: Result<Call>)
    ensures r.Ok? <==> x.IsVector() && Supported(x.dt)
    ensures r.Ok? ==> r.value.kernel == (if x.dt == F64 then "cblas_idamax" else "cblas_isamax")
    ensures r.Ok? ==> r.value.args == [IntArg(EffectiveLength(x, incX)), BufArg("x"), IntArg(incX)]
    ensures r.Ok? ==> r.value.writes == [] && r.value.result == ReturnsIndex
    // the vector check precedes the dtype check
    ensures x.IsTwoD() && !x.IsVector() ==> r == Fail(MustBeVector("x"))
    ensures x.IsVector() && !Supported(x.dt) ==> r == Fail(DtypeNotSupported(["x"]))
    // non-arrays and arrays of another dimension fail with ValueError
    ensures !x.IsTwoD() ==> r.Fail? && ShapeFailure(x, HANDLER, r.error)
    ensures r.Fail? ==> ExceptionClass(r.error) == ValueError
  {
    var s :- GetMatrixDimensions(x, HANDLER);
    var xLength := FindLength(s.0, s.1, incX);
    if !(s.0 == 1 || s.1 == 1) then Fail(MustBeVector("x"))
    else if x.dt == F64 then Ok(Call("cblas_idamax", [IntArg(xLength), BufArg("x"), IntArg(incX)], [], ReturnsIndex))
    else if x.dt == F32 then Ok(Call("cblas_isamax", [IntArg(xLength), BufArg("x"), IntArg(incX)], [], ReturnsIndex))
    else Fail(DtypeNotSupported(["x"]))
  }

  /** A row vector and a column vector of the same length resolve to the same call. */
  lemma AmaxOrientationIndependent(n: nat, dt: DType, kx: Kind, ky: Kind, incX: int)
    ensures Amax(Matrix(1, n, dt, kx), incX) == Amax(Matrix(n, 1, dt, ky), incX)
  {
    FindLengthSymmetric(1, n, incX);
  }
}
