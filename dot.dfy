/** blaspy/level_1/dot.py: the inner product of two vectors. */
module Dot {
  import opened Containers
  import opened Errors
  import opened Calls
  import opened Helpers

  const HANDLER: Handler := UnnamedNot2d

  /** dot(x, y, inc_x=1, inc_y=1): as axpy, but the kernel's scalar is returned and no
      buffer is written. */
  function Dot(x: Arg, y: Arg, incX: int := 1, incY: int := 1): (r: Result<Call>)
    ensures r.Ok? <==> (x.IsVector() && y.IsVector()
      && EffectiveLength(x, incX) == EffectiveLength(y, incY) && Supported(x.dt))
    ensures r.Ok? ==> r.value == Call(KernelName("dot", x.dt),
      [IntArg(EffectiveLength(x, incX)), BufArg("x"), IntArg(incX), BufArg("y"), IntArg(incY)],
      [], ReturnsScalar(PrecisionOf(x.dt)))
    ensures !x.IsVector() ==> r.Fail? && r.error == GetVectorDimensions("x", x, incX, HANDLER).error
    ensures x.IsVector() && !y.IsVector() ==> r.Fail? && r.error == GetVectorDimensions("y", y, incY, HANDLER).error
    ensures x.IsVector() && y.IsVector() && EffectiveLength(x, incX) != EffectiveLength(y, incY) ==>
      r == Fail(SizeMismatch("x", EffectiveLength(x, incX), "y", EffectiveLength(y, incY)))
  {
    var dx :- GetVectorDimensions("x", x, incX, HANDLER);
    var dy :- GetVectorDimensions("y", y, incY, HANDLER);
    var _ :- CheckEqualSizes("x", dx.length, "y", dy.length);
    var k :- GetCblasInfo("dot", [x.dt]);
    Ok(Call(k.name, [IntArg(dx.length), BufArg("x"), IntArg(incX), BufArg("y"), IntArg(incY)],
            [], ReturnsScalar(k.precision)))
  }

  /** The result does not depend on orientation: any mix of row and column vectors of the
      same lengths resolves to the same call. */
  lemma DotOrientationIndependent(n: nat, dtx: DType, dty: DType, k1: Kind, k2: Kind, incX: int, incY: int)
    ensures Dot(Matrix(1, n, dtx, k1), Matrix(n, 1, dty, k2), incX, incY)
         == Dot(Matrix(n, 1, dtx, k1), Matrix(1, n, dty, k2), incX, incY)
    ensures Dot(Matrix(1, n, dtx, k1), Matrix(1, n, dty, k2), incX, incY)
         == Dot(Matrix(n, 1, dtx, k1), Matrix(n, 1, dty, k2), incX, incY)
  {
    FindLengthSymmetric(1, n, incX);
    FindLengthSymmetric(1, n, incY);
  }

  /** dot as written: every conformant pair of a float64 x and a y of another dtype is
      accepted and handed to cblas_ddot, which the intended dot rejects. The 3 x 1 float64
      x beside a 3 x 1 float32 y is one such pair. */
  lemma DotIgnoresYDtype(x: Arg, y: Arg, incX: int, incY: int)
    requires x.IsVector() && y.IsVector() && EffectiveLength(x, incX) == EffectiveLength(y, incY)
    requires x.dt == F64 && y.dt != F64
    ensures Dot(x, y, incX, incY).Ok? && Dot(x, y, incX, incY).value.kernel == "cblas_ddot"
    ensures DotIntended(x, y, incX, incY).Fail?
    ensures Dot(Matrix(3, 1, F64, NdArray), Matrix(3, 1, F32, NdArray)) ==
      Ok(Call("cblas_ddot", [IntArg(3), BufArg("x"), IntArg(1), BufArg("y"), IntArg(1)], [], ReturnsScalar(Double)))
  {
    assert KernelName("dot", F64) == "cblas_ddot";
  }

  /** dot with the dtype check covering both operands. */
  function DotIntended(x: Arg, y: Arg, incX: int := 1, incY: int := 1): (r: Result<Call>)
    ensures r.Ok? ==> x.IsVector() && y.IsVector() && x.dt == y.dt && Supported(x.dt)
    ensures r.Ok? <==> Dot(x, y, incX, incY).Ok? && x.dt == y.dt
    ensures r.Ok? ==> r == Dot(x, y, incX, incY)
  {
    var c :- Dot(x, y, incX, incY);
    var _ :- GetCblasInfo("dot", [x.dt, y.dt]);
    Ok(c)
  }
}
