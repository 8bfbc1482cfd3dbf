/** blaspy/level_1/axpy.py: y := y + alpha * x. */
module Axpy {
  import opened Containers
  import opened Errors
  import opened Calls
  import opened Helpers
  import opened Kernel

  /** The except clause of axpy: raise_not_2d_numpy() with no name. */
  const HANDLER: Handler := UnnamedNot2d

  /** axpy(alpha, x, y, inc_x=1, inc_y=1): both operands resolved as vectors, equal
      effective lengths, then kernel selection from x's dtype. */
  function Axpy(alpha: real, x: Arg, y: Arg, incX: int := 1, incY: int := 1): (r: Result<Call>)
    ensures r.Ok? <==> (x.IsVector() && y.IsVector()
      && EffectiveLength(x, incX) == EffectiveLength(y, incY) && Supported(x.dt))
    ensures r.Ok? ==> r.value == Call(KernelName("axpy", x.dt),
      [IntArg(EffectiveLength(x, incX)), CoefArg(alpha), BufArg("x"), IntArg(incX), BufArg("y"), IntArg(incY)],
      ["y"], ReturnsNothing)
    // x, then y, are resolved as vectors before the lengths are compared
    ensures !x.IsVector() ==> r.Fail? && r.error == GetVectorDimensions("x", x, incX, HANDLER).error
    ensures x.IsVector() && !y.IsVector() ==> r.Fail? && r.error == GetVectorDimensions("y", y, incY, HANDLER).error
    ensures x.IsVector() && y.IsVector() && EffectiveLength(x, incX) != EffectiveLength(y, incY) ==>
      r == Fail(SizeMismatch("x", EffectiveLength(x, incX), "y", EffectiveLength(y, incY)))
  {
    var dx :- GetVectorDimensions("x", x, incX, HANDLER);
    var dy :- GetVectorDimensions("y", y, incY, HANDLER);
    var _ :- CheckEqualSizes("x", dx.length, "y", dy.length);
    var k :- GetCblasInfo("axpy", [x.dt]);
    Ok(Call(k.name, [IntArg(dx.length), CoefArg(alpha), BufArg("x"), IntArg(incX), BufArg("y"), IntArg(incY)],
            ["y"], ReturnsNothing))
  }

  /** Orientations may differ: a row x with a column y of the same length is accepted. */
  lemma AxpyMixedOrientation(alpha: real, n: nat, dt: DType, kx: Kind, ky: Kind, incX: int)
    requires Supported(dt)
    ensures Axpy(alpha, Matrix(1, n, dt, kx), Matrix(n, 1, dt, ky), incX, incX).Ok?
  {
    FindLengthSymmetric(1, n, incX);
  }

  /** axpy as written: the precision comes from x alone, so every conformant pair of a
      float64 x and a y of another dtype is handed to cblas_daxpy, which the intended axpy
      rejects. The 1 x 3 float64 x beside a 1 x 3 float32 y is one such pair. */
  lemma AxpyIgnoresYDtype(alpha: real, x: Arg, y: Arg, incX: int, incY: int)
    requires x.IsVector() && y.IsVector() && EffectiveLength(x, incX) == EffectiveLength(y, incY)
    requires x.dt == F64 && y.dt != F64
    ensures Axpy(alpha, x, y, incX, incY).Ok? && Axpy(alpha, x, y, incX, incY).value.kernel == "cblas_daxpy"
    ensures AxpyIntended(alpha, x, y, incX, incY).Fail?
    ensures Axpy(2.0, Matrix(1, 3, F64, NdArray), Matrix(1, 3, F32, NdArray)) ==
      Ok(Call("cblas_daxpy", [IntArg(3), CoefArg(2.0), BufArg("x"), IntArg(1), BufArg("y"), IntArg(1)],
              ["y"], ReturnsNothing))
  {
    assert KernelName("axpy", F64) == "cblas_daxpy";
  }

  /** axpy with the dtype check covering both operands, as get_cblas_info does for swap. */
  function AxpyIntended(alpha: real, x: Arg, y: Arg, incX: int := 1, incY: int := 1): (r: Result<Call>)
    ensures r.Ok? ==> x.IsVector() && y.IsVector() && x.dt == y.dt && Supported(x.dt)
    ensures r.Ok? <==> Axpy(alpha, x, y, incX, incY).Ok? && x.dt == y.dt
    ensures r.Ok? ==> r == Axpy(alpha, x, y, incX, incY)
  {
    var c :- Axpy(alpha, x, y, incX, incY);
    var _ :- GetCblasInfo("axpy", [x.dt, y.dt]);
    Ok(c)
  }

  // ---------------------------------------------------------------------------------
  // The kernel call on the containers' data

  /** axpy on y's data, with the dtype check of AxpyIntended: on success the kernel
      receives y's effective length as its count,
      y's visited elements take the library's results and nothing else in y changes; on
      failure nothing is written. */
  method AxpyInPlace(alpha: real, x: Arg, y: Arg, yData: array<real>, library: nat -> real,
                     incX: int := 1, incY: int := 1) returns (r: Result<Call>)
    requires Holds(yData, y) && NonEmpty(y) && incY >= 1
    modifies yData
    ensures r == AxpyIntended(alpha, x, y, incX, incY)
    ensures r.Fail? ==> yData[..] == old(yData[..])
    ensures r.Ok? ==> r.value.args[0] == IntArg(EffectiveLength(y, incY))
    ensures r.Ok? ==> StridedUpdate(yData[..], old(yData[..]), incY, Results(EffectiveLength(y, incY), library))
  {
    r := AxpyIntended(alpha, x, y, incX, incY);
    if r.Ok? {
      VectorFits(y, yData, incY);
      StridedWrite(yData, incY, Results(EffectiveLength(y, incY), library));
    }
  }
}
