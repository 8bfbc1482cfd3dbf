/** blaspy/level_2/ger.py: the rank-1 update A := A + alpha * x * y. */
module Ger {
  import opened Containers
  import opened Errors
  import opened Calls
  import opened Helpers
  import opened Kernel

  const HANDLER: Handler := InlineMessage(["A", "x", "y"])

  /** The matrix an omitted A becomes: zero, x_length x y_length, with x's dtype, and a
      numpy matrix exactly when x is one. */
  function DefaultA(x: Arg, y: Arg, incX: int, incY: int): (z: Arg)
    requires x.IsTwoD() && y.IsTwoD()
    ensures z.IsTwoD() && z.Rows() == EffectiveLength(x, incX) && z.Cols() == EffectiveLength(y, incY)
    ensures z.dt == x.dt && z.kind == x.kind
  {
    CreateZeroMatrix(EffectiveLength(x, incX), EffectiveLength(y, incY), x.dt, x.kind)
  }

  function ResolvedA(x: Arg, y: Arg, A: Option<Arg>, incX: int, incY: int): Arg
    requires x.IsTwoD() && y.IsTwoD()
  {
    if A.Some? then A.value else DefaultA(x, y, incX, incY)
  }

  /** lda: y_length when A is created (whatever was passed), otherwise n_A unless given. */
  function ResolvedLda(x: Arg, y: Arg, A: Option<Arg>, lda: Option<int>, incX: int, incY: int): int
    requires x.IsTwoD() && y.IsTwoD() && ResolvedA(x, y, A, incX, incY).IsTwoD()
  {
    if A.None? then EffectiveLength(y, incY) else lda.GetOr(A.value.Cols())
  }

  /** ger(x, y, alpha=1, A=None, lda=None, inc_x=1, inc_y=1). */
  function Ger(x: Arg, y: Arg, alpha: real := 1.0, A: Option<Arg> := None, lda: Option<int> := None,
               incX: int := 1, incY: int := 1): (r: Result<Call>)
    ensures r.Ok? <==> (x.IsVector() && y.IsVector() && ResolvedA(x, y, A, incX, incY).IsTwoD()
      && ResolvedA(x, y, A, incX, incY).Rows() == EffectiveLength(x, incX)
      && ResolvedA(x, y, A, incX, incY).Cols() == EffectiveLength(y, incY)
      && ResolvedA(x, y, A, incX, incY).dt == x.dt == y.dt && Supported(x.dt))
    ensures r.Ok? ==> r.value == Call(KernelName("ger", x.dt),
      [IntArg(ROW_MAJOR), IntArg(EffectiveLength(x, incX)), IntArg(EffectiveLength(y, incY)), CoefArg(alpha),
       BufArg("x"), IntArg(incX), BufArg("y"), IntArg(incY), BufArg("A"), IntArg(ResolvedLda(x, y, A, lda, incX, incY))],
      ["A"], ReturnsContainer("A", if A.Some? then Provided else Allocated(DefaultA(x, y, incX, incY))))
    // the size checks precede the vector checks
    ensures (x.IsTwoD() && y.IsTwoD() && ResolvedA(x, y, A, incX, incY).IsTwoD()
             && ResolvedA(x, y, A, incX, incY).Rows() != EffectiveLength(x, incX))
            ==> r == Fail(MismatchBetween("A", "x"))
    ensures (x.IsTwoD() && y.IsTwoD() && ResolvedA(x, y, A, incX, incY).IsTwoD()
             && ResolvedA(x, y, A, incX, incY).Rows() == EffectiveLength(x, incX)
             && ResolvedA(x, y, A, incX, incY).Cols() != EffectiveLength(y, incY))
            ==> r == Fail(MismatchBetween("A", "y"))
    ensures r.Fail? ==> ExceptionClass(r.error) == ValueError
  {
    var sx :- GetMatrixDimensions(x, HANDLER);
    var sy :- GetMatrixDimensions(y, HANDLER);
    var xLength := FindLength(sx.0, sx.1, incX);
    var yLength := FindLength(sy.0, sy.1, incY);
    var a := ResolvedA(x, y, A, incX, incY);
    var sA :- GetMatrixDimensions(a, HANDLER);
    var ld := if A.None? then yLength else lda.GetOr(sA.1);
    var args := [IntArg(ROW_MAJOR), IntArg(sA.0), IntArg(sA.1), CoefArg(alpha),
                 BufArg("x"), IntArg(incX), BufArg("y"), IntArg(incY), BufArg("A"), IntArg(ld)];
    var result := ReturnsContainer("A", if A.Some? then Provided else Allocated(a));
    if xLength != sA.0 then Fail(MismatchBetween("A", "x"))
    else if yLength != sA.1 then Fail(MismatchBetween("A", "y"))
    else if !(sx.0 == 1 || sx.1 == 1) then Fail(MustBeVector("x"))
    else if !(sy.0 == 1 || sy.1 == 1) then Fail(MustBeVector("y"))
    else if a.dt == F64 && x.dt == F64 && y.dt == F64 then Ok(Call("cblas_dger", args, ["A"], result))
    else if a.dt == F32 && x.dt == F32 && y.dt == F32 then Ok(Call("cblas_sger", args, ["A"], result))
    else Fail(DtypeNotSupported(["A", "x", "y"]))
  }

  /** An omitted A always conforms, whatever the strides: two vectors of one supported
      dtype are accepted, and the new matrix is returned. */
  lemma GerOmittedAConforms(x: Arg, y: Arg, alpha: real, lda: Option<int>, incX: int, incY: int)
    requires x.IsVector() && y.IsVector() && x.dt == y.dt && Supported(x.dt)
    ensures Ger(x, y, alpha, None, lda, incX, incY).Ok?
    ensures Ger(x, y, alpha, None, lda, incX, incY).value.result
         == ReturnsContainer("A", Allocated(DefaultA(x, y, incX, incY)))
  {
  }

  // ---------------------------------------------------------------------------------
  // The kernel call on the containers' data

  /** ger on A's data. A given A (AData its data) is overwritten and returned; an omitted A
      is allocated as x_length x y_length zeros and returned. null stands for the raised
      error. */
  method GerInPlace(x: Arg, y: Arg, AData: array?<real>, library: nat -> real, alpha: real := 1.0,
                    A: Option<Arg> := None, lda: Option<int> := None, incX: int := 1, incY: int := 1)
    returns (r: Result<Call>, out: array?<real>)
    requires A.Some? <==> AData != null
    requires A.Some? ==> Holds(AData, A.value)
    requires RowMajorFits(A, lda)
    modifies AData
    ensures r == Ger(x, y, alpha, A, lda, incX, incY)
    ensures r.Fail? ==> out == null && (AData != null ==> AData[..] == old(AData[..]))
    ensures r.Ok? ==> out != null && (A.Some? ==> out == AData) && (A.None? ==> fresh(out))
    ensures r.Ok? ==> out[..] == Results(EffectiveLength(x, incX) * EffectiveLength(y, incY), library)
  {
    r := Ger(x, y, alpha, A, lda, incX, incY);
    out := null;
    if r.Ok? {
      out := MatrixOutput(AData, EffectiveLength(x, incX), EffectiveLength(y, incY), library);
    }
  }
}
