/** blaspy/level_2/gemv.py: y := beta * y + alpha * A * x, or with A transposed. */
module Gemv {
  import opened Containers
  import opened Errors
  import opened Calls
  import opened Helpers
  import opened Kernel
  import Bits

  const HANDLER: Handler := InlineMessage(["A", "x", "y"])

  /** The vector an omitted y becomes: a zero vector shaped like x, of length n_A when
      trans_a is exactly 't' and m_A otherwise. */
  function DefaultY(A: Arg, x: Arg, transA: string): (z: Arg)
    requires A.IsTwoD() && x.IsTwoD()
    ensures z.IsVector() && z.dt == x.dt && z.kind == x.kind
    ensures x.Rows() == 1 ==> z.Rows() == 1
    ensures x.Rows() != 1 ==> z.Cols() == 1
    ensures EffectiveLength(z, 1) == Max(1, if transA == "t" then A.Cols() else A.Rows())
  {
    CreateSimilarZeroVector(x, if transA == "t" then A.Cols() else A.Rows())
  }

  /** The y the kernel receives. */
  function ResolvedY(A: Arg, x: Arg, transA: string, y: Option<Arg>): Arg
    requires A.IsTwoD() && x.IsTwoD()
  {
    if y.Some? then y.value else DefaultY(A, x, transA)
  }

  /** The sizes x and y must have: (n_A, m_A) without transpose, (m_A, n_A) with it. */
  predicate Conformant(A: Arg, x: Arg, y: Arg, transposed: bool, incX: int, incY: int)
    requires A.IsTwoD() && x.IsTwoD() && y.IsTwoD()
  {
    if transposed then EffectiveLength(x, incX) == A.Rows() && EffectiveLength(y, incY) == A.Cols()
    else EffectiveLength(x, incX) == A.Cols() && EffectiveLength(y, incY) == A.Rows()
  }

  /** The resolution gets as far as the size checks: A two-dimensional, x a vector, y given
      or both strides one, the resolved y a vector, and the flag accepted. */
  predicate ReachesChecks(A: Arg, x: Arg, transA: string, y: Option<Arg>, incX: int, incY: int)
  {
    A.IsTwoD() && x.IsVector() && (y.Some? || (incX == 1 && incY == 1))
    && ResolvedY(A, x, transA, y).IsVector() && transA in TRANS_FLAGS
  }

  /** Everything gemv demands of its arguments, in the terms of its docstring. */
  predicate Accepts(A: Arg, x: Arg, transA: string, y: Option<Arg>, incX: int, incY: int)
  {
    A.IsTwoD() && x.IsVector() && (y.Some? || (incX == 1 && incY == 1))
    && ResolvedY(A, x, transA, y).IsVector()
    && transA in TRANS_FLAGS
    && Conformant(A, x, ResolvedY(A, x, transA, y), transA in ["t", "T"], incX, incY)
    && A.dt == x.dt == ResolvedY(A, x, transA, y).dt && Supported(A.dt)
  }

  /** gemv(A, x, alpha=1, trans_a='no_trans', y=None, beta=1, lda=None, inc_x=1, inc_y=1). */
  function Gemv(A: Arg, x: Arg, alpha: real := 1.0, transA: string := "no_trans", y: Option<Arg> := None,
                beta: real := 1.0, lda: Option<int> := None, incX: int := 1, incY: int := 1): (r: Result<Call>)
    ensures r.Ok? <==> Accepts(A, x, transA, y, incX, incY)
    ensures r.Ok? ==> r.value == Call(KernelName("gemv", A.dt),
      [IntArg(ROW_MAJOR), IntArg(if transA in ["n", "N"] then NO_TRANS else TRANS),
       IntArg(A.Rows()), IntArg(A.Cols()), CoefArg(alpha), BufArg("A"), IntArg(lda.GetOr(A.Cols())),
       BufArg("x"), IntArg(incX), CoefArg(beta), BufArg("y"), IntArg(incY)],
      ["y"], ReturnsContainer("y", if y.Some? then Provided else Allocated(DefaultY(A, x, transA))))
    // the stride rule is checked before y is allocated
    ensures A.IsTwoD() && x.IsVector() && y.None? && (incX != 1 || incY != 1) ==> r == Fail(YRequiredForStrides)
    // the flag is converted before the conformability checks
    ensures (A.IsTwoD() && x.IsVector() && (y.Some? || (incX == 1 && incY == 1))
             && ResolvedY(A, x, transA, y).IsVector() && transA !in TRANS_FLAGS)
            ==> r == Fail(InvalidParameter("trans", TRANS_FLAGS, transA))
    // x is compared first, with n_A (m_A when transposed), then y with the other dimension
    ensures (ReachesChecks(A, x, transA, y, incX, incY)
             && EffectiveLength(x, incX) != (if transA in ["t", "T"] then A.Rows() else A.Cols()))
            ==> r == Fail(SizeMismatch("A", if transA in ["t", "T"] then A.Rows() else A.Cols(), "x", EffectiveLength(x, incX)))
    ensures (ReachesChecks(A, x, transA, y, incX, incY)
             && EffectiveLength(x, incX) == (if transA in ["t", "T"] then A.Rows() else A.Cols())
             && EffectiveLength(ResolvedY(A, x, transA, y), incY) != (if transA in ["t", "T"] then A.Cols() else A.Rows()))
            ==> r == Fail(SizeMismatch("A", if transA in ["t", "T"] then A.Cols() else A.Rows(),
                                       "y", EffectiveLength(ResolvedY(A, x, transA, y), incY)))
    ensures (ReachesChecks(A, x, transA, y, incX, incY)
             && Conformant(A, x, ResolvedY(A, x, transA, y), transA in ["t", "T"], incX, incY)
             && !(A.dt == x.dt == ResolvedY(A, x, transA, y).dt && Supported(A.dt)))
            ==> r == Fail(InvalidDtypes(ALLOWED_DTYPES))
    ensures r.Fail? ==> ExceptionClass(r.error) == ValueError
  {
    var sA :- GetMatrixDimensions(A, HANDLER);
    var dx :- GetVectorDimensions("x", x, incX, HANDLER);
    if y.None? && (incX != 1 || incY != 1) then Fail(YRequiredForStrides)
    else
      var yv := ResolvedY(A, x, transA, y);
      var dy :- GetVectorDimensions("y", yv, incY, HANDLER);
      var ld := lda.GetOr(sA.1);
      var code :- ConvertTrans(transA);
      var checks := if Bits.And1(code) == 1 then (sA.1, sA.0) else (sA.0, sA.1);
      var _ :- CheckEqualSizes("A", checks.0, "x", dx.length);
      var _ :- CheckEqualSizes("A", checks.1, "y", dy.length);
      var k :- GetCblasInfo("gemv", [A.dt, x.dt, yv.dt]);
      Ok(Call(k.name,
              [IntArg(ROW_MAJOR), IntArg(code), IntArg(sA.0), IntArg(sA.1), CoefArg(alpha), BufArg("A"), IntArg(ld),
               BufArg("x"), IntArg(incX), CoefArg(beta), BufArg("y"), IntArg(incY)],
              ["y"], ReturnsContainer("y", if y.Some? then Provided else Allocated(yv))))
  }

  /** gemv called without trans_a never succeeds: the default 'no_trans' is not a flag
      convert_trans accepts. */
  lemma GemvDefaultTransRejected(A: Arg, x: Arg, alpha: real, y: Option<Arg>, beta: real,
                                 lda: Option<int>, incX: int, incY: int)
    ensures Gemv(A, x, alpha, "no_trans", y, beta, lda, incX, incY).Fail?
    ensures Gemv(A, x).Fail?
  {
  }

  /** gemv with the default flag its docstring describes. */
  function GemvIntended(A: Arg, x: Arg, alpha: real := 1.0, transA: string := "n", y: Option<Arg> := None,
                        beta: real := 1.0, lda: Option<int> := None, incX: int := 1, incY: int := 1): (r: Result<Call>)
    ensures r.Ok? <==> Accepts(A, x, transA, y, incX, incY)
  {
    Gemv(A, x, alpha, transA, y, beta, lda, incX, incY)
  }

  /** With the intended default, a conformant A and x and an omitted y are accepted: the
      allocated y conforms to A on its own, and is returned. */
  lemma GemvIntendedDefaultAccepts(A: Arg, x: Arg)
    requires A.IsTwoD() && A.Rows() >= 1 && x.IsVector()
    requires EffectiveLength(x, 1) == A.Cols()
    requires A.dt == x.dt && Supported(A.dt)
    ensures GemvIntended(A, x).Ok?
    ensures GemvIntended(A, x).value.result == ReturnsContainer("y", Allocated(DefaultY(A, x, "n")))
  {
    assert "n" in TRANS_FLAGS && "n" !in ["t", "T"];
  }

  /** The default y is sized by a case-sensitive comparison: with 'T' the allocated y has
      m_A elements while the transposed check wants n_A, so a conformant call fails. */
  lemma GemvUppercaseTransDefaultY()
    ensures Gemv(Matrix(2, 3, F64, NdArray), Matrix(2, 1, F64, NdArray), 1.0, "T") == Fail(SizeMismatch("A", 3, "y", 2))
    ensures Gemv(Matrix(2, 3, F64, NdArray), Matrix(2, 1, F64, NdArray), 1.0, "t").Ok?
  {
    assert "T" in TRANS_FLAGS && "t" in TRANS_FLAGS;
  }

  // ---------------------------------------------------------------------------------
  // The kernel call on the containers' data

  /** gemv on y's data, with the default flag of GemvIntended. A given y (yData its data) is overwritten and returned; an omitted
      y is allocated as zeros and returned. Either way the kernel visits y's effective
      length, those elements take the library's results, and nothing else changes. null
      stands for the raised error. */
  method GemvInPlace(A: Arg, x: Arg, yData: array?<real>, library: nat -> real, alpha: real := 1.0,
                     transA: string := "n", y: Option<Arg> := None, beta: real := 1.0,
                     lda: Option<int> := None, incX: int := 1, incY: int := 1)
    returns (r: Result<Call>, out: array?<real>)
    requires y.Some? <==> yData != null
    requires y.Some? ==> Holds(yData, y.value) && NonEmpty(y.value)
    requires incY >= 1
    modifies yData
    ensures r == GemvIntended(A, x, alpha, transA, y, beta, lda, incX, incY)
    ensures r.Fail? ==> out == null && (yData != null ==> yData[..] == old(yData[..]))
    ensures r.Ok? ==> out != null && (y.Some? ==> out == yData) && (y.None? ==> fresh(out))
    ensures r.Ok? ==> Holds(out, ResolvedY(A, x, transA, y))
    ensures r.Ok? ==> StridedUpdate(out[..], if y.Some? then old(yData[..]) else Zeros(out.Length), incY,
                                    Results(EffectiveLength(ResolvedY(A, x, transA, y), incY), library))
  {
    r := GemvIntended(A, x, alpha, transA, y, beta, lda, incX, incY);
    out := null;
    if r.Ok? {
      var z := ResolvedY(A, x, transA, y);
      if y.Some? {
        out := yData;
      } else {
        EffectiveLengthPositive(x, incX);
        out := Allocate(z.Rows() * z.Cols());
      }
      VectorFits(z, out, incY);
      StridedWrite(out, incY, Results(EffectiveLength(z, incY), library));
    }
  }
}
