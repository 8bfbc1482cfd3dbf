/** The native kernel's effect on the containers it is handed: which elements it
    overwrites. The values a kernel computes are those of the native library and are
    taken as a parameter, one per visited element; copy and swap are exact. A container's
    data is a row-major `array<real>` of rows * cols elements. */
module Kernel {
  import opened Containers
  import opened Helpers

  /** The positions 0, inc, 2 * inc, ... of the first count elements a kernel visits. */
  function Visited(count: nat, inc: int): set<int>
  {
    if count == 0 then {} else Visited(count - 1, inc) + {(count - 1) * inc}
  }

  /** The kernel visits no position outside a buffer of the given length. */
  predicate StrideFits(count: nat, inc: int, length: nat)
  {
    inc >= 1 && (count == 0 || (count - 1) * inc < length)
  }

  /** now is before with its i-th visited position replaced by values[i], for every i,
      and every other position unchanged. */
  ghost predicate StridedUpdate(now: seq<real>, before: seq<real>, inc: int, values: seq<real>)
  {
    |now| == |before|
    && (forall i :: 0 <= i < |values| ==> 0 <= i * inc < |now| && now[i * inc] == values[i])
    && (forall j :: 0 <= j < |now| && j !in Visited(|values|, inc) ==> now[j] == before[j])
  }

  lemma {:induction false} StrideBelow(i: nat, count: nat, inc: int, length: nat)
    requires StrideFits(count, inc, length) && i < count
    ensures 0 <= i * inc < length
  {
    var d: nat := count - 1 - i;
    assert (count - 1) * inc == i * inc + d * inc;
  }

  /** Distinct steps visit distinct positions. */
  lemma StrideInjective(k: nat, i: nat, inc: int)
    requires inc >= 1 && k < i
    ensures k * inc < i * inc
  {
    assert i * inc - k * inc == (i - k) * inc;
  }

  /** Every visited position lies in the buffer. */
  lemma {:induction false} VisitedBelow(count: nat, inc: int, length: nat, j: int)
    requires StrideFits(count, inc, length) && j in Visited(count, inc)
    ensures 0 <= j < length
  {
    if j == (count - 1) * inc {
      StrideBelow(count - 1, count, inc, length);
    } else {
      VisitedBelow(count - 1, inc, length, j);
    }
  }

  /** The count elements of s a kernel reads with stride inc. */
  function Gather(s: seq<real>, count: nat, inc: int): (r: seq<real>)
    requires StrideFits(count, inc, |s|)
    ensures |r| == count
    ensures forall i :: 0 <= i < count ==> 0 <= i * inc < |s| && r[i] == s[i * inc]
  {
    if count == 0 then []
    else
      StrideBelow(count - 1, count, inc, |s|);
      Gather(s, count - 1, inc) + [s[(count - 1) * inc]]
  }

  /** Writing the kernel's values along the stride: the effect of axpy, scal, gemv, symv,
      trmv and trsv on their output vector. */
  method StridedWrite(buf: array<real>, inc: int, values: seq<real>)
    requires StrideFits(|values|, inc, buf.Length)
    modifies buf
    ensures StridedUpdate(buf[..], old(buf[..]), inc, values)
  {
    var i := 0;
    while i < |values|
      invariant 0 <= i <= |values|
      invariant forall k :: 0 <= k < i ==> 0 <= k * inc < buf.Length && buf[k * inc] == values[k]
      invariant forall j :: 0 <= j < buf.Length && j !in Visited(i, inc) ==> buf[j] == old(buf[j])
    {
      StrideBelow(i, |values|, inc, buf.Length);
      forall k | 0 <= k < i
        ensures k * inc < i * inc
      {
        StrideInjective(k, i, inc);
      }
      buf[i * inc] := values[i];
      assert Visited(i + 1, inc) == Visited(i, inc) + {i * inc};
      i := i + 1;
    }
  }

  /** The copy kernel: dst's visited elements become src's, one for one. */
  method StridedCopy(src: array<real>, incSrc: int, dst: array<real>, incDst: int, count: nat)
    requires src != dst
    requires StrideFits(count, incSrc, src.Length) && StrideFits(count, incDst, dst.Length)
    modifies dst
    ensures StridedUpdate(dst[..], old(dst[..]), incDst, Gather(src[..], count, incSrc))
  {
    var values := Gather(src[..], count, incSrc);
    StridedWrite(dst, incDst, values);
  }

  /** The swap kernel: the visited elements of x and y are exchanged. */
  method StridedSwap(x: array<real>, incX: int, y: array<real>, incY: int, count: nat)
    requires x != y
    requires StrideFits(count, incX, x.Length) && StrideFits(count, incY, y.Length)
    modifies x, y
    ensures StridedUpdate(x[..], old(x[..]), incX, Gather(old(y[..]), count, incY))
    ensures StridedUpdate(y[..], old(y[..]), incY, Gather(old(x[..]), count, incX))
  {
    var fromX := Gather(x[..], count, incX);
    var fromY := Gather(y[..], count, incY);
    StridedWrite(x, incX, fromY);
    StridedWrite(y, incY, fromX);
  }

  /** Reading back the visited positions of a buffer the kernel has just written gives
      exactly the values written: after copy, y's strided elements equal x's. */
  lemma GatherAfterWrite(now: seq<real>, before: seq<real>, inc: int, values: seq<real>)
    requires StridedUpdate(now, before, inc, values) && StrideFits(|values|, inc, |now|)
    ensures Gather(now, |values|, inc) == values
  {
  }

  /** Swapping twice restores both vectors: the element exchange is an involution. */
  lemma {:induction false} SwapTwice(x: seq<real>, y: seq<real>, x1: seq<real>, y1: seq<real>,
                                     x2: seq<real>, y2: seq<real>, incX: int, incY: int, count: nat)
    requires StrideFits(count, incX, |x|) && StrideFits(count, incY, |y|)
    requires StridedUpdate(x1, x, incX, Gather(y, count, incY)) && StridedUpdate(y1, y, incY, Gather(x, count, incX))
    requires StridedUpdate(x2, x1, incX, Gather(y1, count, incY)) && StridedUpdate(y2, y1, incY, Gather(x1, count, incX))
    ensures x2 == x && y2 == y
  {
    forall j | 0 <= j < |x|
      ensures x2[j] == x[j]
    {
      if j in Visited(count, incX) {
        var i := VisitedStep(count, incX, j);
        assert x2[i * incX] == Gather(y1, count, incY)[i] == y1[i * incY] == Gather(x, count, incX)[i];
      }
    }
    forall j | 0 <= j < |y|
      ensures y2[j] == y[j]
    {
      if j in Visited(count, incY) {
        var i := VisitedStep(count, incY, j);
        assert y2[i * incY] == Gather(x1, count, incX)[i] == x1[i * incX] == Gather(y, count, incY)[i];
      }
    }
  }

  /** A visited position is the position of some step. */
  lemma {:induction false} VisitedStep(count: nat, inc: int, j: int) returns (i: nat)
    requires j in Visited(count, inc)
    ensures i < count && j == i * inc
  {
    if j == (count - 1) * inc {
      i := count - 1;
    } else {
      i := VisitedStep(count - 1, inc, j);
    }
  }

  // ---------------------------------------------------------------------------------
  // Containers and their data

  /** buf is the data of a: rows * cols elements. */
  predicate Holds(buf: array<real>, a: Arg)
  {
    a.IsTwoD() ==> buf.Length == a.Rows() * a.Cols()
  }

  predicate NonEmpty(a: Arg)
  {
    a.IsTwoD() ==> a.Rows() >= 1 && a.Cols() >= 1
  }

  /** The kernel's results for the first count elements it visits. */
  function Results(count: nat, library: nat -> real): (v: seq<real>)
    ensures |v| == count && forall i :: 0 <= i < count ==> v[i] == library(i)
  {
    seq(count, i requires 0 <= i < count => library(i))
  }

  function Zeros(n: nat): (z: seq<real>)
    ensures |z| == n && forall i :: 0 <= i < n ==> z[i] == 0.0
  {
    seq(n, _ => 0.0)
  }

  /** Every vector has at least one element to visit (find_length never returns zero for one). */
  lemma EffectiveLengthPositive(a: Arg, inc: int)
    requires a.IsVector()
    ensures EffectiveLength(a, inc) >= 1
  {
    if inc >= 1 {
      FindLengthIsCeiling(a.Rows(), a.Cols(), inc);
    } else {
      FindLengthSmallStride(a.Rows(), a.Cols(), inc);
    }
  }

  /** A kernel walking a non-empty vector for its effective length stays in its data. */
  lemma VectorFits(a: Arg, buf: array<real>, inc: int)
    requires a.IsVector() && NonEmpty(a) && Holds(buf, a) && inc >= 1
    ensures StrideFits(EffectiveLength(a, inc), inc, buf.Length)
  {
    EffectiveLengthPositive(a, inc);
    VectorKernelInBounds(a, inc, EffectiveLength(a, inc) - 1);
  }

  /** The data numpy.zeros gives a new container. */
  method Allocate(n: nat) returns (buf: array<real>)
    ensures fresh(buf) && buf[..] == Zeros(n)
  {
    buf := new real[n](_ => 0.0);
  }

  // ---------------------------------------------------------------------------------
  // Matrix outputs

  /** A given leading dimension addresses the container's own row-major layout: it equals
      the number of columns. */
  predicate RowMajorFits(a: Option<Arg>, ld: Option<int>)
  {
    a.Some? && a.value.IsTwoD() && ld.Some? ==> ld.value == a.value.Cols()
  }

  /** The output matrix of a level 2 or level 3 kernel: the given container's data, or new
      zero data of rows * cols elements when it was omitted, holding the library's results
      for its rows * cols elements once the kernel returns. */
  method MatrixOutput(given: array?<real>, rows: nat, cols: nat, library: nat -> real) returns (out: array<real>)
    requires given != null ==> given.Length == rows * cols
    modifies given
    ensures given != null ==> out == given
    ensures given == null ==> fresh(out)
    ensures out[..] == Results(rows * cols, library)
  {
    if given != null {
      out := given;
    } else {
      out := Allocate(rows * cols);
    }
    forall i | 0 <= i < out.Length {
      out[i] := library(i);
    }
  }
}
