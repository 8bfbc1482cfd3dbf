/** The error taxonomy of blaspy/errors.py, the ValueErrors that the older modules raise
    with a message of their own, and the failures Python itself produces on the way. */
module Errors {
  import opened Containers

  datatype Error =
    // raisers of errors.py
    | Not2dNumpy(what: Option<string>)      // None: the raiser called without its argument
    | NotVector(name: string, rows: int, cols: int)
    | NotSquare(name: string, rows: int, cols: int)
    | SizeMismatch(name1: string, size1: int, name2: string, size2: int)
    | StridesNotOne
    | InvalidDtypes(allowed: seq<string>)
    | InvalidParameter(param: string, allowed: seq<string>, actual: string)
    | BlasOsError
    // ValueErrors raised inline with a fixed message
    | MustBeVector(vector: string)                     // "x must be a vector"
    | MismatchBetween(first: string, second: string)    // "size mismatch between A and x"
    | DtypeNotSupported(operands: seq<string>)          // "A, x, and y must have the same dtype ..."
    | NotNumpyType(operands: seq<string>)               // "x and y must be of type numpy.ndarray ..."
    | YRequiredForStrides                               // "vector y must be provided if ..."
    // failures that come from Python rather than from BLASpy
    | ShapeUnpack        // `m, n = a.shape` on an array that is not two-dimensional
    | MissingAttribute   // an AttributeError that no except clause catches
    | GenericTypeError   // a call of raise_generic_type_error, which errors.py does not define
    | CtypesArgument(position: nat)  // ctypes refusing a value for a declared argtype (1-based)

  /** The class of the exception a caller observes. Paths that end in a TypeError,
      AttributeError or NameError are not told apart. */
  datatype PyException = ValueError | RuntimeError | TypeOrShapeError

  function ExceptionClass(e: Error): PyException
  {
    match e
    case BlasOsError => RuntimeError
    case Not2dNumpy(name) => if name.Some? then ValueError else TypeOrShapeError
    case MissingAttribute => TypeOrShapeError
    case GenericTypeError => TypeOrShapeError
    case CtypesArgument(_) => TypeOrShapeError
    case _ => ValueError
  }

  /** A call either produces a value or raises an exception. */
  datatype Result<+T> = Ok(value: T) | Fail(error: Error) {
    predicate IsFailure() { Fail? }

    function PropagateFailure<U>(): Result<U>
      requires Fail?
    {
      Fail(error)
    }

    function Extract(): T
      requires Ok?
    {
      value
    }
  }

  // The raisers. Each stands for a Python call that never returns normally.

  function RaiseNot2dNumpy<T>(name: Option<string>): Result<T> { Fail(Not2dNumpy(name)) }

  function RaiseNotVector<T>(name: string, rows: int, cols: int): Result<T>
  {
    Fail(NotVector(name, rows, cols))
  }

  function RaiseNotSquare<T>(name: string, rows: int, cols: int): Result<T>
  {
    Fail(NotSquare(name, rows, cols))
  }

  function RaiseSizeMismatch<T>(name1: string, size1: int, name2: string, size2: int): Result<T>
  {
    Fail(SizeMismatch(name1, size1, name2, size2))
  }

  function RaiseStridesNotOne<T>(): Result<T> { Fail(StridesNotOne) }

  function RaiseInvalidDtypes<T>(allowed: seq<string>): Result<T> { Fail(InvalidDtypes(allowed)) }

  function RaiseInvalidParameter<T>(name: string, allowed: seq<string>, actual: string): Result<T>
  {
    Fail(InvalidParameter(name, allowed, actual))
  }

  function RaiseBlasOsError<T>(): Result<T> { Fail(BlasOsError) }

  /** Every argument-validation raiser signals a ValueError and never returns; the raiser
      for a missing BLAS library signals a RuntimeError. */
  lemma RaiserClasses<T>(name: string, rows: int, cols: int, size: int, allowed: seq<string>, actual: string)
    ensures var r: Result<T> := RaiseNot2dNumpy(Some(name)); r.Fail? && ExceptionClass(r.error) == ValueError
    ensures var r: Result<T> := RaiseNotVector(name, rows, cols); r.Fail? && ExceptionClass(r.error) == ValueError
    ensures var r: Result<T> := RaiseNotSquare(name, rows, cols); r.Fail? && ExceptionClass(r.error) == ValueError
    ensures var r: Result<T> := RaiseSizeMismatch(name, size, actual, rows); r.Fail? && ExceptionClass(r.error) == ValueError
    ensures var r: Result<T> := RaiseStridesNotOne(); r.Fail? && ExceptionClass(r.error) == ValueError
    ensures var r: Result<T> := RaiseInvalidDtypes(allowed); r.Fail? && ExceptionClass(r.error) == ValueError
    ensures var r: Result<T> := RaiseInvalidParameter(name, allowed, actual); r.Fail? && ExceptionClass(r.error) == ValueError
    ensures var r: Result<T> := RaiseBlasOsError(); r.Fail? && ExceptionClass(r.error) == RuntimeError
  {
  }

  /** Only the missing-library raiser signals something other than a ValueError. */
  lemma RuntimeErrorOnlyForLibrary(e: Error)
    ensures ExceptionClass(e) == RuntimeError <==> e == BlasOsError
  {
  }
}
