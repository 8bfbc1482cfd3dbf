/** The outcome of argument resolution: the kernel that is called and the exact
    positional argument list it receives. */
module Calls {
  import opened Containers

  /** The ctypes scalar type of the selected kernel: c_double or c_float. */
  datatype Precision = Double | Single

  /** One positional argument of a CBLAS call. */
  datatype KernelArg =
    | IntArg(v: int)        // a dimension, stride, leading dimension or mode code
    | CoefArg(c: real)      // a scalar coefficient (alpha, beta), passed through untouched
    | BufArg(name: string)  // the data pointer of the named container

  /** Where the returned container comes from. */
  datatype Origin = Provided | Allocated(shape: Arg)

  /** What the entry point returns once the kernel has run. */
  datatype Returns =
    | ReturnsIndex                                  // the kernel's c_int
    | ReturnsScalar(precision: Precision)           // the kernel's floating result
    | ReturnsContainer(name: string, origin: Origin)
    | ReturnsNothing

  /** A resolved call: kernel name, argument list, the containers the kernel
      overwrites and what the entry point returns. */
  datatype Call = Call(kernel: string, args: seq<KernelArg>, writes: seq<string>, result: Returns)
}
