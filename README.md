# BLASpy argument resolution, in Dafny

BLASpy is a thin Python 2 layer over the CBLAS interface: the C interface to the legacy
BLAS described in Appendix B of the BLAS Technical Forum Standard. Each entry point
(`amax`, `axpy`, `gemv`, `gemm`, ...) does no arithmetic of its own. It does the following:

- reads the two-dimensional shape of every NumPy operand;
- computes the stride-aware effective length of each vector (`find_length`);
- checks that operands are vectors, square, and conformable;
- converts the one-letter mode flags to CBLAS integer codes;
- requires one supported dtype (`float64` or `float32`) and picks the `cblas_d...` or
  `cblas_s...` kernel;
- allocates a zero output when the optional one is omitted;
- defaults the leading dimensions;
- hands the kernel its positional argument list, and the kernel overwrites the output in place.

This project models that layer.

- **Operands.** An operand is `Containers.Arg`: either a non-array, or an array with a shape, a
  dtype and a kind (ndarray or matrix).
- **Entry points.** Every entry point is a function returning `Errors.Result<Calls.Call>`.
  - The error is the first failing check, in the source's order. Its kind and fields mirror
    `blaspy/errors.py`.
  - The `Call` records the kernel's name, its exact argument list, the containers it
    overwrites, and what the entry point returns.
- **Helpers.** The helpers the entry points import but `blaspy/helpers.py` does not
  define are written from the inline code of the older entry points. These are
  `get_vector_dimensions`, `get_matrix_dimensions`, `get_square_matrix_dimension`,
  `check_equal_sizes`, `get_cblas_info`, `create_zero_matrix`,
  `create_similar_zero_vector`, and `convert_uplo`/`trans`/`diag`/`side`.
- **Kernel effect.** Module `Kernel` models the kernel's effect on the containers' data
  (`array<real>`, row-major).
  - A vector kernel writes the positions `0, inc, 2 * inc, ...` up to the effective length
    and nothing else. Copy and swap are exact.
  - The other kernels' values come from a `library` parameter, because the arithmetic
    happens in the native library.
- **In-place methods.** Each entry point that overwrites a container has an `...InPlace`
  method. It resolves the call exactly as the entry point's function does (the corrected
  one for axpy, gemv and gemm) and then applies the kernel:
  - on failure nothing is written and nothing is returned;
  - on success the provided container's data is the object returned, where the source
    returns it;
  - an omitted output is freshly allocated as zeros.

Python's `x.shape` unpacking and the `except` clause of each entry point come in four kinds:
- an inline message;
- `raise_not_2d_numpy()` with no name;
- the undefined `raise_generic_type_error`;
- no handler at all.

Each kind is modelled by `Helpers.Handler`. Errors that Python would raise as something other
than ValueError are classified as `TypeOrShapeError`, and the model does not pin down which
exception escapes. The CBLAS codes for uplo, diag and side are not in the source. They are
given the values of the BLAS Technical Forum C interface (121/122, 131/132, 141/142), and
only their distinctness is used.

Several entry points in this revision disagree with their docstrings. These are modelled
as written, and each comes with a lemma that exhibits the behaviour:
- `gemm` takes `k_B` from A;
- `gemm` tests `lda` where it means `ldc`, so without an explicit `ldc` (and always when C is
  omitted) ctypes refuses the None handed to the kernel's `c_int` slot;
- `gemm` and `gemv` compare flags case-sensitively;
- `gemv`'s default `trans_a` is `'no_trans'`;
- `axpy` and `dot` dispatch on x's dtype alone.

A corrected definition, with its intended property proved, is given beside each one where
the intent is evident (see Findings). The in-place methods use the corrected `axpy`, `gemv`
and `gemm`; "Left out" lists where they therefore differ from the code as written.

## Model

| member | source | states |
|---|---|---|
| Helpers.FindLengthIsCeiling | blaspy/helpers.py:36-41 | for every stride of at least one, find_length is the ceiling of max(m, n) / stride |
| Helpers.FindLengthSmallStride | blaspy/helpers.py:41 | a stride of at most one, zero and negative strides included, leaves max(m, n) unchanged |
| Helpers.FindLengthInBounds | blaspy/helpers.py:20-41 | for stride s >= 1 and every i below find_length, i * s < max(m, n): the kernel never walks past the longer dimension |
| Helpers.FindLengthCovers | blaspy/helpers.py:41 | find_length * s >= max(m, n): no reachable element is dropped |
| Helpers.FindLengthSymmetric | blaspy/helpers.py:37 | find_length is symmetric in m and n, so row and column vectors of one length agree |
| Helpers.FindLengthOneElement | blaspy/helpers.py:41 | a stride at least max(m, n) >= 1 leaves exactly one element |
| Helpers.FindLengthOverrunsEmptyVector | blaspy/helpers.py:37-41 | on every stride, a 1 x 0 or 0 x 1 vector is given length one although it holds no element |
| Helpers.ElementLengthInBounds | blaspy/helpers.py:37-41 | the length computed on the element count keeps every visited position inside the m * n elements, empty vectors included, and equals find_length on non-empty vectors |
| Helpers.CblasConstantsDistinct | blaspy/helpers.py:13-18 | the six CBLAS order/transpose constants are pairwise distinct; NO_TRANS & 1 is 1 and TRANS & 1 is 0 |
| Helpers.ModeCodesDistinct | blaspy/helpers.py:13-18 | the order, transpose, uplo, diag and side codes handed to kernels are nine distinct values |
| Helpers.GetMatrixDimensions | blaspy/level_3/gemm.py:62-63 | succeeds exactly on two-dimensional arrays and yields (rows, cols); a non-array fails with the handler's error |
| Helpers.GetVectorDimensions | blaspy/level_1/copy.py:33-42 | succeeds exactly on vectors, yielding rows, cols and the effective length; a non-vector raises not-vector with its name, rows and cols |
| Helpers.GetSquareMatrixDimension | blaspy/level_3/symm.py:80 | succeeds exactly on square matrices, yielding the dimension; otherwise not-square with the name, rows and cols |
| Helpers.VectorKernelInBounds | blaspy/helpers.py:23-25 | for a non-empty vector and stride >= 1, every visited position lies inside its rows * cols elements |
| Helpers.CheckIsVector | blaspy/level_2/symv.py:85-86 | succeeds exactly when rows or cols is one; otherwise not-vector carrying the name and both sizes |
| Helpers.CheckIsSquare | blaspy/level_2/symv.py:87 | succeeds exactly when rows equals cols; otherwise not-square carrying the name and both sizes |
| Helpers.CheckEqualSizes | blaspy/level_2/ger.py:70-73 | succeeds exactly on equal sizes; otherwise a size mismatch carrying both names and both sizes in order |
| Helpers.GetCblasInfo | blaspy/level_2/symv.py:95-102 | succeeds exactly when all dtypes are equal and float32 or float64, selecting cblas_d/cblas_s and the precision; otherwise invalid dtypes with the allowed list |
| Helpers.GetCblasInfoRejectsMixed | blaspy/level_2/ger.py:80-87 | any two differing dtypes, or an unsupported one, give invalid dtypes |
| Helpers.CreateSimilarZeroVector | blaspy/level_2/symv.py:68-73 | a zero vector of x's dtype and kind, a row of the given length exactly when x has one row, a column otherwise |
| Helpers.ZeroVectorLength | blaspy/level_2/symv.py:68-73 | the allocated vector's effective length under stride one is the requested length |
| Helpers.ConvertUplo | blaspy/level_3/symm.py:75 | accepts exactly u, U, l, L, mapping to UPPER or LOWER; anything else is invalid parameter 'uplo' with the allowed flags and the value given |
| Helpers.ConvertTrans | blaspy/level_3/trsm.py:79 | accepts exactly n, N, t, T, mapping to NO_TRANS or TRANS; anything else is invalid parameter 'trans' |
| Helpers.ConvertDiag | blaspy/level_3/trsm.py:80 | accepts exactly n, N, u, U, mapping to NON_UNIT or UNIT; anything else is invalid parameter 'diag' |
| Helpers.ConvertSide | blaspy/level_3/trsm.py:77 | accepts exactly l, L, r, R, mapping to LEFT or RIGHT; anything else is invalid parameter 'side' |
| Helpers.ConvertFlagsCaseInsensitive | blaspy/level_3/trsm.py:77-80 | among lower-case ASCII letters each flag accepts only its two letters, and a letter and its upper case convert alike |
| Bits.And1 | blaspy/level_2/gemv.py:75 | `v & 1` is v mod 2 |
| Bits.SecondBit | blaspy/constants.py:15 | `v >> 1 & 1` is (v / 2) mod 2 |
| Constants.OrientationRoundTrip | blaspy/constants.py:14-21 | encoding (x is a row, y is a row) gives a code below 4 whose bit 0 is x's and bit 1 is y's |
| Constants.OrientationDecodeRoundTrip | blaspy/constants.py:18-21 | decoding any code 0..3 and encoding again gives the code back |
| Constants.NamedCodes | blaspy/constants.py:16-21 | the four two-vector codes are the encodings of their names, are distinct, and COL/ROW equal COL_COL/ROW_COL |
| Enum.VecAgreesWithConstants | blaspy/enum.py:25 | Vec holds the same six values as the orientation constants |
| Enum.VecDecode | blaspy/enum.py:25 | `& 1` and `>> 1 & 1` of a Vec code recover the x and y orientations its name states |
| Enum.OrderAgreesWithHelpers | blaspy/enum.py:28 | Order's values are the order constants, and are distinct |
| Enum.TransAgreesWithHelpers | blaspy/enum.py:31 | Trans's values are the transpose constants and are pairwise distinct |
| Enum.TransParity | blaspy/enum.py:31 | `& 1` is zero exactly for TRANS and CONJ_NO_TRANS, so the parity decode picks "transposed" for TRANS and not for NO_TRANS |
| Errors.RaiserClasses | blaspy/errors.py:12-56 | every argument raiser fails with a ValueError and none returns normally; the library raiser fails with a RuntimeError |
| Errors.RuntimeErrorOnlyForLibrary | blaspy/errors.py:52-56 | only the missing-library error is a RuntimeError |
| Amax.Amax | blaspy/level_1/amax.py:19-58 | shape read first, then vector check, then float64 to cblas_idamax / float32 to cblas_isamax, else dtype error; kernel gets (find_length, x, inc_x) and returns the index; non-arrays fail with ValueError |
| Amax.AmaxOrientationIndependent | blaspy/level_1/amax.py:35 | a row and a column vector of the same length resolve to the same call |
| Asum.Asum | blaspy/level_1/asum.py:19-61 | as amax, with cblas_dasum/cblas_sasum and a scalar result |
| Axpy.Axpy | blaspy/level_1/axpy.py:17-56 | x then y resolved as vectors, equal effective lengths or a size mismatch naming x and y, precision from x's dtype; argument list (x_length, alpha, x, inc_x, y, inc_y); y overwritten, nothing returned |
| Axpy.AxpyMixedOrientation | blaspy/level_1/axpy.py:38-42 | a row x with a column y of equal length is accepted |
| Axpy.AxpyIgnoresYDtype | blaspy/level_1/axpy.py:45 | every conformant float64 x with a y of another dtype is accepted and handed to cblas_daxpy, while the corrected axpy rejects it; the 1 x 3 float64 / float32 pair is one instance |
| Axpy.AxpyIntended | blaspy/level_1/axpy.py:45 | the corrected axpy succeeds exactly when axpy does and the two dtypes agree, and then it makes the same call |
| Axpy.AxpyInPlace | blaspy/level_1/axpy.py:52-53 | on success the kernel's count is y's effective length, y's strided positions take the library's values, and every other element of y is unchanged; on failure y is unchanged |
| Copy.Copy | blaspy/level_1/copy.py:19-64 | checks in the order both shapes, x vector, y vector, equal lengths, matching supported dtypes; cblas_dcopy/cblas_scopy with (x_length, x, inc_x, y, inc_y); only y written |
| Copy.CopyInPlace | blaspy/level_1/copy.py:61 | on success y's strided positions become x's strided elements one for one and everything else in y is kept; x is only read |
| Dot.Dot | blaspy/level_1/dot.py:17-60 | both vectors, equal lengths or a size mismatch, precision from x; kernel gets x's effective length; returns the scalar and writes no buffer |
| Dot.DotOrientationIndependent | blaspy/level_1/dot.py:40-44 | swapping both operands' orientations does not change the call |
| Dot.DotIgnoresYDtype | blaspy/level_1/dot.py:47 | every conformant float64 x with a y of another dtype is accepted and handed to cblas_ddot, while the corrected dot rejects it; the 3 x 1 float64 / float32 pair is one instance |
| Dot.DotIntended | blaspy/level_1/dot.py:47 | the corrected dot succeeds exactly when dot does and the dtypes agree, and then makes the same call |
| Nrm2.Nrm2 | blaspy/level_1/nrm2.py:17-46 | a vector with a supported dtype; kernel gets (x_length, x, inc_x); scalar result, nothing written |
| Scal.Scal | blaspy/level_1/scal.py:17-62 | a vector with a supported dtype; kernel gets (x_length, alpha, x, inc_x); x overwritten and returned |
| Scal.ScalInPlace | blaspy/level_1/scal.py:57-59 | the object returned is the x given; only x's strided positions change |
| Sdot.Sdot | blaspy/level_1/sdot.py:18-78 | equal lengths, then both float32 or invalid dtypes ['float32'], then output 'float64' to cblas_dsdot, 'float32' to cblas_sdsdot with an extra 0, anything else invalid parameter 'output' |
| Sdot.SdotRejectsDouble | blaspy/level_1/sdot.py:54-55 | a float64 operand is always rejected |
| Swap.Swap | blaspy/level_1/swap.py:17-49 | equal lengths and one supported dtype for both; (x_length, x, inc_x, y, inc_y); both written, nothing returned |
| Swap.SwapInPlace | blaspy/level_1/swap.py:46 | the strided elements of x and y are exchanged one for one and every other element is kept |
| Kernel.Gather | blaspy/level_1/copy.py:61 | the count elements a kernel reads from a buffer at stride inc, each inside the buffer, in order |
| Kernel.StridedWrite | blaspy/level_1/scal.py:57 | writes exactly the positions 0, inc, ..., (count - 1) * inc and leaves every other element unchanged |
| Kernel.StridedCopy | blaspy/level_1/copy.py:61 | dst's i-th strided element becomes src's i-th strided element; nothing else in dst changes |
| Kernel.StridedSwap | blaspy/level_1/swap.py:46 | each buffer's strided elements become the other's old ones; nothing else changes |
| Kernel.GatherAfterWrite | blaspy/level_1/copy.py:61 | reading the strided positions back after a write gives exactly the values written |
| Kernel.SwapTwice | blaspy/level_1/swap.py:46 | swapping twice restores both vectors |
| Kernel.EffectiveLengthPositive | blaspy/helpers.py:37-41 | every vector has an effective length of at least one |
| Kernel.VectorFits | blaspy/helpers.py:23-25 | a kernel walking a non-empty vector for its effective length stays inside its data |
| Kernel.MatrixOutput | blaspy/level_3/gemm.py:68-69 | the output is the given container's data, or fresh data of rows * cols elements, holding the kernel's results |
| Gemv.DefaultY | blaspy/level_2/gemv.py:61-62 | an omitted y is a zero vector shaped like x, of length n_A when trans_a is exactly 't' and m_A otherwise |
| Gemv.Gemv | blaspy/level_2/gemv.py:19-100 | succeeds exactly on the conforming operands (x length n_A and y length m_A, swapped for t/T); the stride rule comes before allocation and the flag before the checks; a mismatch names x (against n_A, or m_A for t/T) before y (against the other dimension), with both sizes; mixed or unsupported dtypes give invalid dtypes; argument list (ROW_MAJOR, trans, m_A, n_A, alpha, A, lda, x, inc_x, beta, y, inc_y) with lda defaulting to n_A; y returned, provided or allocated |
| Gemv.GemvDefaultTransRejected | blaspy/level_2/gemv.py:19 | gemv called without trans_a always fails |
| Gemv.GemvIntended | blaspy/level_2/gemv.py:19 | gemv with the documented default 'n' succeeds exactly on operands that conform |
| Gemv.GemvIntendedDefaultAccepts | blaspy/level_2/gemv.py:56-62 | with the intended default a conforming A and x and an omitted y are accepted and the allocated y is returned |
| Gemv.GemvUppercaseTransDefaultY | blaspy/level_2/gemv.py:61 | with 'T' the allocated y has m_A elements while the transposed check wants n_A, so a conforming call fails; with 't' it succeeds |
| Gemv.GemvInPlace | blaspy/level_2/gemv.py:94-97 | the provided y, or a freshly allocated zero y, is returned with its strided positions holding the library's values and all else unchanged |
| Ger.DefaultA | blaspy/level_2/ger.py:58-62 | an omitted A is an x_length x y_length zero matrix of x's dtype and kind |
| Ger.Ger | blaspy/level_2/ger.py:20-102 | size checks of A against x and y precede the vector checks; all float64 to cblas_dger, all float32 to cblas_sger; lda is y_length for a created A, else n_A unless given; A returned |
| Ger.GerOmittedAConforms | blaspy/level_2/ger.py:58-62 | with A omitted any pair of supported vectors is accepted, strides included, and the allocated A is returned |
| Ger.GerInPlace | blaspy/level_2/ger.py:96-99 | the provided A, or an allocated x_length x y_length one, is returned holding the kernel's results |
| Symv.Symv | blaspy/level_2/symv.py:21-117 | stride rule before allocation, square A, x and y lengths equal to m_A, uplo converted after the shape checks, matching supported dtypes; y returned |
| Symv.SymvDefaultY | blaspy/level_2/symv.py:68-73 | the allocated y is a row exactly when x has one row (or m_A is one), has x's dtype and kind, and has m_A elements |
| Symv.SymvInPlace | blaspy/level_2/symv.py:111-114 | the provided y, or a freshly allocated m_A-element zero y, is returned with m_A strided positions holding the library's values |
| Syr.Syr | blaspy/level_2/syr.py:18-94 | square A whose dimension is x's effective length, uplo, matching supported dtypes; lda forced to dim_A for a created A; A returned; uplo converted after the checks, dtypes last, each failure with its exact error |
| Syr.SyrOmittedA | blaspy/level_2/syr.py:61-70 | with A omitted the call succeeds, the lda passed is x's effective length, and the allocated square A is returned |
| Syr.SyrInPlace | blaspy/level_2/syr.py:88-91 | the provided A, or an allocated one, is returned holding the kernel's results |
| Syr2.Syr2 | blaspy/level_2/syr2.py:17-105 | square A whose dimension equals both effective lengths, uplo converted after the checks, then one supported dtype; A returned |
| Syr2.Syr2OmittedASizedByX | blaspy/level_2/syr2.py:72-74 | with A omitted and lengths differing, the created A is sized by x and y is reported as the mismatch, for every uplo, alpha and lda |
| Syr2.Syr2InPlace | blaspy/level_2/syr2.py:102-105 | the provided A, or an allocated one, is returned holding the kernel's results |
| Trmv.Trmv | blaspy/level_2/trmv.py:18-92 | x vector, square A, dim_A equal to x's length before any flag; lda defaults to dim_A; x overwritten, nothing returned |
| Trmv.TrmvTransIndependent | blaspy/level_2/trmv.py:71 | for any two accepted trans_a flags, acceptance is the same and the argument lists differ at most in the transpose code |
| Trmv.TrmvInPlace | blaspy/level_2/trmv.py:88-89 | dim_A strided elements of x take the library's values and nothing else changes |
| Trsv.Trsv | blaspy/level_2/trsv.py:17-103 | flags converted before any shape, so a bad flag wins; square A with dim_A equal to b's length; b returned |
| Trsv.TrsvFlagAlphabets | bp_unit_tests/level_2/unit_test_trsv.py:392-417 | any one-letter uplo outside uUlL, trans outside nNtT or diag outside nNuU is rejected as that parameter |
| Trsv.TrsvInPlace | blaspy/level_2/trsv.py:100-103 | the object returned is the b given, with dim_A strided elements holding the solution |
| Gemm.Gemm | blaspy/level_3/gemm.py:18-111 | m and k_A from A by trans_a; n and k_B as written; C defaulted to m x n; flags converted after allocation and before the three size checks (k_A against k_B, then m and n against C), then one dtype, each failure with its exact error; once all pass, succeeds exactly when C and ldc are both given (otherwise ctypes rejects the None in ldc's c_int slot, argument 14), with argument list lda = n_A, ldb = n_B and the given ldc |
| Gemm.GemmIgnoresInnerDimension | blaspy/level_3/gemm.py:65 | a 2 x 3 A with a 5 x 4 B (and a 2 x 4 C with its ldc) is accepted with k = 3 |
| Gemm.GemmLdcNone | blaspy/level_3/gemm.py:68-81 | gemm never succeeds without an explicit ldc or with C omitted: ldc is None at the call and ctypes raises; conformant 2 x 3 by 3 x 2 operands fail at argument 14 |
| Gemm.GemmWrittenAndIntendedDisagree | blaspy/level_3/gemm.py:64-65 | on A 2 x 3, B 3 x 2, C 2 x 2 and ldc 2: ('N', 'n') fails as written and succeeds as intended; ('n', 't') succeeds as written, k_B being taken from A, and fails as intended |
| Gemm.GemmUppercaseN | blaspy/level_3/gemm.py:64 | 'N' takes the transposed branch: conforming operands fail with 'N' and, given C and ldc, succeed with 'n' |
| Gemm.DerivedDimsAgainstIntended | blaspy/level_3/gemm.py:64-65 | the written dimension rule agrees with the intended one on (m, k_A) unless trans_a is 'N' and on n when trans_b is 'n', and its k_B is always A's column count |
| Gemm.GemmIntended | blaspy/level_3/gemm.py:60-111 | succeeds exactly when op(A) is m x k and op(B) is k x n read from each operand's own shape with case-insensitive flags, C (given or m x n zeros) is m x n, and the three dtypes are one supported dtype; the argument list has the flags' codes, m, n, k, lda = n_A, ldb = n_B and ldc the given one or C's column count |
| Gemm.GemmIntendedChecksInnerDimension | blaspy/level_3/gemm.py:88 | the corrected gemm rejects the 2 x 3 by 5 x 4 product as a size mismatch of 3 and 5 |
| Gemm.GemmIntendedCaseInsensitive | blaspy/level_3/gemm.py:84-85 | for any accepted flags that agree after lower-casing, on A and on B, the corrected gemm gives the same outcome |
| Gemm.GemmInPlace | blaspy/level_3/gemm.py:104-108 | the provided C, or an allocated m x n one, is returned holding the kernel's results |
| Symm.Symm | blaspy/level_3/symm.py:18-121 | uplo then side converted first; square A; dim_A equal to B's rows (left) or cols (right); C, given or created, of B's shape; argument list with lda = dim_A, ldb = n_B, ldc = n_C; C returned |
| Symm.SymmOutputHasShapeOfB | blaspy/level_3/symm.py:80-103 | once the checks pass, (m, n) is B's shape on either side, and so is a given C's, for every scalar and leading dimension |
| Symm.SymmInPlace | blaspy/level_3/symm.py:117-121 | the provided C, or an allocated one of B's shape, is returned holding the kernel's results |
| Syrk.Syrk | blaspy/level_3/syrk.py:18-108 | uplo then trans; (n, k) from A, swapped for t/T; C square of dimension n, default n x n; lda = n_A, ldc = dim_C; C returned |
| Syrk.SyrkTransposeAgreesWithCode | blaspy/level_3/syrk.py:66-68 | for an accepted flag, the transposition the dimensions assume is the one the code tells the kernel |
| Syrk.SyrkInPlace | blaspy/level_3/syrk.py:102-105 | the provided C, or an allocated n x n one, is returned holding the kernel's results |
| Syr2k.Syr2k | blaspy/level_3/syr2k.py:18-118 | A and B of identical shape whatever trans is; C square of dimension n; lda, ldb, ldc default to n_A, n_B, dim_C; C returned |
| Syr2k.Syr2kExtendsSyrk | blaspy/level_3/syr2k.py:95-97 | with a B of A's shape and dtype, syr2k accepts exactly what syrk accepts, for every scalar and leading dimension |
| Syr2k.Syr2kInPlace | blaspy/level_3/syr2k.py:111-115 | the provided C, or an allocated n x n one, is returned holding the kernel's results |
| Trmm.Trmm | blaspy/level_3/trmm.py:19-99 | all four flags first; the side for dimensions read from the raw string; dim_A equal to B's rows (left) or cols (right); (m, n) passed is B's shape; nothing returned |
| Trmm.TrmmSideAgreesWithCode | blaspy/level_3/trmm.py:64-68 | for an accepted side flag the raw-string test agrees with the converted code |
| Trmm.TrmmInPlace | blaspy/level_3/trmm.py:95-96 | B's data holds the kernel's results; on failure it is unchanged |
| Trsm.Trsm | blaspy/level_3/trsm.py:19-114 | side, uplo, trans, diag converted first, a bad flag failing with its own InvalidParameter; square A; dim_A equal to B's rows (left) or cols (right); (m_B, n_B) passed; nothing returned |
| Trsm.TrsmAgreesWithTrmm | blaspy/level_3/trsm.py:94-97 | trsm and trmm accept exactly the same operands and build the same argument list, for every alpha, lda and ldb |
| Trsm.TrsmInPlace | blaspy/level_3/trsm.py:110-111 | B's data holds the solution; on failure it is unchanged |

## Left out

- Kernel arithmetic: every numeric result (dot products, norms, sums, matrix products, triangular solves) is computed by the native library; the in-place methods take its values as the `library` parameter, and `alpha`/`beta` are passed through as `real`.
- ctypes plumbing (`POINTER(...)`, `argtypes`, `restype`, `.ctypes.data_as`), apart from gemm's None in a `c_int` slot, which is modelled as the failure `CtypesArgument(14)`; library loading and OS detection (`blaspy/config.py`), and the legacy raw wrappers (`double1.py`, `double_wrappers.py`, the `d*.py` modules): no logic beyond one foreign call.
- Exact error message text: errors are modelled by kind and fields.
- Which Python exception escapes when a non-array reaches `raise_generic_type_error` (undefined in `blaspy/errors.py`) or has no handler: modelled as `TypeOrShapeError`.
- `raise_invalid_dtypes('float32')` in sdot passes a string; it is modelled as the one-element list `["float32"]`.
- Leading dimensions are passed to the kernel unchecked; the model records them in the argument list and does not validate them.
- Kernel.MatrixOutput: a matrix kernel is modelled as writing the output's rows * cols elements; which triangle syr, syr2, symm, syrk and syr2k leave untouched is part of the library's values.
- Axpy.AxpyInPlace, Gemv.GemvInPlace, Gemm.GemmInPlace: resolve with the corrected `AxpyIntended`, `GemvIntended` and `GemmIntended`, so they differ from the code as written. An x and y of different dtypes, which axpy.py:45 accepts whenever x's dtype is supported (a float64 x with a float32 y, or a float32 x with a float64 y), is rejected. `gemv(A, x)` without trans_a, which gemv.py:19 rejects, succeeds with the default 'n'. A 2 x 3 by 5 x 4 product, which gemm.py:65 accepts, is rejected. On a 2 x 3 A, a 3 x 2 B and a 2 x 2 C with ldc 2, ('N', 'n'), which gemm.py:64 and gemm.py:88 reject, succeeds, and ('n', 't'), which gemm.py:65 accepts, is rejected (`Gemm.GemmWrittenAndIntendedDisagree`). An omitted ldc, which makes gemm.py:104-106 raise in ctypes, defaults to C's column count. The written behaviour is stated by `Axpy.Axpy`, `Gemv.Gemv` and `Gemm.Gemm` only; the effect of the written axpy on a y read through a pointer of x's element type is not modelled.
- Ger.GerInPlace, Syr.SyrInPlace, Syr2.Syr2InPlace, Gemm.GemmInPlace, Symm.SymmInPlace, Syrk.SyrkInPlace, Syr2k.Syr2kInPlace, Trmm.TrmmInPlace, Trsm.TrsmInPlace: require a given leading dimension of the output to equal its column count (`RowMajorFits`), since any other value makes the kernel address memory outside the container or in another layout, which the model does not follow.
- Axpy.AxpyInPlace, Copy.CopyInPlace, Scal.ScalInPlace, Swap.SwapInPlace, Gemv.GemvInPlace, Symv.SymvInPlace, Trmv.TrmvInPlace, Trsv.TrsvInPlace: require strides of at least one, because CBLAS walks a negative stride from the far end, which is outside this model, and non-empty containers, because find_length gives an empty vector length one (first Findings row) and the kernel's write outside the buffer is not followed.
- Copy.CopyInPlace, Swap.SwapInPlace: require x and y to be different buffers; aliasing is not modelled.
- The acceptance, unit and timing test harnesses; where a unit test disagrees with a source signature (an optional `y` for copy, positional `ger(x, y, A)`), the source is followed.

## Findings

| source | as written | input that shows it | evidently intended | confidence | as-written member | corrected member |
|---|---|---|---|---|---|---|
| blaspy/helpers.py:37-41 | the length is the longer dimension even when the other is zero | a 1 x 0 float64 x with inc_x = 1: the kernel is told n = 1 on an empty buffer | the length of an empty vector is zero | not executed | Helpers.FindLengthOverrunsEmptyVector | Helpers.ElementLengthInBounds |
| blaspy/level_3/gemm.py:65 | `n, k_B = (n_B, n_A) if trans_b == 'n' else (m_A, n_A)` takes k_B (and the transposed n) from A | A 2 x 3, B 5 x 4, C 2 x 4 with ldc = 4: accepted, the kernel reads B as 3 x 4 | k_B and n from B's own shape | not executed | Gemm.GemmIgnoresInnerDimension | Gemm.GemmIntendedChecksInnerDimension |
| blaspy/level_3/gemm.py:80 | tests `lda is None` where `ldc` is meant, so ldc never gets its default | any gemm call without ldc, or with C omitted: ldc is None for the c_int argtype and the call raises ctypes.ArgumentError | ldc defaults to n_C | not executed | Gemm.GemmLdcNone | Gemm.GemmIntended |
| blaspy/level_3/gemm.py:64-65 | compares the flags with 'n' case-sensitively | trans_a = 'N' on a 2 x 3 A and 3 x 2 B: a size mismatch of 2 and 3 | 'N' means no transpose, as convert_trans has it | not executed | Gemm.GemmUppercaseN | Gemm.GemmIntendedCaseInsensitive |
| blaspy/level_2/gemv.py:19 | the default trans_a is 'no_trans', which convert_trans rejects | gemv(A, x) with conforming A and x: invalid parameter 'trans' | the default is 'n' | not executed | Gemv.GemvDefaultTransRejected | Gemv.GemvIntendedDefaultAccepts |
| blaspy/level_1/axpy.py:45 | the kernel is chosen from x's dtype alone | float64 x with float32 y: dispatched to cblas_daxpy | all operands must share the dtype | not executed | Axpy.AxpyIgnoresYDtype | Axpy.AxpyIntended |
| blaspy/level_1/dot.py:47 | the kernel is chosen from x's dtype alone | float64 x with float32 y: dispatched to cblas_ddot | all operands must share the dtype | not executed | Dot.DotIgnoresYDtype | Dot.DotIntended |
