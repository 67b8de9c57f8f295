# Mat3x3 in Dafny

A model of the C++ class `Mat3x3`, a 3x3 matrix of doubles. It covers:

- the constructors;
- the queries: determinant, trace, and the symmetric, antisymmetric, orthogonal, invertible and identity tests;
- transpose and inverse;
- the compound, scalar, increment/decrement and unary operators;
- the bounds-checked subscript;
- the conversion operators `!`, `()` and `bool`;
- both binary `*`.

Doubles are modelled as `real`.

The project has three modules.

- `Mat3Value` (`mat3_value.dfy`) is the value semantics.
  - `Mat` is a 3x3 `seq<seq<real>>`.
  - Every `const` member of the class except unary `+` is a function on `Mat`. Unary `+` returns an unchanged copy, so on values it is the identity and needs no function of its own. The functions use the same formulas and the same exact comparisons as the class.
  - `Result`/`Error` stand for the three exceptions:
    - `OutOfRange` for a bad subscript;
    - `DivideByZero` for `/= 0`;
    - `NotInvertible` for `inverse` of a matrix with determinant exactly 0.
  - The `epsilon` that `isInvertible` compares against is `Epsilon`, the machine epsilon of `double`, 2^-52.
  - `Product` is the true row-by-column product. The class has no such product. It is used to state what an inverse is, and to contrast the class's element-wise `*` with it (on the all-ones matrix, and for `isOrthogonal` on a shear and a row swap).
- `Mat3Laws` (`mat3_laws.dfy`) proves what the operations promise:
  - the determinant of the sample matrix;
  - transpose laws and the symmetry tests;
  - that `inverse` is a two-sided inverse under the true product, proved through the cofactor expansions along every row and every column;
  - the round trips of the arithmetic operators;
  - the subscript's bounds and frame;
  - the conversion operators;
  - the two quirks of the type, which are kept as written:
    - the binary `*` of two matrices is the element-wise product, and `isOrthogonal` uses it. So a shear passes `isOrthogonal` and a row swap fails it.
    - `isAntisymmetric` never looks at the diagonal. So the identity passes it.
- `Mat3Object` (`mat3x3.dfy`) is the class itself. It holds an `array2<real>`.
  - Operators that change the receiver have `modifies matrix`. Each one ties the new `Value()` to the value function of the old one.
  - Operators that build a new matrix (`transpose`, unary `-`, both `*`) fill it with the same loops as the source. `inverse` assigns the nine adjoint cells one by one, as the source does, and then applies `*= 1/det`. Unary `+` returns `*this` by value, so it is modelled as what that return does: the copy constructor, which copies cell by cell. None of these carries a `modifies` clause, because they only read the receiver.
  - `isIdentity` keeps its early-return loops. It is proved equal to the value-level predicate.
  - The single-expression queries (`determinant`, `trace`, `isSymmetric`, `isAntisymmetric`, `isInvertible`, `!`, `()`, `bool`) are the `Mat3Value` functions applied to `Value()`.

The sample matrix `[[1,1,-2],[-3,-2,5],[-6,4,4]]` is the one the demo driver uses. The first-row expansion in `determinant` gives 2 for it, and
`inverse` gives half of `[[-28,-12,1],[-18,-8,1],[-24,-10,1]]`, the answer the demo driver expects.

## Model

| member | source | states |
|---|---|---|
| Mat3Value.Determinant | Mat3x3.cpp:39-44 | the first-row cofactor expansion equals the six-term Leibniz sum over the permutations of the columns |
| Mat3Laws.DeterminantOfSample | Mat3x3.cpp:39-44 | the first-row cofactor expansion of the sample matrix is 2 |
| Mat3Laws.DeterminantOfTranspose | Mat3x3.cpp:39-44 | a matrix and its transpose have the same determinant |
| Mat3Laws.TraceOfTranspose | Mat3x3.cpp:46-49 | the trace is unchanged by transposition |
| Mat3Laws.TraceOfSum | Mat3x3.cpp:46-49 | the trace of a sum is the sum of the traces |
| Mat3Laws.TransposeLiteral | Mat3x3.cpp:77-88 | the transpose written out: row i of the result is column i of the input |
| Mat3Laws.TransposeCells | Mat3x3.cpp:77-88 | `transpose(m)[i][j] == m[j][i]` for all i, j in [0, 3) |
| Mat3Laws.TransposeTwice | Mat3x3.cpp:77-88 | transposing twice gives back the matrix |
| Mat3Value.IsSymmetric | Mat3x3.cpp:70-75 | the three comparisons above the diagonal hold exactly when `m[i][j] == m[j][i]` for every i, j in [0, 3) |
| Mat3Laws.SymmetricIffTransposeFixed | Mat3x3.cpp:70-75 | `isSymmetric` holds exactly when the matrix equals its transpose |
| Mat3Value.IsAntisymmetric | Mat3x3.cpp:51-56 | the three comparisons hold exactly when every off-diagonal cell is minus its mirror; the diagonal is not constrained |
| Mat3Laws.TrueAntisymmetryNeedsZeroDiagonal | Mat3x3.cpp:51-56 | `m == -transpose(m)` exactly when `isAntisymmetric` holds and the diagonal is 0 |
| Mat3Laws.IdentityPassesAntisymmetric | Mat3x3.cpp:51-56 | the identity passes `isAntisymmetric` although it is not minus its transpose |
| Mat3Laws.IdentityIff | Mat3x3.cpp:112-136 | `isIdentity` holds exactly when the matrix is the identity (diagonal 1, everything else 0) |
| Mat3Laws.HadamardCells | Mat3x3.cpp:286-298 | matrix `*` multiplies cell by cell, and is commutative |
| Mat3Laws.HadamardIsNotProduct | Mat3x3.cpp:286-298 | on the all-ones matrix the element-wise `*` and the true product differ |
| Mat3Laws.OrthogonalMeans | Mat3x3.cpp:58-63 | `isOrthogonal` holds exactly when each diagonal cell squares to 1 and each mirrored pair has product 0 |
| Mat3Laws.ShearPassesOrthogonal | Mat3x3.cpp:58-63 | a shear passes `isOrthogonal` though `M * transpose(M)` (true product) is not the identity |
| Mat3Laws.SwapFailsOrthogonal | Mat3x3.cpp:58-63 | a row swap fails `isOrthogonal` |
| Mat3Laws.SwapIsTrulyOrthogonal | Mat3x3.cpp:58-63 | the same row swap times its transpose (true product) is the identity |
| Mat3Laws.ProductWithAdjoint | Mat3x3.cpp:98-107 | `m` times its adjoint (true product) is det times the identity: each row of `m` against the matching column of the adjoint is the expansion along that row, and against any other column it is 0 (proved cell by cell in the helpers `Cofactor00` to `Cofactor22`) |
| Mat3Laws.AdjointWithProduct | Mat3x3.cpp:98-107 | the adjoint times `m` (true product) is det times the identity: the expansion along each column, and 0 across columns (proved cell by cell in the helpers `AdjointColumn00` to `AdjointColumn22`) |
| Mat3Laws.ProductScale | Mat3x3.cpp:109 | a scalar factor on either operand moves out of the true product |
| Mat3Laws.ScaleScale | Mat3x3.cpp:188-198 | scaling by x and then by y is scaling by x * y |
| Mat3Laws.ScaleByOne | Mat3x3.cpp:188-198 | scaling by 1 changes nothing |
| Mat3Laws.InverseIsTwoSided | Mat3x3.cpp:90-110 | `inverse` fails (with `NotInvertible`) exactly when det == 0; otherwise its result is a left and right inverse under the true product |
| Mat3Laws.InverseOfSample | Mat3x3.cpp:90-110 | the inverse of the sample matrix is half of `[[-28,-12,1],[-18,-8,1],[-24,-10,1]]` |
| Mat3Laws.SampleCheckNeedsTrueProduct | main.cpp:30 | the matrix equality the demo's comment asks for, `A * inverse` equal to I, holds for the true product and not for the element-wise `*` |
| Mat3Laws.SampleChecksAsCompiled | main.cpp:31-37 | as compiled, each demo `==` compares the two sides' `operator bool`: the element-wise product of `A` and its inverse has determinant -564, so the first check passes, and the second compares two equal matrices |
| Mat3Laws.SameTruthIsNotEquality | Mat3x3.h:210-215 | through the non-explicit `operator bool`, `==` holds for I and 2I, which differ |
| Mat3Value.IsInvertible | Mat3x3.cpp:65-68 | holds exactly when the determinant lies below -epsilon or above epsilon, and then `inverse` succeeds |
| Mat3Laws.InverseSucceedsBelowEpsilon | Mat3x3.cpp:93-96 | a matrix with 0 < det < epsilon fails `isInvertible` but `inverse` still succeeds |
| Mat3Value.Not | Mat3x3.cpp:268-271 | `operator!` holds exactly when the determinant lies in [-epsilon, epsilon]; when it is false, `inverse` succeeds |
| Mat3Value.Call | Mat3x3.cpp:274-277 | `operator()` yields the determinant, which equals the six-term Leibniz sum |
| Mat3Value.ToBool | Mat3x3.cpp:280-283 | `operator bool` holds exactly when the determinant lies outside [-epsilon, epsilon], and then `inverse` succeeds |
| Mat3Laws.ConversionOperators | Mat3x3.cpp:268-283 | `!` is the negation of `bool`; `bool` holds exactly when `()` (the determinant) lies outside [-epsilon, epsilon] |
| Mat3Laws.IncrementThenDecrement | Mat3x3.cpp:208-231 | `++` then `--` (and `--` then `++`) gives back the matrix |
| Mat3Laws.IncrementCells | Mat3x3.cpp:208-231 | `++` adds 1 and `--` subtracts 1 at every cell |
| Mat3Laws.ScalarCells | Mat3x3.cpp:171-198 | scalar `+=`, `-=` and `*=` apply the scalar to each of the nine cells |
| Mat3Laws.AddThenSub | Mat3x3.cpp:139-161 | `+= b` then `-= b` (and the reverse) gives back the matrix |
| Mat3Laws.AddScalarThenSubScalar | Mat3x3.cpp:171-186 | scalar `+= x` then `-= x` gives back the matrix |
| Mat3Laws.DivScalarUndoesScale | Mat3x3.cpp:200-205 | `/= x` fails with `DivideByZero` exactly when x == 0; otherwise each cell becomes `m[i][j] * (1/x)`, and `/= x` undoes `*= x` |
| Mat3Laws.NegateTwice | Mat3x3.cpp:234-245 | unary minus is an involution, equals scaling by -1, and `m + (-m)` is the zero matrix |
| Mat3Laws.AtBounds | Mat3x3.cpp:260-265 | reading fails with `OutOfRange` exactly outside [0, 3) x [0, 3), and otherwise yields the cell |
| Mat3Laws.UpdateThenAt | Mat3x3.cpp:253-258 | writing one cell fails exactly out of range; otherwise that cell reads back the new value and every other cell reads as before |
| Mat3Object.Mat3x3.constructor | Mat3x3.cpp:7 | the default constructor gives the zero matrix in a new buffer |
| Mat3Object.Mat3x3.FromGrid | Mat3x3.cpp:10 | the parameterised constructor copies its grid unchanged |
| Mat3Object.Mat3x3.CopyOf | Mat3x3.h:36 | the copy constructor gives a new buffer equal to the original |
| Mat3Object.Mat3x3.Assign | Mat3x3.h:42 | copy assignment makes the receiver equal to the source |
| Mat3Object.Mat3x3.IsIdentity | Mat3x3.cpp:112-136 | the early-return loops answer exactly the identity predicate |
| Mat3Object.Mat3x3.IsOrthogonal | Mat3x3.cpp:58-63 | transpose, element-wise `*`, then `isIdentity` answers exactly `IsOrthogonal` of the value |
| Mat3Object.Mat3x3.Transpose | Mat3x3.cpp:77-88 | a new matrix whose value is the transpose; the receiver is not modified |
| Mat3Object.Mat3x3.Inverse | Mat3x3.cpp:90-110 | fails with `NotInvertible` exactly when det == 0; otherwise a new matrix equal to the adjoint scaled by 1/det; the receiver is not modified |
| Mat3Object.Mat3x3.AdjointOf | Mat3x3.cpp:98-107 | the nine cell assignments give the adjoint |
| Mat3Object.Mat3x3.Mul | Mat3x3.cpp:286-298 | a new matrix whose cells are the products of the corresponding cells |
| Mat3Object.Mat3x3.MulScalar | Mat3x3.cpp:300-311 | a new matrix with every cell times the scalar |
| Mat3Object.Mat3x3.Negated | Mat3x3.cpp:234-245 | a new matrix with every cell negated |
| Mat3Object.Mat3x3.Plus | Mat3x3.cpp:247-250 | a new matrix equal to the receiver |
| Mat3Object.Mat3x3.AddAssign | Mat3x3.cpp:139-149 | the receiver becomes old receiver + rhs, also when rhs is the receiver |
| Mat3Object.Mat3x3.SubAssign | Mat3x3.cpp:151-161 | the receiver becomes old receiver - rhs, also when rhs is the receiver |
| Mat3Object.Mat3x3.MulAssign | Mat3x3.cpp:163-168 | the receiver becomes `old * rhs`, the element-wise product |
| Mat3Object.Mat3x3.AddScalarAssign | Mat3x3.cpp:171-181 | the receiver becomes the old value with x added to every cell |
| Mat3Object.Mat3x3.SubScalarAssign | Mat3x3.cpp:183-186 | the receiver becomes the old value with x subtracted from every cell |
| Mat3Object.Mat3x3.MulScalarAssign | Mat3x3.cpp:188-198 | the receiver becomes the old value with every cell times x |
| Mat3Object.Mat3x3.DivAssign | Mat3x3.cpp:200-205 | fails with `DivideByZero` exactly when x == 0, leaving the receiver unchanged; otherwise the receiver becomes the old value times 1/x |
| Mat3Object.Mat3x3.PreIncrement | Mat3x3.cpp:208-211 | the receiver becomes the old value plus 1 at every cell |
| Mat3Object.Mat3x3.PostIncrement | Mat3x3.cpp:213-218 | returns a copy of the old value; the receiver becomes the old value plus 1 at every cell |
| Mat3Object.Mat3x3.PreDecrement | Mat3x3.cpp:221-224 | the receiver becomes the old value minus 1 at every cell |
| Mat3Object.Mat3x3.PostDecrement | Mat3x3.cpp:226-231 | returns a copy of the old value; the receiver becomes the old value minus 1 at every cell |
| Mat3Object.Mat3x3.Get | Mat3x3.cpp:260-265 | the `const` subscript: `OutOfRange` outside [0, 3) x [0, 3), otherwise the cell |
| Mat3Object.Mat3x3.Set | Mat3x3.cpp:253-258 | a write through the mutable subscript: `OutOfRange` (receiver unchanged) outside the range, otherwise exactly that one cell changes |

## Findings

| source | as written | input that shows it | evidently intended | confidence | as-written member | corrected member |
|---|---|---|---|---|---|---|
| main.cpp:31 | `A * aInvSolution == im` compiles through the non-explicit `operator bool` (the type declares no `operator==`), so it compares invertibility, and the `*` is element-wise | `A` and its inverse: the element-wise product has determinant -564, so the check passes although the product is not I | the true product of `A` and its inverse equals I, as the comment at line 30 says | high, not executed | Mat3Laws.SampleChecksAsCompiled | Mat3Laws.SampleCheckNeedsTrueProduct |
| main.cpp:37 | `aInvSolution == AinvComputed` compares the two sides' `operator bool` | I and 2I also pass such a check | the computed inverse equals the demo's written answer | high, not executed | Mat3Laws.SameTruthIsNotEquality | Mat3Laws.InverseOfSample |

## Left out

- Stream operators `>>` and `<<` (Mat3x3.cpp:13-37): console I/O, left out.
- The demo driver (main.cpp) is not modelled as a program. Its sample matrices appear in `Mat3Laws`, and so do its two checks, both as compiled and as its comment intends.
- Floating point: doubles are reals, so there is no rounding, overflow, infinity or NaN. The exact round trips (`++`/`--`, `+=`/`-=`, `/=` after `*=`, the inverse) hold over reals only.
- The move constructor, move assignment and destructor (Mat3x3.h:38-48) have no behaviour beyond a value copy and are not modelled. The copy constructor and copy assignment are modelled because unary `+`, `++(int)`, `--(int)` and matrix `*=` use them.
- Exception types: `std::overflow_error` and `std::invalid_argument` become the tags of one `Error` datatype, returned in a `Result` instead of thrown.
- Returned references: the compound operators return `*this` in C++, which allows chaining such as `(a += 1) *= b`. These methods return nothing, except `DivAssign` and `Set`, which return their `Result`. Chaining is a sequence of calls.
- `Mat3Object.Mat3x3.Set`: the mutable `operator[]` returns a reference that the caller may keep and write through later. The model performs one write at once and does not model a retained reference.
