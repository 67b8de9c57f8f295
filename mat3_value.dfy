/**
 * The value semantics of the 3x3 matrix type `Mat3x3`.
 *
 * A matrix is a 3 by 3 grid of reals, addressed as `m[row][col]`.  Every
 * `const` member of the class (the queries, the predicates, transpose,
 * inverse, unary minus and both binary `*`) is a function here; the
 * in-place operators of the class are specified by these functions too.
 * Doubles are modelled as reals, so no rounding happens anywhere.
 */
module Mat3Value {

  /** The three ways an operation on the matrix can fail. */
  datatype Error =
    | OutOfRange     // a subscript with a row or a column outside [0, 3)
    | DivideByZero   // `/=` with a divisor equal to 0
    | NotInvertible  // `inverse` of a matrix whose determinant is exactly 0

  datatype Result<+T> = Ok(value: T) | Err(error: Error)

  /** The indices that the bounds-checked subscript accepts. */
  predicate InRange(k: int) {
    0 <= k < 3
  }

  predicate Is3x3(g: seq<seq<real>>) {
    |g| == 3 && forall i :: 0 <= i < 3 ==> |g[i]| == 3
  }

  /** A 3x3 grid; the shape is part of the type, as with `std::array`. */
  type Mat = g: seq<seq<real>> | Is3x3(g)
    witness [[0.0, 0.0, 0.0], [0.0, 0.0, 0.0], [0.0, 0.0, 0.0]]

  type PositiveReal = r: real | r > 0.0 witness 1.0

  /**
   * The machine epsilon of `double` that `isInvertible` compares against:
   * the gap between 1 and the next double, 2^-52.
   */
  const Epsilon: PositiveReal := 1.0 / 4503599627370496.0

  function Abs(x: real): real {
    if x < 0.0 then -x else x
  }

  /** Two matrices that agree on every cell are equal. */
  lemma Equal(a: Mat, b: Mat)
    requires forall i, j :: 0 <= i < 3 && 0 <= j < 3 ==> a[i][j] == b[i][j]
    ensures a == b
  {
    forall i | 0 <= i < 3
      ensures a[i] == b[i]
    {
    }
  }

  /** The same, with the nine cells named one by one. */
  lemma EqualCells(a: Mat, b: Mat)
    requires a[0][0] == b[0][0] && a[0][1] == b[0][1] && a[0][2] == b[0][2]
    requires a[1][0] == b[1][0] && a[1][1] == b[1][1] && a[1][2] == b[1][2]
    requires a[2][0] == b[2][0] && a[2][1] == b[2][1] && a[2][2] == b[2][2]
    ensures a == b
  {
    forall i, j | 0 <= i < 3 && 0 <= j < 3
      ensures a[i][j] == b[i][j]
    {
      assert (i == 0 || i == 1 || i == 2) && (j == 0 || j == 1 || j == 2);
    }
    Equal(a, b);
  }

  // ---------------------------------------------------------------------
  // Construction

  /** The value the default constructor gives: all nine cells 0. */
  function Zero(): Mat {
    [[0.0, 0.0, 0.0], [0.0, 0.0, 0.0], [0.0, 0.0, 0.0]]
  }

  /** The identity matrix, the value `isIdentity` looks for. */
  function Identity(): Mat {
    [[1.0, 0.0, 0.0], [0.0, 1.0, 0.0], [0.0, 0.0, 1.0]]
  }

  /** A grid whose every cell is `f` of its row and column. */
  function Tabulate(f: (int, int) -> real): Mat {
    seq(3, i => seq(3, j => f(i, j)))
  }

  // ---------------------------------------------------------------------
  // Scalar queries

  /** The six-term sum over the permutations of three columns, with their signs. */
  function Leibniz(m: Mat): real {
    m[0][0] * m[1][1] * m[2][2] + m[0][1] * m[1][2] * m[2][0] + m[0][2] * m[1][0] * m[2][1]
    - m[0][2] * m[1][1] * m[2][0] - m[0][1] * m[1][0] * m[2][2] - m[0][0] * m[1][2] * m[2][1]
  }

  /** First-row cofactor expansion, term for term as `determinant` writes it. */
  function Determinant(m: Mat): (r: real)
    ensures r == Leibniz(m)
  {
    m[0][0] * (m[1][1] * m[2][2] - m[2][1] * m[1][2]) -
    m[0][1] * (m[1][0] * m[2][2] - m[2][0] * m[1][2]) +
    m[0][2] * (m[1][0] * m[2][1] - m[2][0] * m[1][1])
  }

  function Trace(m: Mat): real {
    m[0][0] + m[1][1] + m[2][2]
  }

  // ---------------------------------------------------------------------
  // Structural predicates (exact comparisons, as in the source)

  /** Compares the three pairs above and below the diagonal; the diagonal is not looked at. */
  predicate IsAntisymmetric(m: Mat)
    ensures IsAntisymmetric(m) <==>
      forall i, j :: 0 <= i < 3 && 0 <= j < 3 && i != j ==> m[i][j] == -m[j][i]
  {
    m[0][1] == -m[1][0] &&
    m[0][2] == -m[2][0] &&
    m[1][2] == -m[2][1]
  }

  /** Compares the same three pairs for equality. */
  predicate IsSymmetric(m: Mat)
    ensures IsSymmetric(m) <==> forall i, j :: 0 <= i < 3 && 0 <= j < 3 ==> m[i][j] == m[j][i]
  {
    m[0][1] == m[1][0] &&
    m[0][2] == m[2][0] &&
    m[1][2] == m[2][1]
  }

  /** The determinant lies farther than `Epsilon` from 0; then `inverse` succeeds. */
  predicate IsInvertible(m: Mat)
    ensures IsInvertible(m) <==> Determinant(m) < -(Epsilon as real) || Epsilon < Determinant(m)
    ensures IsInvertible(m) ==> Inverse(m).Ok?
  {
    Abs(Determinant(m)) > Epsilon
  }

  /** The diagonal cells are all 1 and then the off-diagonal cells are all 0. */
  predicate IsIdentity(m: Mat) {
    (forall i :: 0 <= i < 3 ==> m[i][i] == 1.0) &&
    (forall i, j :: 0 <= i < 3 && 0 <= j < 3 && i != j ==> m[i][j] == 0.0)
  }

  /** The identity test applied to the element-wise product of `m` and its transpose. */
  predicate IsOrthogonal(m: Mat) {
    IsIdentity(Hadamard(m, Transpose(m)))
  }

  // ---------------------------------------------------------------------
  // Matrices built from matrices

  function Transpose(m: Mat): Mat {
    Tabulate((i, j) => if InRange(i) && InRange(j) then m[j][i] else 0.0)
  }

  /** The adjoint (transposed cofactor matrix), with the nine 2x2 minors `inverse` uses. */
  function Adjoint(m: Mat): Mat {
    [[m[1][1] * m[2][2] - m[2][1] * m[1][2],
      m[0][2] * m[2][1] - m[0][1] * m[2][2],
      m[0][1] * m[1][2] - m[0][2] * m[1][1]],
     [m[1][2] * m[2][0] - m[1][0] * m[2][2],
      m[0][0] * m[2][2] - m[0][2] * m[2][0],
      m[1][0] * m[0][2] - m[0][0] * m[1][2]],
     [m[1][0] * m[2][1] - m[2][0] * m[1][1],
      m[2][0] * m[0][1] - m[0][0] * m[2][1],
      m[0][0] * m[1][1] - m[1][0] * m[0][1]]]
  }

  /** Fails only on a determinant of exactly 0; otherwise the adjoint times 1/det. */
  function Inverse(m: Mat): Result<Mat> {
    var det := Determinant(m);
    if det == 0.0 then Err(NotInvertible)
    else Ok(Scale(Adjoint(m), 1.0 / det))
  }

  function Add(a: Mat, b: Mat): Mat {
    Tabulate((i, j) => if InRange(i) && InRange(j) then a[i][j] + b[i][j] else 0.0)
  }

  function Sub(a: Mat, b: Mat): Mat {
    Tabulate((i, j) => if InRange(i) && InRange(j) then a[i][j] - b[i][j] else 0.0)
  }

  /** Matrix times matrix in this type: the element-wise product. */
  function Hadamard(a: Mat, b: Mat): Mat {
    Tabulate((i, j) => if InRange(i) && InRange(j) then a[i][j] * b[i][j] else 0.0)
  }

  function AddScalar(m: Mat, x: real): Mat {
    Tabulate((i, j) => if InRange(i) && InRange(j) then m[i][j] + x else 0.0)
  }

  /** `-= x` is `+= -x`. */
  function SubScalar(m: Mat, x: real): Mat {
    AddScalar(m, -x)
  }

  /** Matrix times scalar, for both `*= x` and `* x`. */
  function Scale(m: Mat, x: real): Mat {
    Tabulate((i, j) => if InRange(i) && InRange(j) then m[i][j] * x else 0.0)
  }

  /** `/= x` fails on 0 and otherwise multiplies by 1/x. */
  function DivScalar(m: Mat, x: real): Result<Mat> {
    if x == 0.0 then Err(DivideByZero) else Ok(Scale(m, 1.0 / x))
  }

  /** `++` adds 1 to every cell. */
  function Increment(m: Mat): Mat {
    AddScalar(m, 1.0)
  }

  /** `--` is `-= 1`. */
  function Decrement(m: Mat): Mat {
    SubScalar(m, 1.0)
  }

  function Negate(m: Mat): Mat {
    Tabulate((i, j) => if InRange(i) && InRange(j) then -m[i][j] else 0.0)
  }

  // ---------------------------------------------------------------------
  // Subscript

  /** Reading `m[{row, col}]`, through either subscript form. */
  function At(m: Mat, row: int, col: int): Result<real> {
    if row < 0 || row >= 3 || col < 0 || col >= 3 then Err(OutOfRange)
    else Ok(m[row][col])
  }

  /** The value after assigning `v` through the mutable subscript `m[{row, col}]`. */
  function Update(m: Mat, row: int, col: int, v: real): Result<Mat> {
    if row < 0 || row >= 3 || col < 0 || col >= 3 then Err(OutOfRange)
    else Ok(m[row := m[row][col := v]])
  }

  // ---------------------------------------------------------------------
  // Conversion operators

  /** `operator!`: the determinant lies within `Epsilon` of 0. */
  predicate Not(m: Mat)
    ensures Not(m) <==> -(Epsilon as real) <= Determinant(m) <= Epsilon
    ensures !Not(m) ==> Inverse(m).Ok?
  {
    !IsInvertible(m)
  }

  /** `operator()`: the determinant, which is the Leibniz sum. */
  function Call(m: Mat): (r: real)
    ensures r == Leibniz(m)
  {
    Determinant(m)
  }

  /** `operator bool`: the determinant lies outside [-Epsilon, Epsilon]. */
  predicate ToBool(m: Mat)
    ensures ToBool(m) <==> Determinant(m) < -(Epsilon as real) || Epsilon < Determinant(m)
    ensures ToBool(m) ==> Inverse(m).Ok?
  {
    IsInvertible(m)
  }

  /**
   * What `a == b` computes for this type.  No `operator==` is declared, and
   * `operator bool` is not `explicit`, so both sides are converted to `bool`
   * and their invertibility is compared.
   */
  predicate SameTruth(a: Mat, b: Mat) {
    ToBool(a) == ToBool(b)
  }

  // ---------------------------------------------------------------------
  // Reference definitions that the type itself does not offer

  /** Three entries against three others. */
  function Weighted(p: real, q: real, r: real, x: real, y: real, z: real): real {
    p * x + q * y + r * z
  }

  /** Row `i` of `a` times column `j` of `b`. */
  function Dot(a: Mat, b: Mat, i: int, j: int): real
    requires InRange(i) && InRange(j)
  {
    Weighted(a[i][0], a[i][1], a[i][2], b[0][j], b[1][j], b[2][j])
  }

  /** The row-by-column matrix product, used to state what an inverse and an orthogonal matrix are. */
  function Product(a: Mat, b: Mat): Mat {
    Tabulate((i, j) => if InRange(i) && InRange(j) then Dot(a, b, i, j) else 0.0)
  }
}
