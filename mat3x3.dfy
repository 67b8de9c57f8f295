/**
 * The class `Mat3x3` itself: a 3x3 buffer of doubles that the compound
 * operators update in place.  Every method is specified by the value model:
 * a method that changes the receiver ties its new `Value()` to a function of
 * the old one, and a method that builds a new matrix ties the new object's
 * `Value()` to a function of the receiver's.  The `const` queries that are a
 * single expression (determinant, trace, the symmetry tests, `isInvertible`,
 * `operator!`, `operator()`, `operator bool`) are the functions of
 * `Mat3Value` applied to `Value()`.
 */
module Mat3Object {
  import opened Mat3Value

  /** Row-major order: cell (a, b) comes before position (i, j). */
  predicate Before(a: int, b: int, i: int, j: int) {
    a < i || (a == i && b < j)
  }

  class Mat3x3 {
    /** The inline `double[3][3]` of the source: no assignment can rebind it. */
    const matrix: array2<real>

    ghost predicate Valid() {
      matrix.Length0 == 3 && matrix.Length1 == 3
    }

    /** The matrix as a value. */
    function Value(): (r: Mat)
      reads matrix
      requires Valid()
      ensures forall i, j :: 0 <= i < 3 && 0 <= j < 3 ==> r[i][j] == matrix[i, j]
    {
      [[matrix[0, 0], matrix[0, 1], matrix[0, 2]],
       [matrix[1, 0], matrix[1, 1], matrix[1, 2]],
       [matrix[2, 0], matrix[2, 1], matrix[2, 2]]]
    }

    /** The cells before (i, j) hold `done`, the others still hold `rest`. */
    ghost predicate Filled(done: Mat, rest: Mat, i: int, j: int)
      reads matrix
      requires Valid()
    {
      forall a, b :: 0 <= a < 3 && 0 <= b < 3 ==>
        matrix[a, b] == if Before(a, b, i, j) then done[a][b] else rest[a][b]
    }

    /** Once all nine cells are filled, the matrix is `done`. */
    lemma Settle(done: Mat, rest: Mat)
      requires Valid() && Filled(done, rest, 3, 0)
      ensures Value() == done
    {
      Equal(Value(), done);
    }

    /** Writes the next cell in row-major order; no other cell changes. */
    method Fill(i: int, j: int, v: real, ghost done: Mat, ghost rest: Mat)
      requires Valid() && 0 <= i < 3 && 0 <= j < 3
      requires Filled(done, rest, i, j) && v == done[i][j]
      modifies matrix
      ensures Valid() && Filled(done, rest, i, j + 1)
      ensures forall a, b :: 0 <= a < 3 && 0 <= b < 3 && !Before(a, b, i, j + 1) ==>
        matrix[a, b] == old(matrix[a, b])
    {
      matrix[i, j] := v;
    }

    /** Finishing a row is starting the next one. */
    lemma NextRow(done: Mat, rest: Mat, i: int)
      requires Valid() && Filled(done, rest, i, 3)
      ensures Filled(done, rest, i + 1, 0)
    {
    }

    // -------------------------------------------------------------------
    // Constructors

    /** The default constructor: every cell 0. */
    constructor ()
      ensures Valid() && fresh(matrix)
      ensures Value() == Zero()
    {
      matrix := new real[3, 3]((i, j) => 0.0);
      new;
      Equal(Value(), Zero());
    }

    /** The parameterised constructor copies the given grid. */
    constructor FromGrid(init: Mat)
      ensures Valid() && fresh(matrix)
      ensures Value() == init
    {
      matrix := new real[3, 3]((i, j) requires 0 <= i < 3 && 0 <= j < 3 => init[i][j]);
      new;
      Equal(Value(), init);
    }

    /** The (defaulted) copy constructor: a new buffer with the same cells. */
    constructor CopyOf(other: Mat3x3)
      requires other.Valid()
      ensures Valid() && fresh(matrix)
      ensures Value() == other.Value()
    {
      matrix := new real[3, 3]((i, j) => 0.0);
      new;
      Assign(other);
    }

    /** The (defaulted) copy assignment: every cell of `other` into this buffer. */
    method Assign(other: Mat3x3)
      requires Valid() && other.Valid()
      modifies matrix
      ensures Valid()
      ensures Value() == old(other.Value())
    {
      ghost var before, source := Value(), other.Value();
      for i := 0 to 3
        invariant Filled(source, before, i, 0)
        invariant forall a, b :: 0 <= a < 3 && 0 <= b < 3 && !Before(a, b, i, 0) ==>
          other.matrix[a, b] == source[a][b]
      {
        for j := 0 to 3
          invariant Filled(source, before, i, j)
          invariant forall a, b :: 0 <= a < 3 && 0 <= b < 3 && !Before(a, b, i, j) ==>
            other.matrix[a, b] == source[a][b]
        {
          Fill(i, j, other.matrix[i, j], source, before);
        }
        NextRow(source, before, i);
      }
      Settle(source, before);
    }

    // -------------------------------------------------------------------
    // Queries that loop

    /** `isIdentity`: first the diagonal, then the off-diagonal cells, stopping at the first miss. */
    method IsIdentity() returns (b: bool)
      requires Valid()
      ensures b == Mat3Value.IsIdentity(Value())
    {
      for i := 0 to 3
        invariant forall k :: 0 <= k < i ==> matrix[k, k] == 1.0
      {
        if matrix[i, i] != 1.0 {
          return false;
        }
      }
      for i := 0 to 3
        invariant forall k :: 0 <= k < 3 ==> matrix[k, k] == 1.0
        invariant forall a, c :: 0 <= a < i && 0 <= c < 3 && a != c ==> matrix[a, c] == 0.0
      {
        for j := 0 to 3
          invariant forall a, c :: 0 <= a < 3 && 0 <= c < 3 && a != c && Before(a, c, i, j) ==>
            matrix[a, c] == 0.0
        {
          if i != j && matrix[i, j] != 0.0 {
            return false;
          }
        }
      }
      return true;
    }

    /** `isOrthogonal`: the identity test on `*this * transpose()`, with the element-wise `*`. */
    method IsOrthogonal() returns (b: bool)
      requires Valid()
      ensures b == Mat3Value.IsOrthogonal(Value())
    {
      var transposed := Transpose();
      var product := Mul(transposed);
      b := product.IsIdentity();
    }

    // -------------------------------------------------------------------
    // Operations that build a new matrix

    method Transpose() returns (t: Mat3x3)
      requires Valid()
      ensures fresh(t) && fresh(t.matrix) && t.Valid()
      ensures t.Value() == Mat3Value.Transpose(Value())
    {
      t := new Mat3x3();
      ghost var target := Mat3Value.Transpose(Value());
      for i := 0 to 3
        invariant t.Valid() && fresh(t.matrix)
        invariant t.Filled(target, Zero(), i, 0)
      {
        for j := 0 to 3
          invariant t.Valid() && fresh(t.matrix)
          invariant t.Filled(target, Zero(), i, j)
        {
          t.Fill(i, j, matrix[j, i], target, Zero());
        }
        t.NextRow(target, Zero(), i);
      }
      t.Settle(target, Zero());
    }

    /**
     * `inverse`: fails when the determinant is exactly 0; otherwise fills the
     * adjoint cell by cell and scales it by 1/det.  The receiver is not changed.
     */
    method Inverse() returns (r: Result<Mat3x3>)
      requires Valid()
      ensures r.Err? <==> Determinant(Value()) == 0.0
      ensures r.Err? ==> r.error == NotInvertible
      ensures r.Ok? ==> fresh(r.value) && fresh(r.value.matrix) && r.value.Valid()
      ensures r.Ok? ==> Mat3Value.Inverse(Value()) == Ok(r.value.Value())
    {
      var det := Determinant(Value());
      if det == 0.0 {
        return Err(NotInvertible);
      }
      var adjoint := AdjointOf();
      adjoint.MulScalarAssign(1.0 / det);
      r := Ok(adjoint);
    }

    /** The adjoint that `inverse` fills in, one 2x2 minor per cell. */
    method AdjointOf() returns (adjoint: Mat3x3)
      requires Valid()
      ensures fresh(adjoint) && fresh(adjoint.matrix) && adjoint.Valid()
      ensures adjoint.Value() == Adjoint(Value())
    {
      var m := Value();
      var c00 := m[1][1] * m[2][2] - m[2][1] * m[1][2];
      var c01 := m[0][2] * m[2][1] - m[0][1] * m[2][2];
      var c02 := m[0][1] * m[1][2] - m[0][2] * m[1][1];
      var c10 := m[1][2] * m[2][0] - m[1][0] * m[2][2];
      var c11 := m[0][0] * m[2][2] - m[0][2] * m[2][0];
      var c12 := m[1][0] * m[0][2] - m[0][0] * m[1][2];
      var c20 := m[1][0] * m[2][1] - m[2][0] * m[1][1];
      var c21 := m[2][0] * m[0][1] - m[0][0] * m[2][1];
      var c22 := m[0][0] * m[1][1] - m[1][0] * m[0][1];
      adjoint := new Mat3x3();
      adjoint.matrix[0, 0] := c00;
      adjoint.matrix[0, 1] := c01;
      adjoint.matrix[0, 2] := c02;
      adjoint.matrix[1, 0] := c10;
      adjoint.matrix[1, 1] := c11;
      adjoint.matrix[1, 2] := c12;
      adjoint.matrix[2, 0] := c20;
      adjoint.matrix[2, 1] := c21;
      adjoint.matrix[2, 2] := c22;
      EqualCells(adjoint.Value(), Adjoint(m));
    }

    /** `operator*(const Mat3x3&)`: each cell accumulates its own product onto a zero matrix. */
    method Mul(rhs: Mat3x3) returns (t: Mat3x3)
      requires Valid() && rhs.Valid()
      ensures fresh(t) && fresh(t.matrix) && t.Valid()
      ensures t.Value() == Hadamard(Value(), rhs.Value())
    {
      t := new Mat3x3();
      ghost var left, right := Value(), rhs.Value();
      ghost var target := Hadamard(left, right);
      for i := 0 to 3
        invariant t.Valid() && fresh(t.matrix)
        invariant t.Filled(target, Zero(), i, 0)
      {
        for j := 0 to 3
          invariant t.Valid() && fresh(t.matrix)
          invariant t.Filled(target, Zero(), i, j)
        {
          var x, y := matrix[i, j], rhs.matrix[i, j];
          assert x == left[i][j] && y == right[i][j];
          t.Fill(i, j, t.matrix[i, j] + x * y, target, Zero());
        }
        t.NextRow(target, Zero(), i);
      }
      t.Settle(target, Zero());
    }

    /** `operator*(double)`. */
    method MulScalar(scalar: real) returns (t: Mat3x3)
      requires Valid()
      ensures fresh(t) && fresh(t.matrix) && t.Valid()
      ensures t.Value() == Scale(Value(), scalar)
    {
      t := new Mat3x3();
      ghost var target := Scale(Value(), scalar);
      for i := 0 to 3
        invariant t.Valid() && fresh(t.matrix)
        invariant t.Filled(target, Zero(), i, 0)
      {
        for j := 0 to 3
          invariant t.Valid() && fresh(t.matrix)
          invariant t.Filled(target, Zero(), i, j)
        {
          var x := matrix[i, j];
          t.Fill(i, j, x * scalar, target, Zero());
        }
        t.NextRow(target, Zero(), i);
      }
      t.Settle(target, Zero());
    }

    /** Unary minus. */
    method Negated() returns (t: Mat3x3)
      requires Valid()
      ensures fresh(t) && fresh(t.matrix) && t.Valid()
      ensures t.Value() == Negate(Value())
    {
      t := new Mat3x3();
      ghost var target := Negate(Value());
      for i := 0 to 3
        invariant t.Valid() && fresh(t.matrix)
        invariant t.Filled(target, Zero(), i, 0)
      {
        for j := 0 to 3
          invariant t.Valid() && fresh(t.matrix)
          invariant t.Filled(target, Zero(), i, j)
        {
          t.Fill(i, j, -matrix[i, j], target, Zero());
        }
        t.NextRow(target, Zero(), i);
      }
      t.Settle(target, Zero());
    }

    /** Unary plus: a copy. */
    method Plus() returns (t: Mat3x3)
      requires Valid()
      ensures fresh(t) && fresh(t.matrix) && t.Valid()
      ensures t.Value() == Value()
    {
      t := new Mat3x3.CopyOf(this);
    }

    // -------------------------------------------------------------------
    // Compound assignment

    /** `+=` with a matrix; `rhs` may be this very object. */
    method AddAssign(rhs: Mat3x3)
      requires Valid() && rhs.Valid()
      modifies matrix
      ensures Valid()
      ensures Value() == Add(old(Value()), old(rhs.Value()))
    {
      ghost var before, other := Value(), rhs.Value();
      ghost var target := Add(before, other);
      for i := 0 to 3
        invariant Filled(target, before, i, 0)
        invariant forall a, b :: 0 <= a < 3 && 0 <= b < 3 && !Before(a, b, i, 0) ==>
          rhs.matrix[a, b] == other[a][b]
      {
        for j := 0 to 3
          invariant Filled(target, before, i, j)
          invariant forall a, b :: 0 <= a < 3 && 0 <= b < 3 && !Before(a, b, i, j) ==>
            rhs.matrix[a, b] == other[a][b]
        {
          Fill(i, j, matrix[i, j] + rhs.matrix[i, j], target, before);
        }
        NextRow(target, before, i);
      }
      Settle(target, before);
    }

    /** `-=` with a matrix; `rhs` may be this very object. */
    method SubAssign(rhs: Mat3x3)
      requires Valid() && rhs.Valid()
      modifies matrix
      ensures Valid()
      ensures Value() == Sub(old(Value()), old(rhs.Value()))
    {
      ghost var before, other := Value(), rhs.Value();
      ghost var target := Sub(before, other);
      for i := 0 to 3
        invariant Filled(target, before, i, 0)
        invariant forall a, b :: 0 <= a < 3 && 0 <= b < 3 && !Before(a, b, i, 0) ==>
          rhs.matrix[a, b] == other[a][b]
      {
        for j := 0 to 3
          invariant Filled(target, before, i, j)
          invariant forall a, b :: 0 <= a < 3 && 0 <= b < 3 && !Before(a, b, i, j) ==>
            rhs.matrix[a, b] == other[a][b]
        {
          Fill(i, j, matrix[i, j] - rhs.matrix[i, j], target, before);
        }
        NextRow(target, before, i);
      }
      Settle(target, before);
    }

    /** `*=` with a matrix: `*this * rhs` (element-wise), then copied back. */
    method MulAssign(rhs: Mat3x3)
      requires Valid() && rhs.Valid()
      modifies matrix
      ensures Valid()
      ensures Value() == Hadamard(old(Value()), old(rhs.Value()))
    {
      var temp := Mul(rhs);
      Assign(temp);
    }

    /** `+=` with a scalar: adds `x` to every cell. */
    method AddScalarAssign(x: real)
      requires Valid()
      modifies matrix
      ensures Valid()
      ensures Value() == AddScalar(old(Value()), x)
    {
      ghost var before := Value();
      ghost var target := AddScalar(before, x);
      for i := 0 to 3
        invariant Filled(target, before, i, 0)
      {
        for j := 0 to 3
          invariant Filled(target, before, i, j)
        {
          Fill(i, j, matrix[i, j] + x, target, before);
        }
        NextRow(target, before, i);
      }
      Settle(target, before);
    }

    /** `-=` with a scalar, written as `+= -x`. */
    method SubScalarAssign(x: real)
      requires Valid()
      modifies matrix
      ensures Valid()
      ensures Value() == SubScalar(old(Value()), x)
    {
      AddScalarAssign(-x);
    }

    /** `*=` with a scalar: multiplies every cell by `x`. */
    method MulScalarAssign(x: real)
      requires Valid()
      modifies matrix
      ensures Valid()
      ensures Value() == Scale(old(Value()), x)
    {
      ghost var before := Value();
      ghost var target := Scale(before, x);
      for i := 0 to 3
        invariant Filled(target, before, i, 0)
      {
        for j := 0 to 3
          invariant Filled(target, before, i, j)
        {
          var cell := matrix[i, j];
          Fill(i, j, cell * x, target, before);
        }
        NextRow(target, before, i);
      }
      Settle(target, before);
    }

    /** `/=`: fails on 0 with nothing changed, otherwise `*= 1/x`. */
    method DivAssign(x: real) returns (r: Result<()>)
      requires Valid()
      modifies matrix
      ensures Valid()
      ensures r.Err? <==> x == 0.0
      ensures r.Err? ==> r.error == DivideByZero && Value() == old(Value())
      ensures r.Ok? ==> DivScalar(old(Value()), x) == Ok(Value())
    {
      if x == 0.0 {
        return Err(DivideByZero);
      }
      MulScalarAssign(1.0 / x);
      r := Ok(());
    }

    // -------------------------------------------------------------------
    // Increment and decrement

    /** Prefix `++`: `+= 1`. */
    method PreIncrement()
      requires Valid()
      modifies matrix
      ensures Valid()
      ensures Value() == Increment(old(Value()))
    {
      AddScalarAssign(1.0);
    }

    /** Prefix `--`: `-= 1`. */
    method PreDecrement()
      requires Valid()
      modifies matrix
      ensures Valid()
      ensures Value() == Decrement(old(Value()))
    {
      SubScalarAssign(1.0);
    }

    /** Postfix `++`: returns a copy taken before the increment. */
    method PostIncrement() returns (previous: Mat3x3)
      requires Valid()
      modifies matrix
      ensures Valid()
      ensures fresh(previous) && fresh(previous.matrix) && previous.Valid()
      ensures previous.Value() == old(Value())
      ensures Value() == Increment(old(Value()))
    {
      previous := new Mat3x3.CopyOf(this);
      PreIncrement();
    }

    /** Postfix `--`: returns a copy taken before the decrement. */
    method PostDecrement() returns (previous: Mat3x3)
      requires Valid()
      modifies matrix
      ensures Valid()
      ensures fresh(previous) && fresh(previous.matrix) && previous.Valid()
      ensures previous.Value() == old(Value())
      ensures Value() == Decrement(old(Value()))
    {
      previous := new Mat3x3.CopyOf(this);
      PreDecrement();
    }

    // -------------------------------------------------------------------
    // Subscript

    /** The `const` subscript: the cell, or `OutOfRange` outside [0, 3) x [0, 3). */
    method Get(row: int, col: int) returns (r: Result<real>)
      requires Valid()
      ensures r == At(Value(), row, col)
    {
      if row < 0 || row >= 3 || col < 0 || col >= 3 {
        return Err(OutOfRange);
      }
      r := Ok(matrix[row, col]);
    }

    /** Assigning through the mutable subscript: one cell changes, or none on `OutOfRange`. */
    method Set(row: int, col: int, v: real) returns (r: Result<()>)
      requires Valid()
      modifies matrix
      ensures Valid()
      ensures r.Err? <==> !(InRange(row) && InRange(col))
      ensures r.Err? ==> r.error == OutOfRange && Value() == old(Value())
      ensures r.Ok? ==> Update(old(Value()), row, col, v) == Ok(Value())
    {
      if row < 0 || row >= 3 || col < 0 || col >= 3 {
        return Err(OutOfRange);
      }
      ghost var before := Value();
      matrix[row, col] := v;
      Equal(Value(), before[row := before[row][col := v]]);
      r := Ok(());
    }
  }
}
