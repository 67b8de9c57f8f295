/**
 * What the operations of `Mat3x3` promise, stated over the value model:
 * round trips of the arithmetic operators, transpose and symmetry, the
 * determinant and a true inverse over the reals, the subscript's bounds
 * and frame, and the two quirks of the source (the element-wise `*` inside
 * `isOrthogonal`, and `isAntisymmetric` ignoring the diagonal).
 */
module Mat3Laws {
  import opened Mat3Value

  // ---------------------------------------------------------------------
  // Determinant and trace

  /** The matrix used to pin the signs of the cofactor expansion. */
  function SampleA(): Mat {
    [[1.0, 1.0, -2.0], [-3.0, -2.0, 5.0], [-6.0, 4.0, 4.0]]
  }

  /** The source's expansion gives 2 for this matrix. */
  lemma DeterminantOfSample()
    ensures Determinant(SampleA()) == 2.0
  {
    var a := SampleA();
    assert a[0] == [1.0, 1.0, -2.0] && a[1] == [-3.0, -2.0, 5.0] && a[2] == [-6.0, 4.0, 4.0];
  }

  /** The inverse of `SampleA` that the demo driver writes down: half of an integer matrix. */
  function SampleInverse(): Mat {
    Scale([[-28.0, -12.0, 1.0], [-18.0, -8.0, 1.0], [-24.0, -10.0, 1.0]], 0.5)
  }

  lemma InverseOfSample()
    ensures Inverse(SampleA()) == Ok(SampleInverse())
  {
    var a := SampleA();
    DeterminantOfSample();
    assert a[0] == [1.0, 1.0, -2.0] && a[1] == [-3.0, -2.0, 5.0] && a[2] == [-6.0, 4.0, 4.0];
    EqualCells(Adjoint(a), [[-28.0, -12.0, 1.0], [-18.0, -8.0, 1.0], [-24.0, -10.0, 1.0]]);
  }

  lemma DeterminantOfTranspose(m: Mat)
    ensures Determinant(Transpose(m)) == Determinant(m)
  {
    TransposeLiteral(m);
    assert Leibniz(Transpose(m)) == Leibniz(m);
  }

  lemma TraceOfTranspose(m: Mat)
    ensures Trace(Transpose(m)) == Trace(m)
  {
  }

  lemma TraceOfSum(a: Mat, b: Mat)
    ensures Trace(Add(a, b)) == Trace(a) + Trace(b)
  {
  }

  // ---------------------------------------------------------------------
  // Transpose and symmetry

  /** The transpose written out cell by cell. */
  lemma TransposeLiteral(m: Mat)
    ensures Transpose(m) ==
      [[m[0][0], m[1][0], m[2][0]], [m[0][1], m[1][1], m[2][1]], [m[0][2], m[1][2], m[2][2]]]
  {
    EqualCells(Transpose(m),
      [[m[0][0], m[1][0], m[2][0]], [m[0][1], m[1][1], m[2][1]], [m[0][2], m[1][2], m[2][2]]]);
  }

  lemma TransposeCells(m: Mat)
    ensures forall i, j :: 0 <= i < 3 && 0 <= j < 3 ==> Transpose(m)[i][j] == m[j][i]
  {
  }

  lemma {:induction false} TransposeTwice(m: Mat)
    ensures Transpose(Transpose(m)) == m
  {
    Equal(Transpose(Transpose(m)), m);
  }

  lemma SymmetricIffTransposeFixed(m: Mat)
    ensures IsSymmetric(m) <==> Transpose(m) == m
  {
    if IsSymmetric(m) {
      Equal(Transpose(m), m);
    } else {
      var t := Transpose(m);
      assert t[0][1] == m[1][0] && t[0][2] == m[2][0] && t[1][2] == m[2][1];
    }
  }

  /**
   * True antisymmetry (`m` equals minus its transpose) needs a zero diagonal
   * on top of what `isAntisymmetric` checks.
   */
  lemma TrueAntisymmetryNeedsZeroDiagonal(m: Mat)
    ensures Negate(Transpose(m)) == m <==>
      IsAntisymmetric(m) && m[0][0] == 0.0 && m[1][1] == 0.0 && m[2][2] == 0.0
  {
    var n := Negate(Transpose(m));
    if IsAntisymmetric(m) && m[0][0] == 0.0 && m[1][1] == 0.0 && m[2][2] == 0.0 {
      Equal(n, m);
    }
    assert n[0][0] == -m[0][0] && n[1][1] == -m[1][1] && n[2][2] == -m[2][2];
    assert n[0][1] == -m[1][0] && n[0][2] == -m[2][0] && n[1][2] == -m[2][1];
  }

  /** The identity passes `isAntisymmetric` although it is not antisymmetric. */
  lemma IdentityPassesAntisymmetric()
    ensures IsAntisymmetric(Identity())
    ensures Negate(Transpose(Identity())) != Identity()
  {
    TrueAntisymmetryNeedsZeroDiagonal(Identity());
  }

  // ---------------------------------------------------------------------
  // Identity and orthogonality

  lemma IdentityIff(m: Mat)
    ensures IsIdentity(m) <==> m == Identity()
  {
    if IsIdentity(m) {
      Equal(m, Identity());
    }
  }

  /** Hadamard is the cell-by-cell product, and it commutes. */
  lemma HadamardCells(a: Mat, b: Mat)
    ensures forall i, j :: 0 <= i < 3 && 0 <= j < 3 ==> Hadamard(a, b)[i][j] == a[i][j] * b[i][j]
    ensures Hadamard(a, b) == Hadamard(b, a)
  {
    Equal(Hadamard(a, b), Hadamard(b, a));
  }

  /** The all-ones matrix, on which the element-wise and the true product differ. */
  function Ones(): Mat {
    [[1.0, 1.0, 1.0], [1.0, 1.0, 1.0], [1.0, 1.0, 1.0]]
  }

  lemma HadamardIsNotProduct()
    ensures Hadamard(Ones(), Ones()) == Ones()
    ensures Product(Ones(), Ones())[0][0] == 3.0
  {
    Equal(Hadamard(Ones(), Ones()), Ones());
  }

  /**
   * What `isOrthogonal` actually tests: each diagonal cell squares to 1 and
   * each pair of mirrored cells has a zero product.
   */
  lemma OrthogonalMeans(m: Mat)
    ensures IsOrthogonal(m) <==>
      (forall i :: 0 <= i < 3 ==> m[i][i] * m[i][i] == 1.0) &&
      (forall i, j :: 0 <= i < 3 && 0 <= j < 3 && i != j ==> m[i][j] * m[j][i] == 0.0)
  {
    var h := Hadamard(m, Transpose(m));
    assert forall i, j :: 0 <= i < 3 && 0 <= j < 3 ==> h[i][j] == m[i][j] * m[j][i];
  }

  /** A shear: accepted by `isOrthogonal` though its rows are not orthonormal. */
  function Shear(): Mat {
    [[1.0, 1.0, 0.0], [0.0, 1.0, 0.0], [0.0, 0.0, 1.0]]
  }

  /** A row swap: orthogonal in the true sense but rejected by `isOrthogonal`. */
  function Swap(): Mat {
    [[0.0, 1.0, 0.0], [1.0, 0.0, 0.0], [0.0, 0.0, 1.0]]
  }

  lemma ShearPassesOrthogonal()
    ensures IsOrthogonal(Shear())
    ensures Product(Shear(), Transpose(Shear())) != Identity()
  {
    OrthogonalMeans(Shear());
    TransposeLiteral(Shear());
    assert Product(Shear(), Transpose(Shear()))[0][0] == 2.0;
  }

  lemma SwapFailsOrthogonal()
    ensures !IsOrthogonal(Swap())
  {
    OrthogonalMeans(Swap());
    assert Swap()[0][0] * Swap()[0][0] != 1.0;
  }

  lemma SwapIsTrulyOrthogonal()
    ensures Product(Swap(), Transpose(Swap())) == Identity()
  {
    TransposeLiteral(Swap());
    EqualCells(Product(Swap(), Transpose(Swap())), Identity());
  }

  // ---------------------------------------------------------------------
  // Inverse

  // The six diagonal expansions, as identities over the nine cells
  // [[a, b, c], [d, e, f], [g, h, k]] and the three adjoint cells x, y, z
  // that each one uses: each equals the first-row expansion.  Stated over
  // plain reals, the polynomial arithmetic stays apart from the sequence
  // lookups, and the matrix lemmas only have to match `Weighted` and
  // `FirstRow` terms.

  /** The first-row expansion that `determinant` computes, over nine named cells. */
  function FirstRow(a: real, b: real, c: real, d: real, e: real, f: real, g: real, h: real, k: real): real {
    a * (e * k - h * f) - b * (d * k - g * f) + c * (d * h - g * e)
  }

  lemma DeterminantCells(m: Mat)
    ensures Determinant(m) == FirstRow(m[0][0], m[0][1], m[0][2], m[1][0], m[1][1], m[1][2], m[2][0], m[2][1], m[2][2])
  {
  }

  lemma RowExpansion0(a: real, b: real, c: real, d: real, e: real, f: real, g: real, h: real, k: real,
      x: real, y: real, z: real)
    requires x == e * k - h * f && y == f * g - d * k && z == d * h - g * e
    ensures Weighted(a, b, c, x, y, z) == FirstRow(a, b, c, d, e, f, g, h, k)
  {
  }

  lemma RowExpansion1(a: real, b: real, c: real, d: real, e: real, f: real, g: real, h: real, k: real,
      x: real, y: real, z: real)
    requires x == c * h - b * k && y == a * k - c * g && z == g * b - a * h
    ensures Weighted(d, e, f, x, y, z) == FirstRow(a, b, c, d, e, f, g, h, k)
  {
  }

  lemma RowExpansion2(a: real, b: real, c: real, d: real, e: real, f: real, g: real, h: real, k: real,
      x: real, y: real, z: real)
    requires x == b * f - c * e && y == d * c - a * f && z == a * e - d * b
    ensures Weighted(g, h, k, x, y, z) == FirstRow(a, b, c, d, e, f, g, h, k)
  {
  }

  lemma ColumnExpansion0(a: real, b: real, c: real, d: real, e: real, f: real, g: real, h: real, k: real,
      x: real, y: real, z: real)
    requires x == e * k - h * f && y == c * h - b * k && z == b * f - c * e
    ensures Weighted(x, y, z, a, d, g) == FirstRow(a, b, c, d, e, f, g, h, k)
  {
  }

  lemma ColumnExpansion1(a: real, b: real, c: real, d: real, e: real, f: real, g: real, h: real, k: real,
      x: real, y: real, z: real)
    requires x == f * g - d * k && y == a * k - c * g && z == d * c - a * f
    ensures Weighted(x, y, z, b, e, h) == FirstRow(a, b, c, d, e, f, g, h, k)
  {
  }

  lemma ColumnExpansion2(a: real, b: real, c: real, d: real, e: real, f: real, g: real, h: real, k: real,
      x: real, y: real, z: real)
    requires x == d * h - g * e && y == g * b - a * h && z == a * e - d * b
    ensures Weighted(x, y, z, c, f, k) == FirstRow(a, b, c, d, e, f, g, h, k)
  {
  }

  // Cofactor expansions: row i of `m` against column j of its adjoint is the
  // determinant when i == j (expansion along row i) and 0 otherwise (the
  // expansion of a matrix with two equal rows).

  lemma Cofactor00(m: Mat)
    ensures Dot(m, Adjoint(m), 0, 0) == Determinant(m)
  {
    var adj := Adjoint(m);
    assert adj[0][0] == m[1][1] * m[2][2] - m[2][1] * m[1][2];
    assert adj[1][0] == m[1][2] * m[2][0] - m[1][0] * m[2][2];
    assert adj[2][0] == m[1][0] * m[2][1] - m[2][0] * m[1][1];
    RowExpansion0(m[0][0], m[0][1], m[0][2], m[1][0], m[1][1], m[1][2], m[2][0], m[2][1], m[2][2],
      adj[0][0], adj[1][0], adj[2][0]);
    DeterminantCells(m);
  }

  lemma Cofactor01(m: Mat)
    ensures Dot(m, Adjoint(m), 0, 1) == 0.0
  {
    var adj := Adjoint(m);
    assert adj[0][1] == m[0][2] * m[2][1] - m[0][1] * m[2][2];
    assert adj[1][1] == m[0][0] * m[2][2] - m[0][2] * m[2][0];
    assert adj[2][1] == m[2][0] * m[0][1] - m[0][0] * m[2][1];
  }

  lemma Cofactor02(m: Mat)
    ensures Dot(m, Adjoint(m), 0, 2) == 0.0
  {
    var adj := Adjoint(m);
    assert adj[0][2] == m[0][1] * m[1][2] - m[0][2] * m[1][1];
    assert adj[1][2] == m[1][0] * m[0][2] - m[0][0] * m[1][2];
    assert adj[2][2] == m[0][0] * m[1][1] - m[1][0] * m[0][1];
  }

  lemma Cofactor10(m: Mat)
    ensures Dot(m, Adjoint(m), 1, 0) == 0.0
  {
    var adj := Adjoint(m);
    assert adj[0][0] == m[1][1] * m[2][2] - m[2][1] * m[1][2];
    assert adj[1][0] == m[1][2] * m[2][0] - m[1][0] * m[2][2];
    assert adj[2][0] == m[1][0] * m[2][1] - m[2][0] * m[1][1];
  }

  lemma Cofactor11(m: Mat)
    ensures Dot(m, Adjoint(m), 1, 1) == Determinant(m)
  {
    var adj := Adjoint(m);
    assert adj[0][1] == m[0][2] * m[2][1] - m[0][1] * m[2][2];
    assert adj[1][1] == m[0][0] * m[2][2] - m[0][2] * m[2][0];
    assert adj[2][1] == m[2][0] * m[0][1] - m[0][0] * m[2][1];
    RowExpansion1(m[0][0], m[0][1], m[0][2], m[1][0], m[1][1], m[1][2], m[2][0], m[2][1], m[2][2],
      adj[0][1], adj[1][1], adj[2][1]);
    DeterminantCells(m);
  }

  lemma Cofactor12(m: Mat)
    ensures Dot(m, Adjoint(m), 1, 2) == 0.0
  {
    var adj := Adjoint(m);
    assert adj[0][2] == m[0][1] * m[1][2] - m[0][2] * m[1][1];
    assert adj[1][2] == m[1][0] * m[0][2] - m[0][0] * m[1][2];
    assert adj[2][2] == m[0][0] * m[1][1] - m[1][0] * m[0][1];
  }

  lemma Cofactor20(m: Mat)
    ensures Dot(m, Adjoint(m), 2, 0) == 0.0
  {
    var adj := Adjoint(m);
    assert adj[0][0] == m[1][1] * m[2][2] - m[2][1] * m[1][2];
    assert adj[1][0] == m[1][2] * m[2][0] - m[1][0] * m[2][2];
    assert adj[2][0] == m[1][0] * m[2][1] - m[2][0] * m[1][1];
  }

  lemma Cofactor21(m: Mat)
    ensures Dot(m, Adjoint(m), 2, 1) == 0.0
  {
    var adj := Adjoint(m);
    assert adj[0][1] == m[0][2] * m[2][1] - m[0][1] * m[2][2];
    assert adj[1][1] == m[0][0] * m[2][2] - m[0][2] * m[2][0];
    assert adj[2][1] == m[2][0] * m[0][1] - m[0][0] * m[2][1];
  }

  lemma Cofactor22(m: Mat)
    ensures Dot(m, Adjoint(m), 2, 2) == Determinant(m)
  {
    var adj := Adjoint(m);
    assert adj[0][2] == m[0][1] * m[1][2] - m[0][2] * m[1][1];
    assert adj[1][2] == m[1][0] * m[0][2] - m[0][0] * m[1][2];
    assert adj[2][2] == m[0][0] * m[1][1] - m[1][0] * m[0][1];
    RowExpansion2(m[0][0], m[0][1], m[0][2], m[1][0], m[1][1], m[1][2], m[2][0], m[2][1], m[2][2],
      adj[0][2], adj[1][2], adj[2][2]);
    DeterminantCells(m);
  }

  // Column j of `m` against row i of its adjoint: the expansion along a column.

  lemma AdjointColumn00(m: Mat)
    ensures Dot(Adjoint(m), m, 0, 0) == Determinant(m)
  {
    var adj := Adjoint(m);
    assert adj[0][0] == m[1][1] * m[2][2] - m[2][1] * m[1][2];
    assert adj[0][1] == m[0][2] * m[2][1] - m[0][1] * m[2][2];
    assert adj[0][2] == m[0][1] * m[1][2] - m[0][2] * m[1][1];
    ColumnExpansion0(m[0][0], m[0][1], m[0][2], m[1][0], m[1][1], m[1][2], m[2][0], m[2][1], m[2][2],
      adj[0][0], adj[0][1], adj[0][2]);
    DeterminantCells(m);
  }

  lemma AdjointColumn01(m: Mat)
    ensures Dot(Adjoint(m), m, 0, 1) == 0.0
  {
    var adj := Adjoint(m);
    assert adj[0][0] == m[1][1] * m[2][2] - m[2][1] * m[1][2];
    assert adj[0][1] == m[0][2] * m[2][1] - m[0][1] * m[2][2];
    assert adj[0][2] == m[0][1] * m[1][2] - m[0][2] * m[1][1];
  }

  lemma AdjointColumn02(m: Mat)
    ensures Dot(Adjoint(m), m, 0, 2) == 0.0
  {
    var adj := Adjoint(m);
    assert adj[0][0] == m[1][1] * m[2][2] - m[2][1] * m[1][2];
    assert adj[0][1] == m[0][2] * m[2][1] - m[0][1] * m[2][2];
    assert adj[0][2] == m[0][1] * m[1][2] - m[0][2] * m[1][1];
  }

  lemma AdjointColumn10(m: Mat)
    ensures Dot(Adjoint(m), m, 1, 0) == 0.0
  {
    var adj := Adjoint(m);
    assert adj[1][0] == m[1][2] * m[2][0] - m[1][0] * m[2][2];
    assert adj[1][1] == m[0][0] * m[2][2] - m[0][2] * m[2][0];
    assert adj[1][2] == m[1][0] * m[0][2] - m[0][0] * m[1][2];
  }

  lemma AdjointColumn11(m: Mat)
    ensures Dot(Adjoint(m), m, 1, 1) == Determinant(m)
  {
    var adj := Adjoint(m);
    assert adj[1][0] == m[1][2] * m[2][0] - m[1][0] * m[2][2];
    assert adj[1][1] == m[0][0] * m[2][2] - m[0][2] * m[2][0];
    assert adj[1][2] == m[1][0] * m[0][2] - m[0][0] * m[1][2];
    ColumnExpansion1(m[0][0], m[0][1], m[0][2], m[1][0], m[1][1], m[1][2], m[2][0], m[2][1], m[2][2],
      adj[1][0], adj[1][1], adj[1][2]);
    DeterminantCells(m);
  }

  lemma AdjointColumn12(m: Mat)
    ensures Dot(Adjoint(m), m, 1, 2) == 0.0
  {
    var adj := Adjoint(m);
    assert adj[1][0] == m[1][2] * m[2][0] - m[1][0] * m[2][2];
    assert adj[1][1] == m[0][0] * m[2][2] - m[0][2] * m[2][0];
    assert adj[1][2] == m[1][0] * m[0][2] - m[0][0] * m[1][2];
  }

  lemma AdjointColumn20(m: Mat)
    ensures Dot(Adjoint(m), m, 2, 0) == 0.0
  {
    var adj := Adjoint(m);
    assert adj[2][0] == m[1][0] * m[2][1] - m[2][0] * m[1][1];
    assert adj[2][1] == m[2][0] * m[0][1] - m[0][0] * m[2][1];
    assert adj[2][2] == m[0][0] * m[1][1] - m[1][0] * m[0][1];
  }

  lemma AdjointColumn21(m: Mat)
    ensures Dot(Adjoint(m), m, 2, 1) == 0.0
  {
    var adj := Adjoint(m);
    assert adj[2][0] == m[1][0] * m[2][1] - m[2][0] * m[1][1];
    assert adj[2][1] == m[2][0] * m[0][1] - m[0][0] * m[2][1];
    assert adj[2][2] == m[0][0] * m[1][1] - m[1][0] * m[0][1];
  }

  lemma AdjointColumn22(m: Mat)
    ensures Dot(Adjoint(m), m, 2, 2) == Determinant(m)
  {
    var adj := Adjoint(m);
    assert adj[2][0] == m[1][0] * m[2][1] - m[2][0] * m[1][1];
    assert adj[2][1] == m[2][0] * m[0][1] - m[0][0] * m[2][1];
    assert adj[2][2] == m[0][0] * m[1][1] - m[1][0] * m[0][1];
    ColumnExpansion2(m[0][0], m[0][1], m[0][2], m[1][0], m[1][1], m[1][2], m[2][0], m[2][1], m[2][2],
      adj[2][0], adj[2][1], adj[2][2]);
    DeterminantCells(m);
  }

  /** `d` times the identity, written out. */
  lemma ScaledIdentity(d: real)
    ensures Scale(Identity(), d) == [[d, 0.0, 0.0], [0.0, d, 0.0], [0.0, 0.0, d]]
  {
    EqualCells(Scale(Identity(), d), [[d, 0.0, 0.0], [0.0, d, 0.0], [0.0, 0.0, d]]);
  }

  /** Row-by-column product of `m` with its adjoint is det times I. */
  lemma ProductWithAdjoint(m: Mat)
    ensures Product(m, Adjoint(m)) == Scale(Identity(), Determinant(m))
  {
    var d := Determinant(m);
    ScaledIdentity(d);
    Cofactor00(m); Cofactor01(m); Cofactor02(m);
    Cofactor10(m); Cofactor11(m); Cofactor12(m);
    Cofactor20(m); Cofactor21(m); Cofactor22(m);
    EqualCells(Product(m, Adjoint(m)), [[d, 0.0, 0.0], [0.0, d, 0.0], [0.0, 0.0, d]]);
  }

  /** The adjoint times `m`, the other way round, is det times I too. */
  lemma AdjointWithProduct(m: Mat)
    ensures Product(Adjoint(m), m) == Scale(Identity(), Determinant(m))
  {
    var d := Determinant(m);
    ScaledIdentity(d);
    AdjointColumn00(m); AdjointColumn01(m); AdjointColumn02(m);
    AdjointColumn10(m); AdjointColumn11(m); AdjointColumn12(m);
    AdjointColumn20(m); AdjointColumn21(m); AdjointColumn22(m);
    EqualCells(Product(Adjoint(m), m), [[d, 0.0, 0.0], [0.0, d, 0.0], [0.0, 0.0, d]]);
  }

  lemma DotScaled(a: Mat, b: Mat, k: real, i: int, j: int)
    requires InRange(i) && InRange(j)
    ensures Dot(a, Scale(b, k), i, j) == Dot(a, b, i, j) * k
    ensures Dot(Scale(a, k), b, i, j) == Dot(a, b, i, j) * k
  {
    var sb := Scale(b, k);
    assert sb[0][j] == b[0][j] * k && sb[1][j] == b[1][j] * k && sb[2][j] == b[2][j] * k;
    var sa := Scale(a, k);
    assert sa[i][0] == a[i][0] * k && sa[i][1] == a[i][1] * k && sa[i][2] == a[i][2] * k;
  }

  lemma ProductCell(a: Mat, b: Mat, i: int, j: int)
    requires InRange(i) && InRange(j)
    ensures Product(a, b)[i][j] == Dot(a, b, i, j)
  {
    assert (i == 0 || i == 1 || i == 2) && (j == 0 || j == 1 || j == 2);
  }

  lemma ScaleCell(m: Mat, k: real, i: int, j: int)
    requires InRange(i) && InRange(j)
    ensures Scale(m, k)[i][j] == m[i][j] * k
  {
  }

  lemma ProductScaleCell(a: Mat, b: Mat, k: real, i: int, j: int)
    requires InRange(i) && InRange(j)
    ensures Product(a, Scale(b, k))[i][j] == Scale(Product(a, b), k)[i][j]
    ensures Product(Scale(a, k), b)[i][j] == Scale(Product(a, b), k)[i][j]
  {
    var d := Dot(a, b, i, j);
    calc {
      Product(a, Scale(b, k))[i][j];
      { ProductCell(a, Scale(b, k), i, j); }
      Dot(a, Scale(b, k), i, j);
      { DotScaled(a, b, k, i, j); }
      d * k;
      { ProductCell(a, b, i, j); }
      Product(a, b)[i][j] * k;
      { ScaleCell(Product(a, b), k, i, j); }
      Scale(Product(a, b), k)[i][j];
    }
    calc {
      Product(Scale(a, k), b)[i][j];
      { ProductCell(Scale(a, k), b, i, j); }
      Dot(Scale(a, k), b, i, j);
      { DotScaled(a, b, k, i, j); }
      d * k;
      { ProductCell(a, b, i, j); }
      Product(a, b)[i][j] * k;
      { ScaleCell(Product(a, b), k, i, j); }
      Scale(Product(a, b), k)[i][j];
    }
  }

  /** A scalar factor moves out of either side of the product. */
  lemma ProductScale(a: Mat, b: Mat, k: real)
    ensures Product(a, Scale(b, k)) == Scale(Product(a, b), k)
    ensures Product(Scale(a, k), b) == Scale(Product(a, b), k)
  {
    forall i, j | 0 <= i < 3 && 0 <= j < 3
      ensures Product(a, Scale(b, k))[i][j] == Scale(Product(a, b), k)[i][j]
      ensures Product(Scale(a, k), b)[i][j] == Scale(Product(a, b), k)[i][j]
    {
      ProductScaleCell(a, b, k, i, j);
    }
    Equal(Product(a, Scale(b, k)), Scale(Product(a, b), k));
    Equal(Product(Scale(a, k), b), Scale(Product(a, b), k));
  }

  lemma ScaleScale(m: Mat, x: real, y: real)
    ensures Scale(Scale(m, x), y) == Scale(m, x * y)
  {
    Equal(Scale(Scale(m, x), y), Scale(m, x * y));
  }

  lemma ScaleByOne(m: Mat)
    ensures Scale(m, 1.0) == m
  {
    Equal(Scale(m, 1.0), m);
  }

  /**
   * `inverse` fails exactly on a zero determinant, and otherwise its result
   * is a two-sided inverse under the true matrix product.
   */
  lemma InverseIsTwoSided(m: Mat)
    ensures Inverse(m).Err? <==> Determinant(m) == 0.0
    ensures Inverse(m).Err? ==> Inverse(m).error == NotInvertible
    ensures Inverse(m).Ok? ==>
      Product(m, Inverse(m).value) == Identity() && Product(Inverse(m).value, m) == Identity()
  {
    var d := Determinant(m);
    if d != 0.0 {
      var inv := Scale(Adjoint(m), 1.0 / d);
      var y := 1.0 / d;
      var k := d * y;
      ProductWithAdjoint(m);
      AdjointWithProduct(m);
      ProductScale(m, Adjoint(m), y);
      ProductScale(Adjoint(m), m, y);
      ScaleScale(Identity(), d, y);
      assert k == 1.0;
      ScaleByOne(Identity());
    }
  }

  /**
   * The matrix equality the demo driver's comment asks for, `A * inverse`
   * equal to I: it holds for the true product and not for the element-wise
   * `*` the type defines.  As compiled, the check compares `operator bool`
   * instead; see `SampleChecksAsCompiled`.
   */
  lemma SampleCheckNeedsTrueProduct()
    ensures Product(SampleA(), SampleInverse()) == Identity()
    ensures Hadamard(SampleA(), SampleInverse()) != Identity()
  {
    InverseOfSample();
    InverseIsTwoSided(SampleA());
    var h := Hadamard(SampleA(), SampleInverse());
    assert SampleA()[0][0] == 1.0;
    assert SampleInverse()[0][0] == -14.0;
    assert h[0][0] == -14.0;
  }

  /** The element-wise product of `A` and its inverse, written out. */
  lemma HadamardOfSample()
    ensures Hadamard(SampleA(), SampleInverse()) ==
      [[-14.0, -6.0, -1.0], [27.0, 8.0, 2.5], [72.0, -20.0, 2.0]]
  {
    var a, inv := SampleA(), SampleInverse();
    assert a[0] == [1.0, 1.0, -2.0] && a[1] == [-3.0, -2.0, 5.0] && a[2] == [-6.0, 4.0, 4.0];
    assert inv[0][0] == -14.0 && inv[0][1] == -6.0 && inv[0][2] == 0.5;
    assert inv[1][0] == -9.0 && inv[1][1] == -4.0 && inv[1][2] == 0.5;
    assert inv[2][0] == -12.0 && inv[2][1] == -5.0 && inv[2][2] == 0.5;
    EqualCells(Hadamard(a, inv), [[-14.0, -6.0, -1.0], [27.0, 8.0, 2.5], [72.0, -20.0, 2.0]]);
  }

  /**
   * What the demo driver's two checks compute as compiled: each `==` compares
   * the `operator bool` of its sides.  The element-wise product of `A` and its
   * inverse has determinant -564, so both sides of the first check are
   * invertible and it passes; the second compares two equal matrices.
   */
  lemma SampleChecksAsCompiled()
    ensures Determinant(Hadamard(SampleA(), SampleInverse())) == -564.0
    ensures SameTruth(Hadamard(SampleA(), SampleInverse()), Identity())
    ensures Inverse(SampleA()).Ok? && SameTruth(SampleInverse(), Inverse(SampleA()).value)
  {
    HadamardOfSample();
    InverseOfSample();
    var h := [[-14.0, -6.0, -1.0], [27.0, 8.0, 2.5], [72.0, -20.0, 2.0]];
    assert h[0] == [-14.0, -6.0, -1.0] && h[1] == [27.0, 8.0, 2.5] && h[2] == [72.0, -20.0, 2.0];
    assert Determinant(h) == -564.0;
    assert Determinant(Identity()) == 1.0;
  }

  /** The compiled `==` relates matrices that differ: I and 2I are both invertible. */
  lemma SameTruthIsNotEquality()
    ensures SameTruth(Identity(), Scale(Identity(), 2.0))
    ensures Identity() != Scale(Identity(), 2.0)
  {
    ScaledIdentity(2.0);
    var twice := [[2.0, 0.0, 0.0], [0.0, 2.0, 0.0], [0.0, 0.0, 2.0]];
    assert twice[0] == [2.0, 0.0, 0.0] && twice[1] == [0.0, 2.0, 0.0] && twice[2] == [0.0, 0.0, 2.0];
    assert Determinant(twice) == 8.0;
    assert Determinant(Identity()) == 1.0;
    assert twice[0][0] != Identity()[0][0];
  }

  /** The converse fails: a determinant within epsilon of 0 but not 0 still inverts. */
  lemma InverseSucceedsBelowEpsilon()
    ensures var m := [[Epsilon / 2.0, 0.0, 0.0], [0.0, 1.0, 0.0], [0.0, 0.0, 1.0]];
      Inverse(m).Ok? && !IsInvertible(m)
  {
    var m := [[Epsilon / 2.0, 0.0, 0.0], [0.0, 1.0, 0.0], [0.0, 0.0, 1.0]];
    assert Determinant(m) == Epsilon / 2.0;
  }

  /** `operator!` negates `operator bool`, and `operator()` is the determinant. */
  lemma ConversionOperators(m: Mat)
    ensures Not(m) == !ToBool(m)
    ensures ToBool(m) <==> Call(m) < -(Epsilon as real) || Call(m) > Epsilon
  {
  }

  // ---------------------------------------------------------------------
  // Arithmetic round trips

  lemma IncrementThenDecrement(m: Mat)
    ensures Decrement(Increment(m)) == m
    ensures Increment(Decrement(m)) == m
  {
    Equal(Decrement(Increment(m)), m);
    Equal(Increment(Decrement(m)), m);
  }

  lemma IncrementCells(m: Mat)
    ensures forall i, j :: 0 <= i < 3 && 0 <= j < 3 ==>
      Increment(m)[i][j] == m[i][j] + 1.0 && Decrement(m)[i][j] == m[i][j] - 1.0
  {
  }

  /** Scalar `+=`, `-=` and `*=` apply the scalar to each of the nine cells. */
  lemma ScalarCells(m: Mat, x: real)
    ensures forall i, j :: 0 <= i < 3 && 0 <= j < 3 ==>
      AddScalar(m, x)[i][j] == m[i][j] + x &&
      SubScalar(m, x)[i][j] == m[i][j] - x &&
      Scale(m, x)[i][j] == m[i][j] * x
  {
  }

  lemma AddThenSub(a: Mat, b: Mat)
    ensures Sub(Add(a, b), b) == a
    ensures Add(Sub(a, b), b) == a
  {
    Equal(Sub(Add(a, b), b), a);
    Equal(Add(Sub(a, b), b), a);
  }

  lemma AddScalarThenSubScalar(m: Mat, x: real)
    ensures SubScalar(AddScalar(m, x), x) == m
  {
    Equal(SubScalar(AddScalar(m, x), x), m);
  }

  /** `/= x` fails on 0; otherwise it undoes `*= x` and scales every cell by 1/x. */
  lemma DivScalarUndoesScale(m: Mat, x: real)
    ensures DivScalar(m, x).Err? <==> x == 0.0
    ensures x == 0.0 ==> DivScalar(m, x) == Err(DivideByZero)
    ensures x != 0.0 ==> DivScalar(Scale(m, x), x) == Ok(m)
    ensures x != 0.0 ==> forall i, j :: 0 <= i < 3 && 0 <= j < 3 ==>
      DivScalar(m, x).value[i][j] == m[i][j] * (1.0 / x) && DivScalar(m, x).value[i][j] * x == m[i][j]
  {
    if x != 0.0 {
      var y := 1.0 / x;
      var k := x * y;
      ScaleScale(m, x, y);
      assert k == 1.0;
      ScaleByOne(m);
    }
  }

  lemma NegateTwice(m: Mat)
    ensures Negate(Negate(m)) == m
    ensures Negate(m) == Scale(m, -1.0)
    ensures Add(m, Negate(m)) == Zero()
  {
    Equal(Negate(Negate(m)), m);
    Equal(Negate(m), Scale(m, -1.0));
    Equal(Add(m, Negate(m)), Zero());
  }

  // ---------------------------------------------------------------------
  // Subscript

  /** Reading fails exactly outside [0, 3) x [0, 3), and otherwise yields the cell. */
  lemma AtBounds(m: Mat, row: int, col: int)
    ensures At(m, row, col).Err? <==> !(InRange(row) && InRange(col))
    ensures At(m, row, col).Err? ==> At(m, row, col).error == OutOfRange
    ensures At(m, row, col).Ok? ==> At(m, row, col).value == m[row][col]
  {
  }

  /** Writing one cell changes that cell and no other. */
  lemma UpdateThenAt(m: Mat, row: int, col: int, v: real, r: int, c: int)
    ensures Update(m, row, col, v).Err? <==> !(InRange(row) && InRange(col))
    ensures Update(m, row, col, v).Ok? ==>
      At(Update(m, row, col, v).value, r, c) == if r == row && c == col then Ok(v) else At(m, r, c)
  {
  }
}
