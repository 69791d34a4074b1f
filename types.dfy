/** The measurement outcome type and the single-qubit operation type: a 2×2
    matrix with a unitarity-guarded constructor, an unchecked identity, the
    adjoint, and composition. Everything here is a value. Applying an
    operation to a qubit changes the register, so it lives with the
    register (`Register.Apply`). */
module Types {
  import opened Scalars
  import opened Linear
  import opened Faults
  import Algebra

  /** The outcome of measuring one qubit in the Z basis. */
  datatype Measurement = ZERO | ONE

  /** The enum discriminants: `ZERO = 0`, `ONE = 1`. */
  function Discriminant(m: Measurement): (d: nat)
    ensures d <= 1
    ensures d == 0 <==> m == ZERO
  {
    match m
    case ZERO => 0
    case ONE => 1
  }

  /** `From<bool>`: true is ONE, false is ZERO. */
  function FromBool(b: bool): (m: Measurement)
    ensures m == ONE <==> b
    ensures Discriminant(m) == if b then 1 else 0
  {
    if b then ONE else ZERO
  }

  /** A 2×2 complex matrix. */
  type Matrix2 = m: Matrix | IsMatrix(m, 2, 2) witness [[Zero, Zero], [Zero, Zero]]

  /** The matrix with rows `[a, b]` and `[c, d]`. */
  function M2(a: Complex, b: Complex, c: Complex, d: Complex): Matrix2 {
    [[a, b], [c, d]]
  }

  /** A single-qubit operation: a 2×2 matrix, which every constructor except
      `IdentityOperation` checks for unitarity. */
  datatype MatrixOperation = MatrixOperation(m: Matrix2)

  /** `MatrixOperation::new`: panics unless `m · mᴴ` is exactly the identity;
      otherwise stores `m` unchanged. */
  function New(m: Matrix2): (r: Result<MatrixOperation>)
    ensures r.Ok? <==> Algebra.IsUnitary(m)
    ensures r.Panic? ==> r.fault == NotUnitary
    ensures r.Ok? ==> MatrixOf(r.value) == m
  {
    if Algebra.IsUnitary(m) then Ok(MatrixOperation(m)) else Panic(NotUnitary)
  }

  /** `MatrixOperation::identity`: the 2×2 identity, stored without a check. */
  function IdentityOperation(): MatrixOperation {
    MatrixOperation(Identity(2))
  }

  /** `matrix()`: the stored matrix. */
  function MatrixOf(op: MatrixOperation): Matrix2 {
    op.m
  }

  /** `adjoint()`: the conjugate transpose, again without a check. */
  function Adjoint(op: MatrixOperation): MatrixOperation {
    MatrixOperation(ConjTranspose(op.m))
  }

  /** `a.then(b)`: first `a`, then `b`; the matrices multiply in the reverse order. */
  function Then(a: MatrixOperation, b: MatrixOperation): MatrixOperation {
    MatrixOperation(MatMul(b.m, a.m))
  }

  // Entry-level descriptions of the 2×2 operations.

  /** Two 2×2 matrices with the same four entries are equal. */
  lemma Ext2(x: Matrix2, y: Matrix2)
    requires x[0][0] == y[0][0] && x[0][1] == y[0][1]
    requires x[1][0] == y[1][0] && x[1][1] == y[1][1]
    ensures x == y
  {
    assert x[0] == y[0];
    assert x[1] == y[1];
  }

  lemma MatMul2(x: Matrix2, y: Matrix2)
    ensures MatMul(x, y) == M2(
      Add(Mul(x[0][0], y[0][0]), Mul(x[0][1], y[1][0])), Add(Mul(x[0][0], y[0][1]), Mul(x[0][1], y[1][1])),
      Add(Mul(x[1][0], y[0][0]), Mul(x[1][1], y[1][0])), Add(Mul(x[1][0], y[0][1]), Mul(x[1][1], y[1][1])))
  {
    var p := MatMul(x, y);
    forall i, j | 0 <= i < 2 && 0 <= j < 2
      ensures p[i][j] == Add(Mul(x[i][0], y[0][j]), Mul(x[i][1], y[1][j]))
    {
      Dot2(x[i], Column(y, j));
    }
    Ext2(p, M2(
      Add(Mul(x[0][0], y[0][0]), Mul(x[0][1], y[1][0])), Add(Mul(x[0][0], y[0][1]), Mul(x[0][1], y[1][1])),
      Add(Mul(x[1][0], y[0][0]), Mul(x[1][1], y[1][0])), Add(Mul(x[1][0], y[0][1]), Mul(x[1][1], y[1][1]))));
  }

  lemma ConjTranspose2(x: Matrix2)
    ensures ConjTranspose(x) == M2(Conj(x[0][0]), Conj(x[1][0]), Conj(x[0][1]), Conj(x[1][1]))
  {
    Ext2(ConjTranspose(x), M2(Conj(x[0][0]), Conj(x[1][0]), Conj(x[0][1]), Conj(x[1][1])));
  }

  lemma Identity2()
    ensures Identity(2) == M2(One, Zero, Zero, One)
  {
    Ext2(Identity(2), M2(One, Zero, Zero, One));
  }

  /** The unchecked identity would pass the constructor's check. */
  lemma IdentityOperationIsUnitary()
    ensures Algebra.IsUnitary(IdentityOperation().m)
    ensures New(IdentityOperation().m) == Ok(IdentityOperation())
  {
    IdentityIsUnitary();
  }

  lemma IdentityIsUnitary()
    ensures Algebra.IsUnitary(Identity(2))
  {
    var i := Identity(2);
    assert ConjTranspose(i) == i by {
      Identity2();
      ConjTranspose2(i);
    }
    assert MatMul(i, i) == i by {
      Identity2();
      MatMul2(i, i);
    }
  }

  lemma M2Equal(a: Complex, b: Complex, c: Complex, d: Complex, a': Complex, b': Complex, c': Complex, d': Complex)
    ensures M2(a, b, c, d) == M2(a', b', c', d') <==> a == a' && b == b' && c == c' && d == d'
  {
    if a == a' && b == b' && c == c' && d == d' {
      Ext2(M2(a, b, c, d), M2(a', b', c', d'));
    }
  }

  /** Unitarity of a 2×2 matrix in terms of its rows: each has weight one and
      the two are orthogonal. */
  lemma UnitaryByRows(m: Matrix2)
    ensures Algebra.IsUnitary(m) <==>
      NormSqr(m[0][0]) + NormSqr(m[0][1]) == 1.0 &&
      NormSqr(m[1][0]) + NormSqr(m[1][1]) == 1.0 &&
      Add(Mul(m[0][0], Conj(m[1][0])), Mul(m[0][1], Conj(m[1][1]))) == Zero
  {
    var a, b, c, d := m[0][0], m[0][1], m[1][0], m[1][1];
    var e00, e01 := Add(Mul(a, Conj(a)), Mul(b, Conj(b))), Add(Mul(a, Conj(c)), Mul(b, Conj(d)));
    var e10, e11 := Add(Mul(c, Conj(a)), Mul(d, Conj(b))), Add(Mul(c, Conj(c)), Mul(d, Conj(d)));
    assert Algebra.IsUnitary(m) <==> e00 == One && e01 == Zero && e10 == Zero && e11 == One by {
      assert MatMul(m, ConjTranspose(m)) == M2(e00, e01, e10, e11) by {
        ConjTranspose2(m);
        MatMul2(m, ConjTranspose(m));
      }
      Identity2();
      M2Equal(e00, e01, e10, e11, One, Zero, Zero, One);
    }
    assert e00 == One <==> NormSqr(a) + NormSqr(b) == 1.0 by {
      RowWeight(a, b);
    }
    assert e11 == One <==> NormSqr(c) + NormSqr(d) == 1.0 by {
      RowWeight(c, d);
    }
    assert e10 == Zero <==> e01 == Zero by {
      ConjOfInner(a, b, c, d);
    }
  }

  // The rows of a unitary 2×2 matrix being orthonormal forces its columns to be.

  lemma ExpandLeft(a: Complex, b: Complex, c: Complex, d: Complex)
    ensures Mul(a, Add(Mul(Conj(a), b), Mul(Conj(c), d))) == Add(Mul(Complex(NormSqr(a), 0.0), b), Mul(Mul(a, Conj(c)), d))
  {
    MulAddLeft(a, Mul(Conj(a), b), Mul(Conj(c), d));
    MulAssoc(a, Conj(a), b);
    MulAssoc(a, Conj(c), d);
    MulConjSelf(a);
  }

  lemma ExpandRight(a: Complex, b: Complex, c: Complex, d: Complex)
    ensures Mul(c, Add(Mul(Conj(a), b), Mul(Conj(c), d))) == Add(Mul(Mul(c, Conj(a)), b), Mul(Complex(NormSqr(c), 0.0), d))
  {
    MulAddLeft(c, Mul(Conj(a), b), Mul(Conj(c), d));
    MulAssoc(c, Conj(a), b);
    MulAssoc(c, Conj(c), d);
    MulConjSelf(c);
  }

  lemma CancelAgainst(b: Complex, d: Complex, w: real)
    requires NormSqr(d) == w
    ensures Add(Mul(Complex(w, 0.0), b), Mul(Neg(Mul(b, Conj(d))), d)) == Zero
  {}

  lemma Recombine(a: Complex, c: Complex, z: Complex)
    requires NormSqr(a) + NormSqr(c) == 1.0
    ensures z == Add(Mul(Conj(a), Mul(a, z)), Mul(Conj(c), Mul(c, z)))
  {
    MulAssoc(Conj(a), a, z);
    MulAssoc(Conj(c), c, z);
    MulComm(Conj(a), a);
    MulComm(Conj(c), c);
    MulConjSelf(a);
    MulConjSelf(c);
    MulAddRight(Complex(NormSqr(a), 0.0), Complex(NormSqr(c), 0.0), z);
  }

  /** Orthonormal rows have complementary weights: `|a|² = |d|²` and `|b|² = |c|²`. */
  lemma RowsWeights(a: Complex, b: Complex, c: Complex, d: Complex)
    requires NormSqr(a) + NormSqr(b) == 1.0 && NormSqr(c) + NormSqr(d) == 1.0
    requires Add(Mul(a, Conj(c)), Mul(b, Conj(d))) == Zero
    ensures NormSqr(a) + NormSqr(c) == 1.0 && NormSqr(b) + NormSqr(d) == 1.0
    ensures NormSqr(d) == NormSqr(a) && NormSqr(c) == NormSqr(b)
  {
    var x, y := Mul(a, Conj(c)), Mul(b, Conj(d));
    assert x == Neg(y);
    assert NormSqr(a) * NormSqr(c) == NormSqr(b) * NormSqr(d) by {
      NormSqrNeg(y);
      NormSqrMul(a, Conj(c));
      NormSqrMul(b, Conj(d));
      NormSqrConj(c);
      NormSqrConj(d);
    }
    ComplementaryWeights(NormSqr(a), NormSqr(b), NormSqr(c), NormSqr(d));
  }

  /** With orthogonal rows of complementary weights, both entries of the
      first column annihilate the inner product of the columns. */
  lemma ColumnsProductCancels(a: Complex, b: Complex, c: Complex, d: Complex)
    requires Add(Mul(a, Conj(c)), Mul(b, Conj(d))) == Zero
    requires NormSqr(d) == NormSqr(a) && NormSqr(c) == NormSqr(b)
    ensures Mul(a, Add(Mul(Conj(a), b), Mul(Conj(c), d))) == Zero
    ensures Mul(c, Add(Mul(Conj(a), b), Mul(Conj(c), d))) == Zero
  {
    var x, y := Mul(a, Conj(c)), Mul(b, Conj(d));
    assert x == Neg(y);
    assert Mul(a, Add(Mul(Conj(a), b), Mul(Conj(c), d))) == Zero by {
      ExpandLeft(a, b, c, d);
      CancelAgainst(b, d, NormSqr(a));
    }
    ExpandRight(a, b, c, d);
    assert Mul(c, Conj(a)) == Neg(Mul(d, Conj(b))) by {
      ConjMul(a, Conj(c));
      ConjInvolutive(c);
    }
    MulComm(a, b);
    CancelAgainst(d, b, NormSqr(c));
  }

  lemma OrthonormalColumns(a: Complex, b: Complex, c: Complex, d: Complex)
    requires NormSqr(a) + NormSqr(b) == 1.0 && NormSqr(c) + NormSqr(d) == 1.0
    requires Add(Mul(a, Conj(c)), Mul(b, Conj(d))) == Zero
    ensures NormSqr(a) + NormSqr(c) == 1.0 && NormSqr(b) + NormSqr(d) == 1.0
    ensures Add(Mul(Conj(a), b), Mul(Conj(c), d)) == Zero
  {
    RowsWeights(a, b, c, d);
    ColumnsProductCancels(a, b, c, d);
    Recombine(a, c, Add(Mul(Conj(a), b), Mul(Conj(c), d)));
  }

  lemma ConjTransposeInvolutive(m: Matrix2)
    ensures ConjTranspose(ConjTranspose(m)) == m
  {
    ConjTranspose2(m);
    ConjTranspose2(ConjTranspose(m));
    ConjInvolutive(m[0][0]);
    ConjInvolutive(m[0][1]);
    ConjInvolutive(m[1][0]);
    ConjInvolutive(m[1][1]);
    Ext2(ConjTranspose(ConjTranspose(m)), m);
  }

  /** The conjugate transpose of a unitary matrix is unitary. */
  lemma ConjTransposeUnitary(m: Matrix2)
    requires Algebra.IsUnitary(m)
    ensures Algebra.IsUnitary(ConjTranspose(m))
  {
    var a, b, c, d := m[0][0], m[0][1], m[1][0], m[1][1];
    UnitaryByRows(m);
    OrthonormalColumns(a, b, c, d);
    ConjTranspose2(m);
    UnitaryByRows(ConjTranspose(m));
    NormSqrConj(a);
    NormSqrConj(b);
    NormSqrConj(c);
    NormSqrConj(d);
    ConjInvolutive(b);
    ConjInvolutive(d);
  }

  /** One entry of a triple product, grouped either way. */
  lemma EntryAssoc(x0: Complex, x1: Complex, y00: Complex, y01: Complex, y10: Complex, y11: Complex, z0: Complex, z1: Complex)
    ensures Add(Mul(x0, Add(Mul(y00, z0), Mul(y01, z1))), Mul(x1, Add(Mul(y10, z0), Mul(y11, z1))))
         == Add(Mul(Add(Mul(x0, y00), Mul(x1, y10)), z0), Mul(Add(Mul(x0, y01), Mul(x1, y11)), z1))
  {
    MulAddLeft(x0, Mul(y00, z0), Mul(y01, z1));
    MulAddLeft(x1, Mul(y10, z0), Mul(y11, z1));
    MulAddRight(Mul(x0, y00), Mul(x1, y10), z0);
    MulAddRight(Mul(x0, y01), Mul(x1, y11), z1);
    MulAssoc(x0, y00, z0);
    MulAssoc(x0, y01, z1);
    MulAssoc(x1, y10, z0);
    MulAssoc(x1, y11, z1);
  }

  lemma MatMulAssoc2(x: Matrix2, y: Matrix2, z: Matrix2)
    ensures MatMul(MatMul(x, y), z) == MatMul(x, MatMul(y, z))
  {
    MatMul2(x, y);
    MatMul2(y, z);
    MatMul2(MatMul(x, y), z);
    MatMul2(x, MatMul(y, z));
    forall i, j | 0 <= i < 2 && 0 <= j < 2
      ensures MatMul(MatMul(x, y), z)[i][j] == MatMul(x, MatMul(y, z))[i][j]
    {
      EntryAssoc(x[i][0], x[i][1], y[0][0], y[0][1], y[1][0], y[1][1], z[0][j], z[1][j]);
    }
    Ext2(MatMul(MatMul(x, y), z), MatMul(x, MatMul(y, z)));
  }

  lemma MatMulIdentity2(m: Matrix2)
    ensures MatMul(Identity(2), m) == m && MatMul(m, Identity(2)) == m
  {
    Identity2();
    MatMul2(Identity(2), m);
    MatMul2(m, Identity(2));
    UnitCombination(m[0][0], m[1][0]);
    UnitCombination(m[0][1], m[1][1]);
    UnitCombination(m[0][0], m[0][1]);
    UnitCombination(m[1][0], m[1][1]);
    Ext2(MatMul(Identity(2), m), m);
    Ext2(MatMul(m, Identity(2)), m);
  }

  lemma EntryConj(x0: Complex, x1: Complex, y0: Complex, y1: Complex)
    ensures Conj(Add(Mul(x0, y0), Mul(x1, y1))) == Add(Mul(Conj(y0), Conj(x0)), Mul(Conj(y1), Conj(x1)))
  {}

  /** `(x · y)ᴴ = yᴴ · xᴴ`. */
  lemma ConjTransposeOfProduct2(x: Matrix2, y: Matrix2)
    ensures ConjTranspose(MatMul(x, y)) == MatMul(ConjTranspose(y), ConjTranspose(x))
  {
    var l, r := ConjTranspose(MatMul(x, y)), MatMul(ConjTranspose(y), ConjTranspose(x));
    MatMul2(x, y);
    ConjTranspose2(MatMul(x, y));
    ConjTranspose2(x);
    ConjTranspose2(y);
    MatMul2(ConjTranspose(y), ConjTranspose(x));
    forall i, j | 0 <= i < 2 && 0 <= j < 2
      ensures l[i][j] == r[i][j]
    {
      EntryConj(x[j][0], x[j][1], y[0][i], y[1][i]);
    }
    Ext2(l, r);
  }

  // Laws of the operation type.

  /** `adjoint` twice gives back the original operation. */
  lemma AdjointInvolutive(op: MatrixOperation)
    ensures Adjoint(Adjoint(op)) == op
  {
    ConjTransposeInvolutive(op.m);
  }

  /** The adjoint of a unitary operation is unitary, and undoes it in either order. */
  lemma AdjointUndoes(op: MatrixOperation)
    requires Algebra.IsUnitary(op.m)
    ensures Algebra.IsUnitary(Adjoint(op).m)
    ensures Then(op, Adjoint(op)).m == Identity(2)
    ensures Then(Adjoint(op), op).m == Identity(2)
  {
    ConjTransposeUnitary(op.m);
    ConjTransposeInvolutive(op.m);
  }

  /** The identity operation is neutral for `then` on both sides. */
  lemma ThenIdentity(op: MatrixOperation)
    ensures Then(IdentityOperation(), op) == op
    ensures Then(op, IdentityOperation()) == op
  {
    MatMulIdentity2(op.m);
  }

  lemma ThenAssociative(a: MatrixOperation, b: MatrixOperation, c: MatrixOperation)
    ensures Then(Then(a, b), c) == Then(a, Then(b, c))
  {
    MatMulAssoc2(c.m, b.m, a.m);
  }

  /** The adjoint of "first a, then b" is "first adjoint b, then adjoint a". */
  lemma AdjointOfThen(a: MatrixOperation, b: MatrixOperation)
    ensures Adjoint(Then(a, b)) == Then(Adjoint(b), Adjoint(a))
  {
    ConjTransposeOfProduct2(b.m, a.m);
  }

  /** Composing unitary operations gives a unitary operation, although `then`
      does not check it. */
  lemma ThenUnitary(a: MatrixOperation, b: MatrixOperation)
    requires Algebra.IsUnitary(a.m) && Algebra.IsUnitary(b.m)
    ensures Algebra.IsUnitary(Then(a, b).m)
  {
    var p := MatMul(b.m, a.m);
    ConjTransposeOfProduct2(b.m, a.m);
    calc {
      MatMul(p, ConjTranspose(p));
      MatMul(p, MatMul(ConjTranspose(a.m), ConjTranspose(b.m)));
      { MatMulAssoc2(p, ConjTranspose(a.m), ConjTranspose(b.m)); }
      MatMul(MatMul(p, ConjTranspose(a.m)), ConjTranspose(b.m));
      { MatMulAssoc2(b.m, a.m, ConjTranspose(a.m)); }
      MatMul(MatMul(b.m, MatMul(a.m, ConjTranspose(a.m))), ConjTranspose(b.m));
      { MatMulIdentity2(b.m); }
      MatMul(b.m, ConjTranspose(b.m));
      Identity(2);
    }
  }

  /** A shear is rejected by the constructor. */
  lemma NewRejectsShear()
    ensures New(M2(One, One, Zero, One)) == Panic(NotUnitary)
  {
    var m := M2(One, One, Zero, One);
    assert NormSqr(m[0][0]) + NormSqr(m[0][1]) == 2.0;
    assert !Algebra.IsUnitary(m) by {
      UnitaryByRows(m);
    }
  }
}
