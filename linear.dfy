/** Dense complex vectors and matrices, written out here in place of the
    linear-algebra library the register uses: identity, matrix × vector,
    matrix × matrix, conjugate transpose and the Kronecker product with a
    two-wide right operand (the only kind the register forms). A matrix is
    a sequence of rows. */
module Linear {
  import opened Scalars

  type Vector = seq<Complex>
  type Matrix = seq<seq<Complex>>

  predicate IsMatrix(m: Matrix, rows: nat, cols: nat) {
    |m| == rows && forall i :: 0 <= i < rows ==> |m[i]| == cols
  }

  /** Number of columns; a matrix without rows has none. */
  function Cols(m: Matrix): nat {
    if |m| == 0 then 0 else |m[0]|
  }

  predicate Rectangular(m: Matrix) {
    IsMatrix(m, |m|, Cols(m))
  }

  function Identity(n: nat): (r: Matrix)
    ensures IsMatrix(r, n, n) && Rectangular(r)
  {
    seq(n, i => seq(n, j => if i == j then One else Zero))
  }

  /** The vector of length `n` with a single one at position `k`. */
  function OneHot(n: nat, k: nat): (r: Vector)
    ensures |r| == n
  {
    seq(n, i => if i == k then One else Zero)
  }

  function Dot(u: Vector, v: Vector): Complex
    requires |u| == |v|
  {
    if |u| == 0 then Zero else Add(Mul(u[0], v[0]), Dot(u[1..], v[1..]))
  }

  function Column(m: Matrix, j: nat): (c: Vector)
    requires forall i :: 0 <= i < |m| ==> j < |m[i]|
    ensures |c| == |m|
  {
    seq(|m|, i requires 0 <= i < |m| => m[i][j])
  }

  function MatVec(m: Matrix, v: Vector): (r: Vector)
    requires Rectangular(m) && Cols(m) == |v|
    ensures |r| == |m|
  {
    seq(|m|, i requires 0 <= i < |m| => Dot(m[i], v))
  }

  function MatMul(a: Matrix, b: Matrix): (r: Matrix)
    requires Rectangular(a) && Rectangular(b) && Cols(a) == |b|
    ensures IsMatrix(r, |a|, Cols(b)) && Rectangular(r)
  {
    seq(|a|, i requires 0 <= i < |a| =>
      seq(Cols(b), j requires 0 <= j < Cols(b) => Dot(a[i], Column(b, j))))
  }

  /** The adjoint: transpose, then conjugate every entry. */
  function ConjTranspose(m: Matrix): (r: Matrix)
    requires Rectangular(m)
    ensures IsMatrix(r, Cols(m), |m|) && Rectangular(r)
  {
    seq(Cols(m), i requires 0 <= i < Cols(m) =>
      seq(|m|, j requires 0 <= j < |m| => Conj(m[j][i])))
  }

  /** Kronecker product `v ⊗ b` with a two-entry column: entry `2i + k` is `v[i] * b[k]`. */
  function KronVec2(v: Vector, b: Vector): (r: Vector)
    requires |b| == 2
    ensures |r| == 2 * |v|
  {
    seq(2 * |v|, i requires 0 <= i < 2 * |v| => Mul(v[i / 2], b[i % 2]))
  }

  /** Kronecker product `a ⊗ b` with a 2×2 matrix: entry `(2i + k, 2j + l)` is `a[i][j] * b[k][l]`. */
  function Kron2(a: Matrix, b: Matrix): (r: Matrix)
    requires Rectangular(a) && IsMatrix(b, 2, 2)
    ensures IsMatrix(r, 2 * |a|, 2 * Cols(a)) && Rectangular(r)
  {
    seq(2 * |a|, i requires 0 <= i < 2 * |a| =>
      seq(2 * Cols(a), j requires 0 <= j < 2 * Cols(a) => Mul(a[i / 2][j / 2], b[i % 2][j % 2])))
  }

  /** Total probability weight: the sum of the squared magnitudes. */
  function Weight(v: Vector): (w: real)
    ensures w >= 0.0
  {
    if |v| == 0 then 0.0 else NormSqr(v[0]) + Weight(v[1..])
  }

  // Facts about the operations above.

  /** A vector whose entries are one at position `k` and zero elsewhere picks out entry `k`. */
  lemma {:induction false} DotUnit(u: Vector, v: Vector, k: int)
    requires |u| == |v|
    requires forall i :: 0 <= i < |u| ==> u[i] == if i == k then One else Zero
    ensures Dot(u, v) == if 0 <= k < |u| then v[k] else Zero
  {
    if |u| > 0 {
      DotUnit(u[1..], v[1..], k - 1);
      assert Dot(u, v) == Add(Mul(u[0], v[0]), Dot(u[1..], v[1..]));
      if k == 0 {
        assert Mul(u[0], v[0]) == v[0] && Dot(u[1..], v[1..]) == Zero;
      } else {
        assert Mul(u[0], v[0]) == Zero;
      }
    }
  }

  /** Entry `(i, j)` of a product is row `i` against column `j`. */
  lemma MatMulEntry(a: Matrix, b: Matrix, i: nat, j: nat)
    requires Rectangular(a) && Rectangular(b) && Cols(a) == |b|
    requires i < |a| && j < Cols(b)
    ensures forall r :: 0 <= r < |b| ==> j < |b[r]|
    ensures MatMul(a, b)[i][j] == Dot(a[i], Column(b, j))
  {
  }

  lemma Dot2(u: Vector, v: Vector)
    requires |u| == 2 && |v| == 2
    ensures Dot(u, v) == Add(Mul(u[0], v[0]), Mul(u[1], v[1]))
  {
    assert u[1..][1..] == [] && v[1..][1..] == [];
    assert Dot(u[1..], v[1..]) == Add(Mul(u[1], v[1]), Zero);
  }

  lemma KronIdentity(n: nat)
    ensures Kron2(Identity(n), Identity(2)) == Identity(2 * n)
  {
    var k, e := Kron2(Identity(n), Identity(2)), Identity(2 * n);
    forall i | 0 <= i < 2 * n
      ensures k[i] == e[i]
    {
      forall j | 0 <= j < 2 * n
        ensures k[i][j] == e[i][j]
      {
        assert (i == j) == (i / 2 == j / 2 && i % 2 == j % 2);
      }
    }
  }

  lemma {:induction false} WeightSplit(v: Vector, k: nat)
    requires k <= |v|
    ensures Weight(v) == Weight(v[..k]) + Weight(v[k..])
  {
    if k > 0 {
      assert v[..k][1..] == v[1..][..k - 1];
      assert v[k..] == v[1..][k - 1..];
      WeightSplit(v[1..], k - 1);
    }
  }

  /** A vector whose entries are all zero has no weight. */
  lemma {:induction false} AllZeroWeightless(v: Vector)
    requires forall i :: 0 <= i < |v| ==> v[i] == Zero
    ensures Weight(v) == 0.0
  {
    if |v| > 0 {
      AllZeroWeightless(v[1..]);
    }
  }

  /** The weight adds up from the back as well. */
  lemma WeightLast(v: Vector)
    requires |v| > 0
    ensures Weight(v) == Weight(v[..|v| - 1]) + NormSqr(v[|v| - 1])
  {
    WeightSplit(v, |v| - 1);
    assert v[|v| - 1..][1..] == [];
  }

}
