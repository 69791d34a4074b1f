/** Matrix and basis-vector builders: permutation matrices, the unitarity
    test, and the per-bit `ket` / `bra` encoders. All of them are pure. */
module Algebra {
  import opened Scalars
  import opened Linear
  import opened Faults
  import Bits

  /** A single classical bit, the bounded integer 0..=1. */
  type Bit = b: nat | b <= 1

  /** The fixed-size and the dynamic-size builders share one definition:
      row `i` of the result is row `p[i]` of the `|p|`-square identity. A
      lookup past the last identity row panics, and so does `from_rows`
      when it is given no rows at all. */
  function PermutationMatrix(p: seq<nat>): (r: Result<Matrix>)
    ensures r.Ok? <==> |p| > 0 && forall i :: 0 <= i < |p| ==> p[i] < |p|
    ensures |p| == 0 ==> r == Panic(NoRows)
    ensures |p| > 0 && r.Panic? ==> r.fault == PermutationOutOfRange
    ensures r.Ok? ==> IsMatrix(r.value, |p|, |p|) && Rectangular(r.value)
    ensures r.Ok? ==> forall i, j :: 0 <= i < |p| && 0 <= j < |p| ==>
              r.value[i][j] == if p[i] == j then One else Zero
  {
    var ii := Identity(|p|);
    if !(forall i :: 0 <= i < |p| ==> p[i] < |p|) then
      Panic(PermutationOutOfRange)
    else if |p| == 0 then
      Panic(NoRows)
    else
      Ok(seq(|p|, i requires 0 <= i < |p| => ii[p[i]]))
  }

  /** `p` lists every index `0..|p|` exactly once. */
  predicate IsPermutation(p: seq<nat>) {
    (forall i :: 0 <= i < |p| ==> p[i] < |p|) &&
    (forall i, k :: 0 <= i < k < |p| ==> p[i] != p[k])
  }

  predicate IsSquare(m: Matrix) {
    IsMatrix(m, |m|, |m|)
  }

  /** `m · mᴴ` equals the identity, compared with zero tolerance. */
  predicate IsUnitary(m: Matrix)
    requires IsSquare(m)
  {
    MatMul(m, ConjTranspose(m)) == Identity(|m|)
  }

  /** The pair a bit contributes: `[1, 0]` for 0, `[0, 1]` for 1. */
  function BitPair(b: Bit): Vector {
    if b == 0 then [One, Zero] else [Zero, One]
  }

  /** `ket`: the per-bit pairs concatenated into a column of length `2·|values|`. */
  function Ket(values: seq<Bit>): (r: Vector)
    ensures |r| == 2 * |values|
  {
    if |values| == 0 then [] else BitPair(values[0]) + Ket(values[1..])
  }

  /** `bra`: the same entries laid out as a single row. */
  function Bra(values: seq<Bit>): (r: Matrix)
    ensures IsMatrix(r, 1, 2 * |values|)
  {
    [Ket(values)]
  }

  function Sum(v: Vector): Complex {
    if |v| == 0 then Zero else Add(v[0], Sum(v[1..]))
  }

  function AsColumn(v: Vector): (m: Matrix)
    ensures IsMatrix(m, |v|, 1) && Rectangular(m)
  {
    seq(|v|, i requires 0 <= i < |v| => [v[i]])
  }

  // Properties.

  /** Set of the entries of `p` at positions below `k`. */
  function Image(p: seq<nat>, k: nat): set<nat>
    requires k <= |p|
  {
    set i | 0 <= i < k :: p[i]
  }

  /** The indices `0..n`. */
  function Below(n: nat): (s: set<nat>)
    ensures |s| == n
    ensures forall j: nat :: j in s <==> j < n
  {
    if n == 0 then {} else Below(n - 1) + {n - 1}
  }

  lemma {:induction false} ImageSize(p: seq<nat>, k: nat)
    requires k <= |p|
    requires forall i, j :: 0 <= i < j < |p| ==> p[i] != p[j]
    ensures |Image(p, k)| == k
  {
    if k > 0 {
      assert Image(p, k) == Image(p, k - 1) + {p[k - 1]};
      assert p[k - 1] !in Image(p, k - 1);
      ImageSize(p, k - 1);
    }
  }

  lemma {:induction false} SubsetOfSameSize(a: set<nat>, b: set<nat>)
    requires a <= b && |a| == |b|
    ensures a == b
  {
    if x :| x in b && x !in a {
      assert a <= b - {x};
      SubsetCardinality(a, b - {x});
      assert false;
    }
  }

  lemma {:induction false} SubsetCardinality(a: set<nat>, b: set<nat>)
    requires a <= b
    ensures |a| <= |b|
  {
    assert b == a + (b - a);
  }

  /** Every column of the matrix of a genuine permutation holds exactly one 1:
      the entries of a permutation cover all of `0..|p|`. */
  lemma PermutationCoversAll(p: seq<nat>, j: nat)
    requires IsPermutation(p) && j < |p|
    ensures exists i :: 0 <= i < |p| && p[i] == j
    ensures forall i, k :: 0 <= i < |p| && 0 <= k < |p| && p[i] == j && p[k] == j ==> i == k
  {
    ImageSize(p, |p|);
    assert Image(p, |p|) <= Below(|p|);
    SubsetOfSameSize(Image(p, |p|), Below(|p|));
    assert j in Below(|p|);
    assert j in Image(p, |p|);
  }

  lemma PermutationColumns(p: seq<nat>, j: nat)
    requires IsPermutation(p) && j < |p|
    ensures PermutationMatrix(p).Ok?
    ensures exists i :: 0 <= i < |p| && PermutationMatrix(p).value[i][j] == One
    ensures forall i, k | 0 <= i < |p| && 0 <= k < |p| &&
              PermutationMatrix(p).value[i][j] != Zero && PermutationMatrix(p).value[k][j] != Zero :: i == k
  {
    PermutationCoversAll(p, j);
    var i :| 0 <= i < |p| && p[i] == j;
    assert PermutationMatrix(p).value[i][j] == One;
  }

  /** Column `j` of the adjoint of a permutation matrix is row `j` of it:
      the unit vector at `p[j]`. */
  lemma PermutationAdjointColumn(p: seq<nat>, j: nat)
    requires IsPermutation(p) && j < |p|
    ensures PermutationMatrix(p).Ok?
    ensures Column(ConjTranspose(PermutationMatrix(p).value), j) == OneHot(|p|, p[j])
  {
    var m := PermutationMatrix(p).value;
    var col := Column(ConjTranspose(m), j);
    forall k | 0 <= k < |p|
      ensures col[k] == OneHot(|p|, p[j])[k]
    {
      assert col[k] == Conj(m[j][k]);
    }
  }

  /** Row `i` of a permutation matrix picks entry `p[i]` out of any vector. */
  lemma PermutationRowDot(p: seq<nat>, i: nat, v: Vector)
    requires IsPermutation(p) && i < |p| && |v| == |p|
    ensures PermutationMatrix(p).Ok?
    ensures Dot(PermutationMatrix(p).value[i], v) == v[p[i]]
  {
    var u := PermutationMatrix(p).value[i];
    assert |u| == |p|;
    forall k | 0 <= k < |u|
      ensures u[k] == if k == p[i] then One else Zero
    {
    }
    DotUnit(u, v, p[i]);
  }

  /** Entry `(i, j)` of `m · mᴴ` for the matrix of a genuine permutation:
      the dot product of identity rows `p[i]` and `p[j]`. */
  lemma PermutationProductEntry(p: seq<nat>, i: nat, j: nat)
    requires IsPermutation(p) && i < |p| && j < |p|
    ensures PermutationMatrix(p).Ok?
    ensures MatMul(PermutationMatrix(p).value, ConjTranspose(PermutationMatrix(p).value))[i][j]
         == Identity(|p|)[i][j]
  {
    var m := PermutationMatrix(p).value;
    var h := ConjTranspose(m);
    var col := OneHot(|p|, p[j]);
    assert MatMul(m, h)[i][j] == Dot(m[i], col) by {
      MatMulEntry(m, h, i, j);
      PermutationAdjointColumn(p, j);
    }
    assert Dot(m[i], col) == col[p[i]] by {
      PermutationRowDot(p, i, col);
    }
    assert p[i] == p[j] <==> i == j;
  }

  /** The matrix of a genuine permutation passes the unitarity test. */
  lemma PermutationIsUnitary(p: seq<nat>)
    requires IsPermutation(p) && |p| > 0
    ensures PermutationMatrix(p).Ok?
    ensures IsSquare(PermutationMatrix(p).value) && IsUnitary(PermutationMatrix(p).value)
  {
    var m := PermutationMatrix(p).value;
    var prod := MatMul(m, ConjTranspose(m));
    assert |prod| == |p|;
    forall i | 0 <= i < |p|
      ensures prod[i] == Identity(|p|)[i]
    {
      PermutationProductRow(p, i);
    }
  }

  /** Row `i` of `m · mᴴ` for the matrix of a genuine permutation is row `i`
      of the identity. */
  lemma PermutationProductRow(p: seq<nat>, i: nat)
    requires IsPermutation(p) && i < |p|
    ensures PermutationMatrix(p).Ok?
    ensures MatMul(PermutationMatrix(p).value, ConjTranspose(PermutationMatrix(p).value))[i]
         == Identity(|p|)[i]
  {
    var m := PermutationMatrix(p).value;
    var row := MatMul(m, ConjTranspose(m))[i];
    assert |row| == |p|;
    forall j | 0 <= j < |p|
      ensures row[j] == Identity(|p|)[i][j]
    {
      PermutationProductEntry(p, i, j);
    }
  }

  /** The entries of `ket` add up to the number of bits: each pair holds one 1. */
  lemma {:induction false} KetSum(values: seq<Bit>)
    ensures Sum(Ket(values)) == Complex(|values| as real, 0.0)
  {
    if |values| > 0 {
      var pair, rest := BitPair(values[0]), Ket(values[1..]);
      assert Ket(values) == pair + rest;
      assert (pair + rest)[1..] == [pair[1]] + rest;
      assert ([pair[1]] + rest)[1..] == rest;
      KetSum(values[1..]);
    }
  }

  /** `ket` is a concatenation, not the tensor-product basis vector: from three
      bits on it is shorter than the `2^n` amplitudes of an `n`-qubit register. */
  lemma {:induction false} KetShorterThanBasis(values: seq<Bit>)
    requires |values| >= 3
    ensures |Ket(values)| < Bits.Pow2(|values|)
  {
    if |values| > 3 {
      KetShorterThanBasis(values[1..]);
    }
  }

  /** Entries `2k` and `2k + 1` of `ket` are the pair of bit `k`. */
  lemma {:induction false} KetPair(values: seq<Bit>, k: nat)
    requires k < |values|
    ensures Ket(values)[2 * k] == (if values[k] == 0 then One else Zero)
    ensures Ket(values)[2 * k + 1] == (if values[k] == 0 then Zero else One)
  {
    if k > 0 {
      KetPair(values[1..], k - 1);
    }
  }

  lemma KetEntryIsReal(values: seq<Bit>, j: nat)
    requires j < 2 * |values|
    ensures Conj(Ket(values)[j]) == Ket(values)[j]
  {
    var b := j / 2;
    KetPair(values, b);
    var x := Ket(values)[j];
    if j % 2 == 0 {
      assert j == 2 * b;
    } else {
      assert j == 2 * b + 1;
    }
    assert x == One || x == Zero;
  }

  lemma AdjointOfColumn(k: Vector, j: nat)
    requires j < |k|
    ensures |ConjTranspose(AsColumn(k))| == 1 && |ConjTranspose(AsColumn(k))[0]| == |k|
    ensures ConjTranspose(AsColumn(k))[0][j] == Conj(k[j])
  {
    assert Cols(AsColumn(k)) == 1;
  }

  /** A column with real entries has itself, laid out as a row, as adjoint. */
  lemma AdjointOfRealColumn(k: Vector)
    requires |k| > 0
    requires forall j :: 0 <= j < |k| ==> Conj(k[j]) == k[j]
    ensures ConjTranspose(AsColumn(k)) == [k]
  {
    var h := ConjTranspose(AsColumn(k));
    AdjointOfColumn(k, 0);
    forall j | 0 <= j < |k|
      ensures h[0][j] == k[j]
    {
      AdjointOfColumn(k, j);
    }
    assert h[0] == k;
  }

  /** `bra` is the adjoint of `ket` taken as a column: the entries are real.
      (A matrix without rows records no column count here, hence at least one bit.) */
  lemma BraIsAdjointOfKet(values: seq<Bit>)
    requires |values| > 0
    ensures Bra(values) == ConjTranspose(AsColumn(Ket(values)))
  {
    var k := Ket(values);
    forall j | 0 <= j < |k|
      ensures Conj(k[j]) == k[j]
    {
      KetEntryIsReal(values, j);
    }
    AdjointOfRealColumn(k);
  }
}
