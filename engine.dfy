/** The register's arithmetic, as pure functions: growing the amplitude
    vector when a qubit is allocated, the full-register operator built as a
    Kronecker fold of 2×2 factors, and what that operator does to a vector.

    Basis order: allocation forms `old ⊗ b`, so the newest qubit is the
    least significant bit of a basis index, and in a register of `n` qubits
    qubit `j` is bit `n - 1 - j`. The operator fold runs over positions
    `0..n` from the left and so agrees with that order. */
module Engine {
  import opened Scalars
  import opened Linear
  import opened Bits
  import Types
  import Algebra

  /** The basis column of a freshly allocated qubit as written: logical one. */
  const LogicalOne: Vector := [Zero, One]

  /** The intended basis column of a freshly allocated qubit: logical zero. */
  const LogicalZero: Vector := [One, Zero]

  /** `n` allocations in a row, starting from `seed`: allocating a qubit
      with basis column `b` is the Kronecker product `v ⊗ b`, whose entry
      `2i + k` is `v[i] * b[k]`. */
  function GrowMany(seed: Vector, b: Vector, n: nat): (r: Vector)
    requires |b| == 2
  {
    if n == 0 then seed else KronVec2(GrowMany(seed, b, n - 1), b)
  }

  /** The factor at position `i` of the fold: the gate at `idx`, the identity elsewhere. */
  function Factor(i: nat, idx: nat, m: Types.Matrix2): Types.Matrix2 {
    if i == idx then m else Identity(2)
  }

  /** The fold over positions `0..n`, each step `acc ⊗ Factor(i)`. */
  function Operator(seed: Matrix, n: nat, idx: nat, m: Types.Matrix2): (r: Matrix)
    requires Rectangular(seed)
    ensures Rectangular(r)
  {
    if n == 0 then seed else Kron2(Operator(seed, n - 1, idx, m), Factor(n - 1, idx, m))
  }

  /** The one-by-one identity, the neutral seed of the fold. */
  const Unit: Matrix := [[One]]

  /** The intended effect of applying the 2×2 gate `m` to qubit `idx` of an
      `n`-qubit register: entry `r` mixes the two entries that differ from `r`
      at most in that qubit's bit, by the row of `m` that the bit selects. A
      qubit number past the register leaves the vector alone. */
  function GateAt(v: Vector, n: nat, idx: nat, m: Types.Matrix2): (r: Vector)
    requires |v| == Pow2(n)
    ensures |r| == |v|
  {
    if idx >= n then v
    else
      seq(|v|, r requires 0 <= r < |v| => Mix(v, n - 1 - idx, m, r))
  }

  /** Entry `r` after the gate acts on bit `p`: the row of `m` chosen by bit
      `p` of `r`, against the two entries that agree with `r` elsewhere
      (both exist whenever `r` and bit `p` lie inside the register). */
  function Mix(v: Vector, p: nat, m: Types.Matrix2, r: nat): Complex {
    var b, r0, r1 := Bit(r, p), WithBit(r, p, 0), WithBit(r, p, 1);
    if r0 < |v| && r1 < |v| then Add(Mul(m[b][0], v[r0]), Mul(m[b][1], v[r1])) else Zero
  }

  // Allocation.

  /** The as-written allocation puts every old amplitude at the odd position
      `2i + 1` (the new qubit is one) and zero at `2i`. */
  lemma GrowLogicalOne(v: Vector, i: nat)
    requires i < |v|
    ensures KronVec2(v, LogicalOne)[2 * i] == Zero
    ensures KronVec2(v, LogicalOne)[2 * i + 1] == v[i]
  {}

  /** The intended allocation puts every old amplitude at the even position
      `2i` (the new qubit is zero) and zero at `2i + 1`. */
  lemma GrowLogicalZero(v: Vector, i: nat)
    requires i < |v|
    ensures KronVec2(v, LogicalZero)[2 * i] == v[i]
    ensures KronVec2(v, LogicalZero)[2 * i + 1] == Zero
  {}

  /** Allocating a qubit in a basis state keeps the total weight. */
  lemma {:induction false} GrowKeepsWeight(v: Vector, b: Vector)
    requires b == LogicalZero || b == LogicalOne
    ensures Weight(KronVec2(v, b)) == Weight(v)
  {
    if |v| > 0 {
      var g := KronVec2(v, b);
      KronVec2Tail(v, b);
      WeightSplit(g, 2);
      WeightOfPair(g[..2]);
      BasisPairWeight(v[0], b);
      GrowKeepsWeight(v[1..], b);
    }
  }

  lemma WeightOfPair(x: Vector)
    requires |x| == 2
    ensures Weight(x) == NormSqr(x[0]) + NormSqr(x[1])
  {
    assert x[1..][1..] == [];
    assert Weight(x[1..]) == NormSqr(x[1]) + Weight(x[1..][1..]);
  }

  /** Scaling by a basis column keeps the weight of an amplitude. */
  lemma BasisPairWeight(a: Complex, b: Vector)
    requires b == LogicalZero || b == LogicalOne
    ensures NormSqr(Mul(a, b[0])) + NormSqr(Mul(a, b[1])) == NormSqr(a)
  {
    NormSqrMul(a, b[0]);
    NormSqrMul(a, b[1]);
  }

  /** Every allocation doubles the length. */
  lemma {:induction false} GrowManyLength(seed: Vector, b: Vector, n: nat)
    requires |b| == 2
    ensures |GrowMany(seed, b, n)| == |seed| * Pow2(n)
  {
    if n > 0 {
      GrowManyLength(seed, b, n - 1);
      assert |seed| * Pow2(n) == 2 * (|seed| * Pow2(n - 1));
    }
  }

  /** Starting from the empty vector, every allocation leaves it empty. */
  lemma EmptySeedStaysEmpty(b: Vector, n: nat)
    requires |b| == 2
    ensures GrowMany([], b, n) == []
  {
    GrowManyLength([], b, n);
  }

  lemma GrowOneHotLogicalOne(n: nat, k: nat)
    requires k < n
    ensures KronVec2(OneHot(n, k), LogicalOne) == OneHot(2 * n, 2 * k + 1)
  {
    var g := KronVec2(OneHot(n, k), LogicalOne);
    forall r | 0 <= r < 2 * n
      ensures g[r] == OneHot(2 * n, 2 * k + 1)[r]
    {
      var q, lo := r / 2, r % 2;
      assert r == 2 * q + lo && lo <= 1;
      assert g[r] == Mul(OneHot(n, k)[q], LogicalOne[lo]);
      if r == 2 * k + 1 {
        HalveDouble(k, 1);
      }
    }
  }

  lemma GrowOneHotLogicalZero(n: nat, k: nat)
    requires k < n
    ensures KronVec2(OneHot(n, k), LogicalZero) == OneHot(2 * n, 2 * k)
  {
    var g := KronVec2(OneHot(n, k), LogicalZero);
    forall r | 0 <= r < 2 * n
      ensures g[r] == OneHot(2 * n, 2 * k)[r]
    {
      var q, lo := r / 2, r % 2;
      assert r == 2 * q + lo && lo <= 1;
      assert g[r] == Mul(OneHot(n, k)[q], LogicalZero[lo]);
      if r == 2 * k {
        HalveDouble(k, 0);
      }
    }
  }

  /** From the unit seed, allocating in logical one yields the basis vector of
      the all-ones index `2^n - 1`. */
  lemma {:induction false} GrowManyLogicalOne(n: nat)
    ensures GrowMany([One], LogicalOne, n) == OneHot(Pow2(n), Pow2(n) - 1)
  {
    if n == 0 {
      assert [One] == OneHot(1, 0);
    } else {
      var h := Pow2(n - 1);
      calc {
        GrowMany([One], LogicalOne, n);
        KronVec2(GrowMany([One], LogicalOne, n - 1), LogicalOne);
        { GrowManyLogicalOne(n - 1);
          assert GrowMany([One], LogicalOne, n - 1) == OneHot(h, h - 1); }
        KronVec2(OneHot(h, h - 1), LogicalOne);
        { GrowOneHotLogicalOne(h, h - 1); }
        OneHot(2 * h, 2 * (h - 1) + 1);
        { assert Pow2(n) == 2 * h; }
        OneHot(Pow2(n), Pow2(n) - 1);
      }
    }
  }

  /** From the unit seed, allocating in logical zero yields the basis vector of
      index 0, the all-zeros state. */
  lemma {:induction false} GrowManyLogicalZero(n: nat)
    ensures GrowMany([One], LogicalZero, n) == OneHot(Pow2(n), 0)
  {
    if n == 0 {
      assert [One] == OneHot(1, 0);
    } else {
      var h := Pow2(n - 1);
      assert GrowMany([One], LogicalZero, n - 1) == OneHot(h, 0) by {
        GrowManyLogicalZero(n - 1);
      }
      assert KronVec2(OneHot(h, 0), LogicalZero) == OneHot(Pow2(n), 0) by {
        GrowOneHotLogicalZero(h, 0);
      }
    }
  }

  // The operator fold.

  /** Every fold step doubles both dimensions. */
  lemma {:induction false} OperatorShape(seed: Matrix, n: nat, idx: nat, m: Types.Matrix2)
    requires Rectangular(seed)
    ensures |Operator(seed, n, idx, m)| == |seed| * Pow2(n)
    ensures Cols(Operator(seed, n, idx, m)) == Cols(seed) * Pow2(n)
  {
    if n > 0 {
      var j := n - 1;
      var prev, f := Operator(seed, j, idx, m), Factor(j, idx, m);
      OperatorShape(seed, j, idx, m);
      KronShape(prev, f);
      ShapeStep(|seed|, Cols(seed), |prev|, Cols(prev), Pow2(j), Pow2(n));
    }
  }

  lemma KronShape(a: Matrix, b: Types.Matrix2)
    requires Rectangular(a)
    ensures |Kron2(a, b)| == 2 * |a| && Cols(Kron2(a, b)) == 2 * Cols(a)
  {}

  lemma ShapeStep(rows: nat, cols: nat, r: nat, c: nat, h: nat, t: nat)
    requires r == rows * h && c == cols * h && t == 2 * h
    ensures 2 * r == rows * t && 2 * c == cols * t
  {}

  /** From the unit seed the operator is `2^n` square. */
  lemma UnitOperatorShape(n: nat, idx: nat, m: Types.Matrix2)
    ensures IsMatrix(Operator(Unit, n, idx, m), Pow2(n), Pow2(n))
  {
    OperatorShape(Unit, n, idx, m);
  }

  /** From the empty seed (`dmatrix![]`, zero by zero) the fold stays empty. */
  lemma EmptyOperator(n: nat, idx: nat, m: Types.Matrix2)
    ensures Operator([], n, idx, m) == []
  {
    OperatorShape([], n, idx, m);
  }

  /** With the gate past the last position every factor is the identity, and
      so is the operator. */
  lemma {:induction false} OperatorOfIdentities(n: nat, idx: nat, m: Types.Matrix2)
    requires idx >= n
    ensures Operator(Unit, n, idx, m) == Identity(Pow2(n))
  {
    if n == 0 {
      assert Identity(1)[0] == [One];
    } else {
      OperatorOfIdentities(n - 1, idx, m);
      KronIdentity(Pow2(n - 1));
    }
  }

  /** The pairs of `v` combined by the row `b`: entry `j` is `b[0] v[2j] + b[1] v[2j+1]`. */
  function Pairs(b: Vector, v: Vector): (w: Vector)
    requires |b| == 2 && |v| % 2 == 0
    ensures |w| == |v| / 2 && 2 * |w| == |v|
  {
    seq(|v| / 2, j requires 0 <= j < |v| / 2 => Add(Mul(b[0], v[2 * j]), Mul(b[1], v[2 * j + 1])))
  }

  lemma PairStep(a: Complex, b0: Complex, b1: Complex, v0: Complex, v1: Complex, rest: Complex)
    ensures Add(Mul(Mul(a, b0), v0), Add(Mul(Mul(a, b1), v1), rest))
         == Add(Mul(a, Add(Mul(b0, v0), Mul(b1, v1))), rest)
  {
    MulAssoc(a, b0, v0);
    MulAssoc(a, b1, v1);
    MulAddLeft(a, Mul(b0, v0), Mul(b1, v1));
  }

  /** The dot product with its first two terms taken out. */
  lemma DotTwo(u: Vector, v: Vector)
    requires |u| == |v| && |u| >= 2
    ensures Dot(u, v) == Add(Mul(u[0], v[0]), Add(Mul(u[1], v[1]), Dot(u[2..], v[2..])))
  {
    assert u[1..][1..] == u[2..];
    assert v[1..][1..] == v[2..];
  }

  /** `a ⊗ b` starts with `a[0] b` and continues with `a[1..] ⊗ b`. */
  lemma KronVec2Tail(a: Vector, b: Vector)
    requires |b| == 2 && |a| > 0
    ensures KronVec2(a, b)[0] == Mul(a[0], b[0]) && KronVec2(a, b)[1] == Mul(a[0], b[1])
    ensures KronVec2(a, b)[2..] == KronVec2(a[1..], b)
  {
    var u, w := KronVec2(a, b)[2..], KronVec2(a[1..], b);
    forall i | 0 <= i < |w|
      ensures u[i] == w[i]
    {
      assert (i + 2) / 2 == i / 2 + 1 && (i + 2) % 2 == i % 2;
    }
  }

  /** The pairs of `v` start with the pair `v[0], v[1]` and continue with the pairs of `v[2..]`. */
  lemma PairsTail(b: Vector, v: Vector)
    requires |b| == 2 && |v| % 2 == 0 && |v| >= 2
    ensures Pairs(b, v)[0] == Add(Mul(b[0], v[0]), Mul(b[1], v[1]))
    ensures Pairs(b, v)[1..] == Pairs(b, v[2..])
  {
    var p, w := Pairs(b, v)[1..], Pairs(b, v[2..]);
    forall j | 0 <= j < |w|
      ensures p[j] == w[j]
    {
      assert 2 * (j + 1) == 2 * j + 2;
    }
  }

  /** A row of `a ⊗ b` against `v` is `a` against the pairs of `v` combined by `b`. */
  lemma {:induction false} DotKron(a: Vector, b: Vector, v: Vector)
    requires |b| == 2 && |v| == 2 * |a|
    ensures Dot(KronVec2(a, b), v) == Dot(a, Pairs(b, v))
  {
    if |a| > 0 {
      var u, p := KronVec2(a, b), Pairs(b, v);
      DotTwo(u, v);
      KronVec2Tail(a, b);
      PairsTail(b, v);
      DotKron(a[1..], b, v[2..]);
      PairStep(a[0], b[0], b[1], v[0], v[1], Dot(a[1..], Pairs(b, v[2..])));
    }
  }

  /** Row `2i + k` of `a ⊗ b` acts on `v` as row `i` of `a` on the pairs of
      `v` combined by row `k` of `b`. */
  lemma MatVecKron(a: Matrix, b: Types.Matrix2, v: Vector, i: nat, k: nat)
    requires Rectangular(a) && |v| == 2 * Cols(a) && i < |a| && k < 2
    ensures MatVec(Kron2(a, b), v)[2 * i + k] == MatVec(a, Pairs(b[k], v))[i]
  {
    var row := Kron2(a, b)[2 * i + k];
    assert (2 * i + k) / 2 == i && (2 * i + k) % 2 == k;
    assert row == KronVec2(a[i], b[k]);
    DotKron(a[i], b[k], v);
  }

  /** Entries `k` of the pairs of `v`: entry `j` is `v[2j + k]`. */
  function Select(v: Vector, k: nat): (w: Vector)
    requires k < 2
    ensures |w| == |v| / 2 && (|v| % 2 == 0 ==> 2 * |w| == |v|)
  {
    seq(|v| / 2, j requires 0 <= j < |v| / 2 => v[2 * j + k])
  }

  lemma SelectLength(v: Vector, k: nat, h: nat)
    requires |v| == 2 * h && k < 2
    ensures |v| % 2 == 0 && |Select(v, k)| == h
  {
    HalveDouble(h, 0);
  }

  /** Pairs combined by an identity row pick one entry of each pair. */
  lemma PairsOfIdentity(v: Vector, k: nat)
    requires |v| % 2 == 0 && k < 2
    ensures Pairs(Identity(2)[k], v) == Select(v, k)
  {}

  /** Entry `r` of the gate's effect when the gate sits on the last of
      `j + 1` positions. */
  lemma GateAtLast(v: Vector, j: nat, m: Types.Matrix2, r: nat)
    requires |v| == Pow2(j + 1) && r < |v|
    ensures GateAt(v, j + 1, j, m)[r] == Pairs(m[r % 2], v)[r / 2]
  {
    assert Bit(r, 0) == r % 2;
    assert WithBit(r, 0, 0) == 2 * (r / 2);
    assert WithBit(r, 0, 1) == 2 * (r / 2) + 1;
  }

  /** Selecting entries `k` commutes with replacing a higher bit. */
  lemma InnerEntry(v: Vector, k: nat, i: nat, p: nat, c: nat)
    requires |v| % 2 == 0 && k < 2 && c < 2
    requires WithBit(i, p, c) < |v| / 2
    ensures WithBit(2 * i + k, p + 1, c) == 2 * WithBit(i, p, c) + k
    ensures Select(v, k)[WithBit(i, p, c)] == v[WithBit(2 * i + k, p + 1, c)]
  {
    BitShift(i, k, p, c);
  }

  /** Mixing on bit `p` of the selected entries is mixing on bit `p + 1` of the whole. */
  lemma MixInner(v: Vector, k: nat, i: nat, p: nat, m: Types.Matrix2)
    requires |v| % 2 == 0 && k < 2
    requires WithBit(i, p, 0) < |Select(v, k)| && WithBit(i, p, 1) < |Select(v, k)|
    ensures Mix(Select(v, k), p, m, i) == Mix(v, p + 1, m, 2 * i + k)
  {
    InnerEntry(v, k, i, p, 0);
    InnerEntry(v, k, i, p, 1);
    BitShift(i, k, p, 0);
  }

  /** Entry `r` of the gate's effect on qubit `idx`, which is bit `n - 1 - idx`. */
  lemma GateAtEntry(v: Vector, n: nat, idx: nat, m: Types.Matrix2, r: nat)
    requires idx < n && |v| == Pow2(n) && r < |v|
    ensures WithBit(r, n - 1 - idx, 0) < |v| && WithBit(r, n - 1 - idx, 1) < |v|
    ensures GateAt(v, n, idx, m)[r] == Mix(v, n - 1 - idx, m, r)
  {
    WithBitBelow(r, n - 1 - idx, 0, n);
    WithBitBelow(r, n - 1 - idx, 1, n);
  }

  lemma PairIndexBelow(i: nat, k: nat, h: nat)
    requires i < h && k < 2
    ensures 2 * i + k < 2 * h
  {}

  /** Entry `i` of the gate's effect on the entries `k` of the pairs of `v`
      mixes the entries of `v` around `2i + k` on the bit one place higher. */
  lemma SelectedMix(v: Vector, j: nat, idx: nat, m: Types.Matrix2, i: nat, k: nat)
    requires idx < j && |v| == 2 * Pow2(j) && i < Pow2(j) && k < 2
    ensures |Select(v, k)| == Pow2(j)
    ensures GateAt(Select(v, k), j, idx, m)[i] == Mix(v, j - idx, m, 2 * i + k)
  {
    SelectLength(v, k, Pow2(j));
    WithBitBelow(i, j - 1 - idx, 0, j);
    WithBitBelow(i, j - 1 - idx, 1, j);
    MixInner(v, k, i, j - 1 - idx, m);
  }

  /** Entry `2i + k` of the gate's effect when the gate sits before the last
      position: the last bit `k` is carried along unchanged. */
  lemma GateAtInner(v: Vector, j: nat, idx: nat, m: Types.Matrix2, i: nat, k: nat)
    requires idx < j && |v| == 2 * Pow2(j) && |v| == Pow2(j + 1)
    requires i < Pow2(j) && k < 2
    ensures |Select(v, k)| == Pow2(j)
    ensures GateAt(v, j + 1, idx, m)[2 * i + k] == GateAt(Select(v, k), j, idx, m)[i]
  {
    PairIndexBelow(i, k, Pow2(j));
    GateAtEntry(v, j + 1, idx, m, 2 * i + k);
    SelectedMix(v, j, idx, m, i, k);
  }

  /** Row `2i + k` of the gate's effect on `j + 1` positions is row `i` of
      its effect on `j` positions, applied to the pairs combined by row `k`
      of the last factor. */
  lemma GateAtStep(v: Vector, j: nat, idx: nat, m: Types.Matrix2, i: nat, k: nat)
    requires |v| == Pow2(j + 1) && |v| == 2 * Pow2(j) && i < Pow2(j) && k < 2
    requires |v| % 2 == 0 && 2 * i + k < |v|
    ensures |Pairs(Factor(j, idx, m)[k], v)| == Pow2(j)
    ensures GateAt(Pairs(Factor(j, idx, m)[k], v), j, idx, m)[i] == GateAt(v, j + 1, idx, m)[2 * i + k]
  {
    if idx == j {
      GateAtStepHere(v, j, m, i, k);
    } else {
      PairsOfIdentity(v, k);
      if idx > j {
        GateAtStepAbove(v, j, idx, m, i, k);
      } else {
        GateAtInner(v, j, idx, m, i, k);
      }
    }
  }

  /** `GateAtStep` when the gate sits on the last position. */
  lemma GateAtStepHere(v: Vector, j: nat, m: Types.Matrix2, i: nat, k: nat)
    requires |v| == Pow2(j + 1) && |v| == 2 * Pow2(j) && i < Pow2(j) && k < 2
    requires |v| % 2 == 0 && 2 * i + k < |v|
    ensures |Pairs(m[k], v)| == Pow2(j)
    ensures GateAt(Pairs(m[k], v), j, j, m)[i] == GateAt(v, j + 1, j, m)[2 * i + k]
  {
    var r := 2 * i + k;
    GateAtLast(v, j, m, r);
    assert r / 2 == i && r % 2 == k;
  }

  /** `GateAtStep` when the gate lies past every position: nothing moves. */
  lemma GateAtStepAbove(v: Vector, j: nat, idx: nat, m: Types.Matrix2, i: nat, k: nat)
    requires idx > j && |v| == 2 * Pow2(j) && |v| == Pow2(j + 1) && i < Pow2(j) && k < 2
    requires 2 * i + k < |v|
    ensures |Select(v, k)| == Pow2(j)
    ensures GateAt(Select(v, k), j, idx, m)[i] == GateAt(v, j + 1, idx, m)[2 * i + k]
  {}

  lemma MatVecUnit(v: Vector)
    requires |v| == 1
    ensures MatVec(Unit, v) == v
  {
    assert Unit[0][1..] == [] && v[1..] == [];
    assert Dot(Unit[0], v) == v[0];
  }

  /** One row of the induction step: if the fold over `n - 1` positions acts
      as the gate on the pairs of `v` combined by row `k` of the last factor,
      then row `2i + k` of the fold over `n` positions acts as the gate on `v`. */
  lemma {:induction false} OperatorStep(j: nat, idx: nat, m: Types.Matrix2, v: Vector, i: nat, k: nat)
    requires |v| == Pow2(j + 1) && |v| == 2 * Pow2(j) && i < Pow2(j) && k < 2
    ensures |Operator(Unit, j + 1, idx, m)| == |v| && Cols(Operator(Unit, j + 1, idx, m)) == |v|
    ensures MatVec(Operator(Unit, j + 1, idx, m), v)[2 * i + k] == GateAt(v, j + 1, idx, m)[2 * i + k]
    decreases j + 1, 0
  {
    var o, f := Operator(Unit, j, idx, m), Factor(j, idx, m);
    var big := Operator(Unit, j + 1, idx, m);
    assert big == Kron2(o, f);
    var w := Pairs(f[k], v);
    assert |w| == Pow2(j);
    assert |o| == Pow2(j) && Cols(o) == Pow2(j) && MatVec(o, w)[i] == GateAt(w, j, idx, m)[i] by {
      OperatorActionAt(j, idx, m, w, i);
    }
    PairIndexBelow(i, k, Pow2(j));
    GateAtStep(v, j, idx, m, i, k);
    MatVecKron(o, f, v, i, k);
  }

  /** Row `r` of the Kronecker fold applied to a vector is row `r` of the
      single-qubit gate at `idx`. */
  lemma {:induction false} OperatorActionAt(n: nat, idx: nat, m: Types.Matrix2, v: Vector, r: nat)
    requires |v| == Pow2(n) && r < |v|
    ensures |Operator(Unit, n, idx, m)| == |v| && Cols(Operator(Unit, n, idx, m)) == |v|
    ensures MatVec(Operator(Unit, n, idx, m), v)[r] == GateAt(v, n, idx, m)[r]
    decreases n, 1
  {
    if n == 0 {
      UnitOperatorShape(0, idx, m);
      MatVecUnit(v);
    } else {
      var j, i, k := n - 1, r / 2, r % 2;
      assert j + 1 == n && r == 2 * i + k && i < Pow2(j) && |v| == 2 * Pow2(j) by {
        HalfBelow(r, n);
      }
      OperatorStep(j, idx, m, v, i, k);
    }
  }

  /** The Kronecker fold applied to a vector is the single-qubit gate at `idx`. */
  lemma OperatorAction(n: nat, idx: nat, m: Types.Matrix2, v: Vector)
    requires |v| == Pow2(n)
    ensures IsMatrix(Operator(Unit, n, idx, m), Pow2(n), Pow2(n))
    ensures MatVec(Operator(Unit, n, idx, m), v) == GateAt(v, n, idx, m)
  {
    UnitOperatorShape(n, idx, m);
    forall r | 0 <= r < |v|
      ensures MatVec(Operator(Unit, n, idx, m), v)[r] == GateAt(v, n, idx, m)[r]
    {
      OperatorActionAt(n, idx, m, v, r);
    }
  }

  // Laws of the gate's effect.

  /** The identity gate leaves every register alone. */
  lemma GateIdentity(v: Vector, n: nat, idx: nat)
    requires |v| == Pow2(n)
    ensures GateAt(v, n, idx, Identity(2)) == v
  {
    if idx < n {
      forall r | 0 <= r < |v|
        ensures GateAt(v, n, idx, Identity(2))[r] == v[r]
      {
        GateIdentityAt(v, n, idx, r);
      }
    }
  }

  lemma GateIdentityAt(v: Vector, n: nat, idx: nat, r: nat)
    requires idx < n && |v| == Pow2(n) && r < |v|
    ensures GateAt(v, n, idx, Identity(2))[r] == v[r]
  {
    GateAtEntry(v, n, idx, Identity(2), r);
    Types.Identity2();
    WithBitOwnBit(r, n - 1 - idx);
    UnitCombination(v[WithBit(r, n - 1 - idx, 0)], v[WithBit(r, n - 1 - idx, 1)]);
  }

  /** Mixing twice on the same bit is mixing once with the product. */
  lemma MixCompose(v: Vector, w: Vector, p: nat, a: Types.Matrix2, b: Types.Matrix2, r: nat)
    requires |w| == |v| && r < |v| && WithBit(r, p, 0) < |v| && WithBit(r, p, 1) < |v|
    requires w[WithBit(r, p, 0)] == Mix(v, p, a, WithBit(r, p, 0))
    requires w[WithBit(r, p, 1)] == Mix(v, p, a, WithBit(r, p, 1))
    ensures Mix(w, p, b, r) == Mix(v, p, MatMul(b, a), r)
  {
    var r0, r1 := WithBit(r, p, 0), WithBit(r, p, 1);
    BitOfWithBit(r, p, 0);
    BitOfWithBit(r, p, 1);
    WithBitTwice(r, p, 0, 0);
    WithBitTwice(r, p, 0, 1);
    WithBitTwice(r, p, 1, 0);
    WithBitTwice(r, p, 1, 1);
    var c := Bit(r, p);
    Types.MatMul2(b, a);
    Types.EntryAssoc(b[c][0], b[c][1], a[0][0], a[0][1], a[1][0], a[1][1], v[r0], v[r1]);
  }

  /** Entry `r` of two gates on the same qubit. */
  lemma GateComposeAt(v: Vector, n: nat, idx: nat, a: Types.Matrix2, b: Types.Matrix2, r: nat)
    requires idx < n && |v| == Pow2(n) && r < |v|
    ensures GateAt(GateAt(v, n, idx, a), n, idx, b)[r] == GateAt(v, n, idx, MatMul(b, a))[r]
  {
    var w, p := GateAt(v, n, idx, a), n - 1 - idx;
    var r0, r1 := WithBit(r, p, 0), WithBit(r, p, 1);
    assert r0 < |v| && r1 < |v| by {
      WithBitBelow(r, p, 0, n);
      WithBitBelow(r, p, 1, n);
    }
    assert w[r0] == Mix(v, p, a, r0);
    assert w[r1] == Mix(v, p, a, r1);
    MixCompose(v, w, p, a, b, r);
  }

  /** Two gates on the same qubit act as their product, the later one on the left. */
  lemma GateCompose(v: Vector, n: nat, idx: nat, a: Types.Matrix2, b: Types.Matrix2)
    requires |v| == Pow2(n)
    ensures GateAt(GateAt(v, n, idx, a), n, idx, b) == GateAt(v, n, idx, MatMul(b, a))
  {
    if idx < n {
      forall r | 0 <= r < |v|
        ensures GateAt(GateAt(v, n, idx, a), n, idx, b)[r] == GateAt(v, n, idx, MatMul(b, a))[r]
      {
        GateComposeAt(v, n, idx, a, b, r);
      }
    } else {
      Types.MatMul2(b, a);
    }
  }

  /** Applying a unitary operation and then its adjoint to the same qubit
      restores the register. */
  lemma GateUndo(v: Vector, n: nat, idx: nat, op: Types.MatrixOperation)
    requires |v| == Pow2(n) && Algebra.IsUnitary(op.m)
    ensures GateAt(GateAt(v, n, idx, op.m), n, idx, Types.Adjoint(op).m) == v
  {
    GateCompose(v, n, idx, op.m, Types.Adjoint(op).m);
    Types.AdjointUndoes(op);
    GateIdentity(v, n, idx);
  }
}
