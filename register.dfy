/** The shared quantum register and the qubit handles into it, with the
    register's intended behaviour: it starts as the one-entry vector `[1]`,
    a new qubit enters in logical zero, the operator fold starts from the
    1×1 identity, `measure_all_z` collapses onto the sampled basis state,
    and `measure_one_z` keeps the amplitudes that agree with the outcome of
    qubit `q` (bit `size - 1 - q`). Module Written holds the operations as
    the source writes them and the inputs on which the two differ.

    The random draws are parameters: `measure_all_z` receives the index the
    weighted sampler returns, `measure_one_z` the Boolean `random_bool`
    returns; each comes with the precondition that the sampler can return it. */
module Register {
  import opened Scalars
  import opened Linear
  import opened Bits
  import opened Faults
  import opened Types
  import opened Engine
  import opened Measure

  class State {
    /** The amplitude vector over the basis states of all qubits allocated so far. */
    var qubits: Vector
    /** The number of qubits allocated so far. */
    var size: nat

    ghost predicate Valid()
      reads this
    {
      |qubits| == Pow2(size)
    }

    /** A register without qubits: the single amplitude of the empty tuple. */
    constructor()
      ensures Valid() && qubits == [One] && size == 0
      ensures Weight(qubits) == 1.0
    {
      qubits := [One];
      size := 0;
    }

    /** Allocates the next qubit in logical zero and returns its handle. */
    method AllocateQubit() returns (q: Qubit)
      requires Valid()
      modifies this
      ensures Valid() && size == old(size) + 1
      ensures qubits == KronVec2(old(qubits), LogicalZero)
      ensures Weight(qubits) == Weight(old(qubits))
      ensures fresh(q) && q.idx == old(size) && q.state == this
    {
      var idx := size;
      q := new Qubit(idx, this);
      GrowKeepsWeight(qubits, LogicalZero);
      qubits := KronVec2(qubits, LogicalZero);
      size := idx + 1;
    }

    /** Applies the 2×2 gate `op` to qubit `idx`: builds the full operator as
        a Kronecker fold over all positions and multiplies the vector by it.
        A qubit number past the register leaves the vector as it is. */
    method ApplyOperation(op: MatrixOperation, idx: nat)
      requires Valid()
      modifies this
      ensures Valid() && size == old(size)
      ensures qubits == GateAt(old(qubits), size, idx, op.m)
    {
      var m := Unit;
      var i := 0;
      while i < size
        invariant i <= size
        invariant m == Operator(Unit, i, idx, op.m)
      {
        if i == idx {
          assert Factor(i, idx, op.m) == op.m;
          m := Kron2(m, op.m);
        } else {
          assert Factor(i, idx, op.m) == Identity(2);
          m := Kron2(m, Identity(2));
        }
        i := i + 1;
      }
      OperatorAction(size, idx, op.m, qubits);
      qubits := MatVec(m, qubits);
    }

    /** Measures every qubit. `k` is the basis index drawn with probability
        proportional to its weight. A vector without weight makes the
        sampler fail; otherwise the register collapses onto basis state `k`
        and the outcome tuple of `k` is returned. */
    method MeasureAllZ(k: nat) returns (r: Result<seq<Measurement>>)
      requires Valid()
      requires Weight(qubits) > 0.0 ==> k < |qubits| && NormSqr(qubits[k]) > 0.0
      modifies this
      ensures Valid() && size == old(size)
      ensures Weight(old(qubits)) == 0.0 ==> r == Panic(DegenerateWeights) && qubits == old(qubits)
      ensures Weight(old(qubits)) > 0.0 ==> r == Ok(Decode(k, size)) && qubits == OneHot(Pow2(size), k)
    {
      if Weight(qubits) == 0.0 {
        return Panic(DegenerateWeights);
      }
      var options := Outcomes(size);
      OutcomesDecode(size, k);
      qubits := OneHot(|qubits|, k);
      r := Ok(options[k]);
    }

    /** The first pass of `measure_one_z`: the weight of outcome ZERO for
        qubit `q` and the set `idxs` of basis indices with that qubit at zero. */
    method ZeroSide(q: nat) returns (zeroProb: real, idxs: set<nat>)
      ensures zeroProb == ZeroWeight(qubits, size, q)
      ensures forall j: nat :: j in idxs <==> j < |qubits| && InZeroSet(j, size, q)
    {
      idxs := {};
      zeroProb := 0.0;
      var i := 0;
      while i < |qubits|
        invariant i <= |qubits|
        invariant zeroProb == Masked(qubits, ZeroMask(|qubits|, size, q), true, i)
        invariant forall j: nat :: j in idxs <==> j < i && InZeroSet(j, size, q)
      {
        if InZeroSet(i, size, q) {
          idxs := idxs + {i};
          zeroProb := zeroProb + NormSqr(qubits[i]);
        }
        i := i + 1;
      }
    }

    /** Measures qubit `q`. `draw` is what `random_bool` returns for the
        weight of outcome ZERO: true reports ZERO. The amplitudes of the
        basis states that disagree with the outcome become zero. */
    method MeasureOneZ(q: nat, draw: bool) returns (r: Measurement)
      requires Valid()
      requires DrawAllowed(qubits, size, q, draw)
      modifies this
      ensures Valid() && size == old(size)
      ensures r == Outcome(draw)
      ensures qubits == CollapseOne(old(qubits), size, q, r)
    {
      ghost var v := qubits;
      // `zeroProb` is what `random_bool` receives; `draw` stands for its answer.
      var zeroProb, idxs := ZeroSide(q);
      if draw {
        var i := 0;
        while i < |qubits|
          invariant size == old(size) && |qubits| == |v| && i <= |v|
          invariant forall j :: 0 <= j < i ==> qubits[j] == if InZeroSet(j, size, q) then v[j] else Zero
          invariant forall j :: i <= j < |v| ==> qubits[j] == v[j]
        {
          if i !in idxs {
            qubits := qubits[i := Zero];
          }
          i := i + 1;
        }
        r := ZERO;
        assert qubits == CollapseOne(v, size, q, r);
      } else {
        var rest := idxs;
        while rest != {}
          invariant size == old(size) && rest <= idxs && |qubits| == |v|
          invariant forall j :: 0 <= j < |v| ==> qubits[j] == if j in idxs && j !in rest then Zero else v[j]
          decreases |rest|
        {
          var j :| j in rest;
          qubits := qubits[j := Zero];
          rest := rest - {j};
        }
        r := ONE;
        forall j | 0 <= j < |v|
          ensures qubits[j] == CollapseOne(v, size, q, r)[j]
        {
          assert j in idxs <==> InZeroSet(j, size, q);
        }
      }
    }
  }

  /** A handle on one qubit of a shared register. */
  class Qubit {
    const idx: nat
    const state: State

    constructor(idx: nat, state: State)
      ensures this.idx == idx && this.state == state
    {
      this.idx := idx;
      this.state := state;
    }

    /** Applies `op` to this qubit of the shared register. */
    method ApplyOperation(op: MatrixOperation)
      requires state.Valid()
      modifies state
      ensures state.Valid() && state.size == old(state.size)
      ensures state.qubits == GateAt(old(state.qubits), state.size, idx, op.m)
    {
      state.ApplyOperation(op, idx);
    }
  }

  /** `Operation::apply`: an operation applied to a qubit handle. */
  method Apply(op: MatrixOperation, q: Qubit)
    requires q.state.Valid()
    modifies q.state
    ensures q.state.Valid() && q.state.size == old(q.state.size)
    ensures q.state.qubits == GateAt(old(q.state.qubits), q.state.size, q.idx, op.m)
  {
    q.ApplyOperation(op);
  }

  /** On a basis state the weighted sampler has exactly one index it can
      return: the state's own. So a fresh register, `OneHot(2^n, 0)`, admits
      the draw `0` and no other. */
  lemma BasisStateDrawsItself(len: nat, j: nat, k: nat)
    requires j < len
    requires Weight(OneHot(len, j)) > 0.0 ==> k < len && NormSqr(OneHot(len, j)[k]) > 0.0
    ensures Weight(OneHot(len, j)) == 1.0
    ensures k == j
  {
    BasisStateWeight(len, j);
  }

  /** A basis state has weight one. */
  lemma BasisStateWeight(len: nat, j: nat)
    requires j < len
    ensures Weight(OneHot(len, j)) == 1.0
  {
    UnitEntryWeight(OneHot(len, j), j);
  }

  /** A vector that is one at `j` and zero elsewhere has weight one. */
  lemma {:induction false} UnitEntryWeight(v: Vector, j: nat)
    requires j < |v| && v[j] == One
    requires forall i :: 0 <= i < |v| && i != j ==> v[i] == Zero
    ensures Weight(v) == 1.0
  {
    if j == 0 {
      AllZeroWeightless(v[1..]);
    } else {
      UnitEntryWeight(v[1..], j - 1);
    }
  }

  /** A new register with `n` freshly allocated qubits reads ZERO on every
      qubit, and measuring it leaves it where it was. The draw passed to the
      sampler is `0`, the only one a basis state admits
      (`BasisStateDrawsItself`). */
  method MeasureFreshRegister(n: nat) returns (s: State, r: Result<seq<Measurement>>)
    ensures fresh(s) && s.Valid() && s.size == n
    ensures r == Ok(seq(n, j => ZERO))
    ensures s.qubits == GrowMany([One], LogicalZero, n)
  {
    s := new State();
    var i := 0;
    while i < n
      invariant 0 <= i <= n
      invariant fresh(s) && s.Valid() && s.size == i
      invariant s.qubits == GrowMany([One], LogicalZero, i) == OneHot(Pow2(i), 0)
      invariant Weight(s.qubits) == 1.0
    {
      var q := s.AllocateQubit();
      GrowManyLogicalZero(i + 1);
      i := i + 1;
    }
    r := s.MeasureAllZ(0);
    DecodeZero(n);
  }

  /** The bit-flip gate exchanges the two amplitudes of one qubit. */
  lemma FlipOneQubit(a: Complex, b: Complex)
    ensures GateAt([a, b], 1, 0, M2(Zero, One, One, Zero)) == [b, a]
  {
    var v, x := [a, b], M2(Zero, One, One, Zero);
    assert Pow2(1) == 2;
    assert Mix(v, 0, x, 0) == Add(Mul(Zero, a), Mul(One, b));
    assert Mix(v, 0, x, 1) == Add(Mul(One, a), Mul(Zero, b));
  }

  /** A qubit in state one has no weight on ZERO, and the draw must be false. */
  lemma OneQubitAtOne(draw: bool)
    ensures DrawAllowed([Zero, One], 1, 0, draw) <==> !draw
  {
    assert [Zero, One] == OneHot(2, 1);
    assert ZeroMask(2, 1, 0)[1] == false && ZeroMask(2, 1, 0)[0] == true;
    BasisMasked(2, 1, ZeroMask(2, 1, 0), true, 2);
    BasisMasked(2, 1, ZeroMask(2, 1, 0), false, 2);
  }

  /** The bit-flip gate. */
  const BitFlip: MatrixOperation := MatrixOperation(M2(Zero, One, One, Zero))

  /** The bit-flip gate is what `MatrixOperation::new` builds from its matrix:
      the matrix is its own adjoint and its own inverse. */
  lemma BitFlipPassesNew()
    ensures New(BitFlip.m) == Ok(BitFlip)
  {
    var m := BitFlip.m;
    assert ConjTranspose(m) == m by {
      ConjTranspose2(m);
    }
    assert MatMul(m, m) == M2(One, Zero, Zero, One) by {
      MatMul2(m, m);
    }
    Identity2();
  }

  /** A fresh qubit, flipped, is certain to read ONE, and reading it leaves
      it where it was. */
  lemma FlippedFreshQubit(draw: bool)
    ensures GateAt(KronVec2([One], LogicalZero), 1, 0, BitFlip.m) == [Zero, One]
    ensures DrawAllowed([Zero, One], 1, 0, draw) <==> !draw
    ensures CollapseOne([Zero, One], 1, 0, ONE) == [Zero, One]
  {
    var g := KronVec2([One], [One, Zero]);
    assert g[0] == Mul(One, One);
    assert g[1] == Mul(One, Zero);
    FlipOneQubit(One, Zero);
    OneQubitAtOne(draw);
    assert ZeroMask(2, 1, 0) == [true, false];
  }

  /** One qubit, flipped by the bit-flip gate, reads ONE with certainty. */
  method FlipFreshQubit() returns (s: State, r: Measurement)
    ensures fresh(s) && s.Valid() && s.size == 1
    ensures r == ONE && s.qubits == [Zero, One]
  {
    s := FlippedQubit();
    FlippedFreshQubit(false);
    r := s.MeasureOneZ(0, false);
  }

  /** A new register with one qubit, flipped by the bit-flip gate. */
  method FlippedQubit() returns (s: State)
    ensures fresh(s) && s.Valid() && s.size == 1 && s.qubits == [Zero, One]
  {
    s := new State();
    var q := s.AllocateQubit();
    Apply(BitFlip, q);
    FlippedFreshQubit(false);
  }
}
