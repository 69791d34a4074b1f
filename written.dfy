/** The register operations of `State` exactly as the source writes them,
    as pure functions of the amplitude vector, together with inputs on which
    they disagree with the register's evident design. The class
    `Register.State` implements the intended behaviour; the lemmas here
    exhibit each difference on a concrete register. */
module Written {
  import opened Scalars
  import opened Linear
  import opened Bits
  import opened Faults
  import opened Types
  import opened Engine
  import opened Measure

  /** `State::new`: the default amplitude vector has no entries. */
  const EmptyRegister: Vector := []

  /** `State::qubit` as written: the new qubit enters in logical one. */
  function AllocateWritten(v: Vector): (r: Vector)
    ensures |r| == 2 * |v|
  {
    KronVec2(v, LogicalOne)
  }

  /** `State::apply_operation` as written: the fold starts from the 0×0
      matrix `dmatrix![]`, and the product panics unless the operator's
      column count matches the vector. */
  function ApplyWritten(v: Vector, n: nat, idx: nat, m: Matrix2): (r: Result<Vector>)
    ensures r.Ok? <==> Cols(Operator([], n, idx, m)) == |v|
  {
    var op := Operator([], n, idx, m);
    if Cols(op) == |v| then Ok(MatVec(op, v)) else Panic(DimensionMismatch)
  }

  /** `State::measure_all_z` as written, with the sampled index `k` as a
      parameter: the sampler panics on a vector without weight, the state
      collapses onto basis index `2^k`, and the outcome is entry `k` of the
      enumeration. */
  function MeasureAllWritten(v: Vector, n: nat, k: nat): (r: Result<(seq<Measurement>, Vector)>)
    requires Weight(v) > 0.0 ==> k < |v| && NormSqr(v[k]) > 0.0
    ensures Weight(v) == 0.0 ==> r == Panic(DegenerateWeights)
  {
    if Weight(v) == 0.0 then Panic(DegenerateWeights)
    else if Pow2(k) >= |v| then Panic(IndexOutOfBounds)
    else if k >= |Outcomes(n)| then Panic(NoSuchOutcome)
    else Ok((Outcomes(n)[k], OneHot(|v|, Pow2(k))))
  }

  /** The mask `i & (1 << idx) == 0`: bit `idx` counted from the least
      significant end. */
  function LowBitMask(len: nat, idx: nat): (mask: seq<bool>)
    ensures |mask| == len
  {
    seq(len, i requires 0 <= i < len => Bit(i, idx) == 0)
  }

  /** `zero_prob` as written. */
  function ZeroProbWritten(v: Vector, idx: nat): real {
    Masked(v, LowBitMask(|v|, idx), true, |v|)
  }

  /** The set `idxs` as written: every index with the bit clear inserts
      `idx`, not itself. */
  function IdxsWritten(v: Vector, idx: nat): set<nat> {
    if exists i :: 0 <= i < |v| && Bit(i, idx) == 0 then {idx} else {}
  }

  /** `State::measure_one_z` as written, with `random_bool`'s result as the
      parameter `draw` (a probability above one makes it panic): on true the
      entries in `idxs` become zero and ZERO is reported, on false every
      entry outside `idxs` becomes zero and ONE is reported. Normalisation
      is left out. */
  function MeasureOneWritten(v: Vector, idx: nat, draw: bool): (r: Result<(Measurement, Vector)>)
    requires ZeroProbWritten(v, idx) <= 1.0 ==>
               (draw ==> ZeroProbWritten(v, idx) > 0.0) && (!draw ==> ZeroProbWritten(v, idx) < 1.0)
    ensures r.Ok? ==> r.value.0 == Outcome(draw) && |r.value.1| == |v|
  {
    var idxs := IdxsWritten(v, idx);
    if ZeroProbWritten(v, idx) > 1.0 then Panic(ProbabilityOutOfRange)
    else if draw then
      if idx in idxs && idx >= |v| then Panic(IndexOutOfBounds)
      else Ok((ZERO, seq(|v|, i requires 0 <= i < |v| => if i in idxs then Zero else v[i])))
    else Ok((ONE, seq(|v|, i requires 0 <= i < |v| => if i in idxs then v[i] else Zero)))
  }

  // Finding: the empty seeds.

  /** As written the register never holds an amplitude: allocation keeps the
      vector empty, the operator fold stays 0×0, the product leaves the
      empty vector, and `measure_all_z` always panics. */
  lemma EmptyRegisterStaysEmpty(n: nat, idx: nat, m: Matrix2, k: nat)
    ensures GrowMany(EmptyRegister, LogicalOne, n) == []
    ensures ApplyWritten([], n, idx, m) == Ok([])
    ensures MeasureAllWritten([], n, k) == Panic(DegenerateWeights)
  {
    EmptySeedStaysEmpty(LogicalOne, n);
    EmptyOperator(n, idx, m);
  }

  /** Once the vector has entries, the 0×0 operator no longer fits it and
      every gate application panics. */
  lemma ApplyWrittenPanics(v: Vector, n: nat, idx: nat, m: Matrix2)
    requires |v| > 0
    ensures ApplyWritten(v, n, idx, m) == Panic(DimensionMismatch)
  {
    EmptyOperator(n, idx, m);
  }

  // Finding: allocation in logical one.

  /** As written every freshly allocated qubit reads ONE with certainty. */
  lemma FreshQubitsReadOneWritten(n: nat, q: nat, draw: bool)
    requires q < n
    requires DrawAllowed(GrowMany([One], LogicalOne, n), n, q, draw)
    ensures Outcome(draw) == ONE
  {
    GrowManyLogicalOne(n);
    AllOnesReadsOne(GrowMany([One], LogicalOne, n), n, q, draw);
  }

  /** With logical zero every freshly allocated qubit reads ZERO with certainty. */
  lemma FreshQubitsReadZero(n: nat, q: nat, draw: bool)
    requires q < n
    requires DrawAllowed(GrowMany([One], LogicalZero, n), n, q, draw)
    ensures Outcome(draw) == ZERO
  {
    GrowManyLogicalZero(n);
    AllZerosReadsZero(GrowMany([One], LogicalZero, n), n, q, draw);
  }

  // Finding: collapse onto `2^k`.

  /** On the two-qubit basis state 1 (qubit 0 at zero, qubit 1 at one) the
      only index the sampler can return is 1; as written the state collapses
      onto basis state 2, which reads the opposite outcome tuple. */
  lemma CollapseMisplacedWritten()
    ensures Weight(OneHot(4, 1)) > 0.0
    ensures MeasureAllWritten(OneHot(4, 1), 2, 1) == Ok(([ZERO, ONE], OneHot(4, 2)))
    ensures Decode(2, 2) == [ONE, ZERO]
  {
    assert OneHot(4, 1) == [Zero, One, Zero, Zero];
    OutcomesDecode(2, 1);
    assert Decode(1, 2) == [ZERO, ONE];
    assert Decode(2, 2) == [ONE, ZERO];
  }

  /** On the two-qubit basis state 3 the sampler returns 3, and as written
      the collapse writes index 8 of a four-entry vector. */
  lemma CollapseOutOfBoundsWritten()
    ensures Weight(OneHot(4, 3)) > 0.0
    ensures MeasureAllWritten(OneHot(4, 3), 2, 3) == Panic(IndexOutOfBounds)
  {
    assert OneHot(4, 3) == [Zero, Zero, Zero, One];
  }

  // Finding: `idxs.insert(idx)` and the swapped branches.

  /** One qubit in state one: `zero_prob` is zero, so `random_bool` returns
      false, and as written every amplitude is wiped; the intended collapse
      keeps the state. */
  lemma MeasureOneWipesWritten()
    ensures ZeroProbWritten([Zero, One], 0) == 0.0
    ensures MeasureOneWritten([Zero, One], 0, false) == Ok((ONE, [Zero, Zero]))
    ensures CollapseOne([Zero, One], 1, 0, ONE) == [Zero, One]
  {
    var v := [Zero, One];
    assert v == OneHot(2, 1);
    assert Bit(0, 0) == 0 && Bit(1, 0) == 1;
    BasisMasked(2, 1, LowBitMask(2, 0), true, 2);
    assert IdxsWritten(v, 0) == {0};
    var r := MeasureOneWritten(v, 0, false);
    assert r.Ok? && r.value.0 == ONE && |r.value.1| == 2;
    assert r.value.1[0] == v[0] == Zero && r.value.1[1] == Zero;
    assert r.value.1 == [Zero, Zero];
  }

  // Finding: the bit order of `measure_one_z`.

  /** Two qubits in basis state 1: qubit 0 is at zero, but as written
      `measure_one_z(0)` tests the least significant bit (qubit 1), finds no
      weight on zero and reports ONE; the intended weight of ZERO is all of it. */
  lemma MeasureOneWrongBitWritten()
    ensures ZeroProbWritten(OneHot(4, 1), 0) == 0.0
    ensures MeasureOneWritten(OneHot(4, 1), 0, false).Ok?
    ensures MeasureOneWritten(OneHot(4, 1), 0, false).value.0 == ONE
    ensures ZeroWeight(OneHot(4, 1), 2, 0) == 1.0 && Decode(1, 2)[0] == ZERO
  {
    assert Bit(1, 0) == 1 && Bit(1, 1) == 0;
    BasisMasked(4, 1, LowBitMask(4, 0), true, 4);
    BasisMasked(4, 1, ZeroMask(4, 2, 0), true, 4);
  }
}
