/** Measurement in the computational basis, as pure functions: the
    enumeration of outcome tuples that `measure_all_z` indexes into, the
    weight of each outcome of a single-qubit measurement, and the state a
    single-qubit measurement leaves behind.

    Qubit `q` of an `n`-qubit register is bit `n - 1 - q` of a basis index
    (see module Engine). A qubit number past the register has no bit, and
    every basis index counts as having it at zero, as `i & (1 << q) == 0`
    does for a bit beyond the index. */
module Measure {
  import opened Scalars
  import opened Linear
  import opened Bits
  import opened Types

  /** The outcome tuple of basis index `k`: qubit `j` reads bit `n - 1 - j`. */
  function Decode(k: nat, n: nat): (o: seq<Measurement>)
    ensures |o| == n
  {
    seq(n, j requires 0 <= j < n => FromBool(Bit(k, n - 1 - j) == 1))
  }

  /** Every tuple of `n` outcomes, first position slowest, ZERO before ONE:
      `repeat_n(Measurement::exhaust(), n).multi_cartesian_product()`. */
  function Outcomes(n: nat): (os: seq<seq<Measurement>>)
  {
    if n == 0 then [[]]
    else
      var rest := Outcomes(n - 1);
      seq(|rest|, i requires 0 <= i < |rest| => [ZERO] + rest[i])
        + seq(|rest|, i requires 0 <= i < |rest| => [ONE] + rest[i])
  }

  lemma {:induction false} OutcomesLength(n: nat)
    ensures |Outcomes(n)| == Pow2(n)
  {
    if n > 0 {
      OutcomesLength(n - 1);
    }
  }

  /** Below `2^m` the leading qubit of `m + 1` reads ZERO. */
  lemma DecodeZeroPrefix(k: nat, m: nat)
    requires k < Pow2(m)
    ensures Decode(k, m + 1) == [ZERO] + Decode(k, m)
  {
    BitBeyond(k, m);
    var d, e := Decode(k, m + 1), Decode(k, m);
    forall j | 1 <= j < m + 1
      ensures d[j] == e[j - 1]
    {
      var p := m - j;
      assert d[j] == FromBool(Bit(k, p) == 1);
    }
    assert d[0] == FromBool(Bit(k, m) == 1);
    assert d == [ZERO] + e;
  }

  /** Adding `2^m` makes the leading qubit of `m + 1` read ONE. */
  lemma DecodeOnePrefix(l: nat, m: nat)
    requires l < Pow2(m)
    ensures Decode(l + Pow2(m), m + 1) == [ONE] + Decode(l, m)
  {
    BitAddPow2(l, m, m);
    var d, e := Decode(l + Pow2(m), m + 1), Decode(l, m);
    forall j | 1 <= j < m + 1
      ensures d[j] == e[j - 1]
    {
      var p := m - j;
      BitAddPow2(l, m, p);
      assert d[j] == FromBool(Bit(l + Pow2(m), p) == 1);
    }
    assert d[0] == FromBool(Bit(l + Pow2(m), m) == 1);
    assert d == [ONE] + e;
  }

  /** Entry `k` of the enumeration is the outcome tuple of basis index `k`, so
      the tuple `measure_all_z` returns names the basis state it sampled. */
  lemma {:induction false} OutcomesDecode(n: nat, k: nat)
    requires k < Pow2(n)
    ensures |Outcomes(n)| == Pow2(n)
    ensures Outcomes(n)[k] == Decode(k, n)
  {
    OutcomesLength(n);
    if n > 0 {
      var m := n - 1;
      var h := Pow2(m);
      OutcomesLength(m);
      if k < h {
        OutcomesDecode(m, k);
        DecodeZeroPrefix(k, m);
      } else {
        var l := k - h;
        OutcomesDecode(m, l);
        DecodeOnePrefix(l, m);
      }
    }
  }

  /** Basis index zero reads ZERO on every qubit. */
  lemma DecodeZero(n: nat)
    ensures Decode(0, n) == seq(n, j => ZERO)
  {
    forall j | 0 <= j < n
      ensures Decode(0, n)[j] == ZERO
    {
      var p := n - 1 - j;
      BitOfZero(p);
      assert Decode(0, n)[j] == FromBool(Bit(0, p) == 1);
    }
  }

  /** Basis index `2^n - 1` reads ONE on every qubit. */
  lemma DecodeAllOnes(n: nat)
    ensures Decode(Pow2(n) - 1, n) == seq(n, j => ONE)
  {
    var d := Decode(Pow2(n) - 1, n);
    forall j | 0 <= j < n
      ensures d[j] == ONE
    {
      DecodeAllOnesAt(n, j);
    }
  }

  /** Qubit `q` of basis index `2^n - 1` reads ONE. */
  lemma DecodeAllOnesAt(n: nat, q: nat)
    requires q < n
    ensures Decode(Pow2(n) - 1, n)[q] == ONE
  {
    var p := n - 1 - q;
    BitOfAllOnes(n, p);
    assert Decode(Pow2(n) - 1, n)[q] == FromBool(Bit(Pow2(n) - 1, p) == 1);
  }

  /** Whether basis index `r` has qubit `q` at zero. */
  predicate InZeroSet(r: nat, n: nat, q: nat) {
    q >= n || Bit(r, n - 1 - q) == 0
  }

  /** The zero set of qubit `q` over the first `len` basis indices, as a mask
      (the set `idxs` of `measure_one_z`). */
  function ZeroMask(len: nat, n: nat, q: nat): (mask: seq<bool>)
    ensures |mask| == len
  {
    seq(len, r requires 0 <= r < len => InZeroSet(r, n, q))
  }

  /** The weight of the first `t` entries whose mask bit is `side`. */
  function Masked(v: Vector, mask: seq<bool>, side: bool, t: nat): real
    requires t <= |v| && t <= |mask|
  {
    if t == 0 then 0.0
    else Masked(v, mask, side, t - 1) + (if mask[t - 1] == side then NormSqr(v[t - 1]) else 0.0)
  }

  /** The entries whose mask bit is `side`; every other entry becomes zero. */
  function Restrict(v: Vector, mask: seq<bool>, side: bool): (c: Vector)
    requires |mask| == |v|
    ensures |c| == |v|
  {
    seq(|v|, r requires 0 <= r < |v| => if mask[r] == side then v[r] else Zero)
  }

  /** The weight of outcome ZERO for qubit `q` (`zero_prob` before normalisation). */
  function ZeroWeight(v: Vector, n: nat, q: nat): real {
    Masked(v, ZeroMask(|v|, n, q), true, |v|)
  }

  /** The weight of outcome ONE for qubit `q`. */
  function OneWeight(v: Vector, n: nat, q: nat): real {
    Masked(v, ZeroMask(|v|, n, q), false, |v|)
  }

  /** The two sides of a mask together carry the whole weight. */
  lemma {:induction false} MaskedPartition(v: Vector, mask: seq<bool>, t: nat)
    requires t <= |v| && t <= |mask|
    ensures Masked(v, mask, true, t) + Masked(v, mask, false, t) == Weight(v[..t])
  {
    if t > 0 {
      MaskedPartition(v, mask, t - 1);
      WeightLast(v[..t]);
      assert v[..t][..t - 1] == v[..t - 1];
    }
  }

  /** The two outcomes' weights together are the total weight. */
  lemma WeightsPartition(v: Vector, n: nat, q: nat)
    ensures ZeroWeight(v, n, q) + OneWeight(v, n, q) == Weight(v)
  {
    MaskedPartition(v, ZeroMask(|v|, n, q), |v|);
    assert v[..|v|] == v;
  }

  /** What `rng().random_bool(p)` may return for `p` the normalised weight
      of outcome ZERO: never true when that weight is zero, never false
      when all the weight is on ZERO. */
  predicate DrawAllowed(v: Vector, n: nat, q: nat, draw: bool) {
    (draw ==> ZeroWeight(v, n, q) > 0.0) && (!draw ==> OneWeight(v, n, q) > 0.0 || ZeroWeight(v, n, q) == 0.0)
  }

  /** `random_bool` returning true reports ZERO. */
  function Outcome(draw: bool): (m: Measurement)
    ensures m == ZERO <==> draw
  {
    FromBool(!draw)
  }

  /** The state left by measuring qubit `q` with result `m`: the amplitudes
      of the basis states that agree with `m` stay, the others become zero
      (normalisation aside). */
  function CollapseOne(v: Vector, n: nat, q: nat, m: Measurement): (c: Vector)
    ensures |c| == |v|
  {
    Restrict(v, ZeroMask(|v|, n, q), m == ZERO)
  }

  /** Restricting keeps the weight of the kept side ... */
  lemma {:induction false} RestrictKeeps(v: Vector, mask: seq<bool>, side: bool, t: nat)
    requires |mask| == |v| && t <= |v|
    ensures Masked(Restrict(v, mask, side), mask, side, t) == Masked(v, mask, side, t)
  {
    if t > 0 {
      RestrictKeeps(v, mask, side, t - 1);
    }
  }

  /** ... and empties the other. */
  lemma {:induction false} RestrictEmpties(v: Vector, mask: seq<bool>, side: bool, t: nat)
    requires |mask| == |v| && t <= |v|
    ensures Masked(Restrict(v, mask, side), mask, !side, t) == 0.0
  {
    if t > 0 {
      var s := t - 1;
      RestrictEmpties(v, mask, side, s);
    }
  }

  /** Measuring the same qubit again repeats the outcome: after collapsing
      to `Outcome(draw)`, the only draw allowed is `draw` again. */
  lemma Remeasure(v: Vector, n: nat, q: nat, draw: bool, again: bool)
    requires DrawAllowed(v, n, q, draw)
    requires DrawAllowed(CollapseOne(v, n, q, Outcome(draw)), n, q, again)
    ensures again == draw
  {
    var mask := ZeroMask(|v|, n, q);
    RestrictKeeps(v, mask, draw, |v|);
    RestrictEmpties(v, mask, draw, |v|);
  }

  /** The weight of one side of a basis vector is one when its index lies
      on that side among the first `t` entries, zero otherwise. */
  lemma {:induction false} BasisMasked(size: nat, k: nat, mask: seq<bool>, side: bool, t: nat)
    requires k < size && t <= size && |mask| == size
    ensures Masked(OneHot(size, k), mask, side, t) == if k < t && mask[k] == side then 1.0 else 0.0
  {
    if t > 0 {
      var s := t - 1;
      BasisMasked(size, k, mask, side, s);
    }
  }

  /** Measuring one qubit of the basis state `k` is certain and agrees with
      the outcome tuple of `k`: a register collapsed by `measure_all_z`
      reads the same values qubit by qubit. */
  lemma BasisStateMeasuresAsDecoded(v: Vector, n: nat, k: nat, q: nat, draw: bool)
    requires k < Pow2(n) && q < n && v == OneHot(Pow2(n), k)
    requires DrawAllowed(v, n, q, draw)
    ensures Outcome(draw) == Decode(k, n)[q]
  {
    var mask := ZeroMask(Pow2(n), n, q);
    BasisMasked(Pow2(n), k, mask, true, Pow2(n));
    BasisMasked(Pow2(n), k, mask, false, Pow2(n));
    var b := Bit(k, n - 1 - q);
    assert mask[k] == (b == 0);
    assert Decode(k, n)[q] == FromBool(b == 1);
  }

  /** Every qubit of the all-zeros basis state 0 reads ZERO with certainty. */
  lemma AllZerosReadsZero(v: Vector, n: nat, q: nat, draw: bool)
    requires q < n && v == OneHot(Pow2(n), 0)
    requires DrawAllowed(v, n, q, draw)
    ensures Outcome(draw) == ZERO
  {
    BasisStateMeasuresAsDecoded(v, n, 0, q, draw);
    DecodeZero(n);
  }

  /** Every qubit of the all-ones basis state `2^n - 1` reads ONE with certainty. */
  lemma AllOnesReadsOne(v: Vector, n: nat, q: nat, draw: bool)
    requires q < n && v == OneHot(Pow2(n), Pow2(n) - 1)
    requires DrawAllowed(v, n, q, draw)
    ensures Outcome(draw) == ONE
  {
    BasisStateMeasuresAsDecoded(v, n, Pow2(n) - 1, q, draw);
    DecodeAllOnesAt(n, q);
  }
}
