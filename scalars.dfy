/** Exact complex numbers, standing in for the double-precision `Complex<f64>`
    of the register. Only the ring operations the register uses are defined. */
module Scalars {

  datatype Complex = Complex(re: real, im: real)

  const Zero: Complex := Complex(0.0, 0.0)
  const One: Complex := Complex(1.0, 0.0)

  function Add(a: Complex, b: Complex): Complex {
    Complex(a.re + b.re, a.im + b.im)
  }

  function Mul(a: Complex, b: Complex): Complex {
    Complex(a.re * b.re - a.im * b.im, a.re * b.im + a.im * b.re)
  }

  function Neg(a: Complex): Complex {
    Complex(-a.re, -a.im)
  }

  /** Complex conjugate. */
  function Conj(a: Complex): Complex {
    Complex(a.re, -a.im)
  }

  /** Squared magnitude, `norm_sqr`; never negative. */
  function NormSqr(a: Complex): (r: real)
    ensures r >= 0.0
  {
    a.re * a.re + a.im * a.im
  }

  // Ring laws used by the matrix proofs; each is closed by arithmetic on the parts.

  lemma MulComm(a: Complex, b: Complex)
    ensures Mul(a, b) == Mul(b, a)
  {}

  lemma MulAssoc(a: Complex, b: Complex, c: Complex)
    ensures Mul(Mul(a, b), c) == Mul(a, Mul(b, c))
  {}

  lemma MulAddLeft(a: Complex, b: Complex, c: Complex)
    ensures Mul(a, Add(b, c)) == Add(Mul(a, b), Mul(a, c))
  {}

  lemma MulAddRight(a: Complex, b: Complex, c: Complex)
    ensures Mul(Add(a, b), c) == Add(Mul(a, c), Mul(b, c))
  {}

  /** Combining two values by a row of the identity picks one of them. */
  lemma UnitCombination(x: Complex, y: Complex)
    ensures Add(Mul(One, x), Mul(Zero, y)) == x && Add(Mul(Zero, x), Mul(One, y)) == y
    ensures Add(Mul(x, One), Mul(y, Zero)) == x && Add(Mul(x, Zero), Mul(y, One)) == y
  {}

  lemma ConjMul(a: Complex, b: Complex)
    ensures Conj(Mul(a, b)) == Mul(Conj(a), Conj(b))
  {}

  lemma MulConjSelf(a: Complex)
    ensures Mul(a, Conj(a)) == Complex(NormSqr(a), 0.0)
  {}

  lemma NormSqrMul(a: Complex, b: Complex)
    ensures NormSqr(Mul(a, b)) == NormSqr(a) * NormSqr(b)
  {}

  lemma RowWeight(a: Complex, b: Complex)
    ensures Add(Mul(a, Conj(a)), Mul(b, Conj(b))) == Complex(NormSqr(a) + NormSqr(b), 0.0)
  {}

  lemma ConjOfInner(a: Complex, b: Complex, c: Complex, d: Complex)
    ensures Add(Mul(c, Conj(a)), Mul(d, Conj(b))) == Conj(Add(Mul(a, Conj(c)), Mul(b, Conj(d))))
  {}

  lemma ConjInvolutive(a: Complex)
    ensures Conj(Conj(a)) == a
  {}

  lemma NormSqrConj(a: Complex)
    ensures NormSqr(Conj(a)) == NormSqr(a)
  {}

  lemma NormSqrNeg(a: Complex)
    ensures NormSqr(Neg(a)) == NormSqr(a)
  {}

  /** Two weights in [0, 1] with complementary partners and equal cross
      products are complementary themselves. */
  lemma ComplementaryWeights(wa: real, wb: real, wc: real, wd: real)
    requires wa + wb == 1.0 && wc + wd == 1.0
    requires wa * wc == wb * wd
    ensures wa + wc == 1.0 && wb == wc && wa == wd
  {
    assert wb * wd == (1.0 - wa) * (1.0 - wc);
    assert (1.0 - wa) * (1.0 - wc) == 1.0 - wa - wc + wa * wc;
  }
}
