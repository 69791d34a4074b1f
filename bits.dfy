/** Powers of two and the bits of a basis index, counted from the least
    significant end (bit 0 is the parity). */
module Bits {

  function Pow2(n: nat): (r: nat)
    ensures r >= 1
  {
    if n == 0 then 1 else 2 * Pow2(n - 1)
  }

  /** Bit `p` of `r`: `(r >> p) & 1`. */
  function Bit(r: nat, p: nat): (b: nat)
    ensures b <= 1
  {
    if p == 0 then r % 2 else Bit(r / 2, p - 1)
  }

  /** `r` with bit `p` replaced by `b`. */
  function WithBit(r: nat, p: nat, b: nat): nat
    requires b <= 1
  {
    if p == 0 then r - r % 2 + b else 2 * WithBit(r / 2, p - 1, b) + r % 2
  }

  lemma {:induction false} BitOfWithBit(r: nat, p: nat, b: nat)
    requires b <= 1
    ensures Bit(WithBit(r, p, b), p) == b
  {
    if p > 0 {
      var w, lo := WithBit(r / 2, p - 1, b), r % 2;
      HalveDouble(w, lo);
      BitOfWithBit(r / 2, p - 1, b);
    }
  }

  /** Halving `2w + lo` recovers `w`, and its parity is `lo`. */
  lemma HalveDouble(w: nat, lo: nat)
    requires lo <= 1
    ensures (2 * w + lo) / 2 == w && (2 * w + lo) % 2 == lo
  {}

  lemma {:induction false} WithBitOwnBit(r: nat, p: nat)
    ensures WithBit(r, p, Bit(r, p)) == r
  {
    if p > 0 {
      WithBitOwnBit(r / 2, p - 1);
    }
  }

  lemma {:induction false} WithBitTwice(r: nat, p: nat, b: nat, c: nat)
    requires b <= 1 && c <= 1
    ensures WithBit(WithBit(r, p, b), p, c) == WithBit(r, p, c)
  {
    if p > 0 {
      var w, lo := WithBit(r / 2, p - 1, b), r % 2;
      HalveDouble(w, lo);
      WithBitTwice(r / 2, p - 1, b, c);
    } else {
      HalveDouble(r / 2, b);
      assert WithBit(r, p, b) == 2 * (r / 2) + b;
    }
  }

  lemma {:induction false} WithBitBelow(r: nat, p: nat, b: nat, n: nat)
    requires b <= 1 && p < n && r < Pow2(n)
    ensures WithBit(r, p, b) < Pow2(n)
  {
    var m := n - 1;
    assert Pow2(n) == 2 * Pow2(m);
    if p > 0 {
      assert r / 2 < Pow2(m);
      WithBitBelow(r / 2, p - 1, b, m);
      assert WithBit(r, p, b) == 2 * WithBit(r / 2, p - 1, b) + r % 2;
    } else {
      assert WithBit(r, p, b) == r - r % 2 + b;
    }
  }

  /** An index below 2^p has no bit at position p or above. */
  lemma {:induction false} BitBeyond(r: nat, p: nat)
    requires r < Pow2(p)
    ensures Bit(r, p) == 0
  {
    if p > 0 {
      BitBeyond(r / 2, p - 1);
    }
  }

  /** Adding 2^m sets bit m of an index below 2^m and keeps the lower bits. */
  lemma {:induction false} BitAddPow2(r: nat, m: nat, j: nat)
    requires r < Pow2(m) && j <= m
    ensures Bit(r + Pow2(m), j) == if j == m then 1 else Bit(r, j)
  {
    if j > 0 {
      assert (r + Pow2(m)) / 2 == r / 2 + Pow2(m - 1);
      BitAddPow2(r / 2, m - 1, j - 1);
    } else if m > 0 {
      assert (r + Pow2(m)) % 2 == r % 2;
    }
  }

  /** Appending a low bit `k` shifts every other bit up by one. */
  lemma BitShift(i: nat, k: nat, p: nat, c: nat)
    requires k <= 1 && c <= 1
    ensures Bit(2 * i + k, p + 1) == Bit(i, p)
    ensures WithBit(2 * i + k, p + 1, c) == 2 * WithBit(i, p, c) + k
  {
    assert (2 * i + k) / 2 == i && (2 * i + k) % 2 == k;
  }

  /** Dropping the low bit of an index below 2^n leaves one below 2^(n-1). */
  lemma HalfBelow(r: nat, n: nat)
    requires n > 0 && r < Pow2(n)
    ensures Pow2(n) == 2 * Pow2(n - 1)
    ensures r / 2 < Pow2(n - 1) && r == 2 * (r / 2) + r % 2
  {}

  /** The index zero has every bit clear. */
  lemma {:induction false} BitOfZero(p: nat)
    ensures Bit(0, p) == 0
  {
    if p > 0 {
      BitOfZero(p - 1);
    }
  }

  /** The index `2^n - 1` has every bit below `n` set. */
  lemma {:induction false} BitOfAllOnes(n: nat, p: nat)
    requires p < n
    ensures Bit(Pow2(n) - 1, p) == 1
  {
    var m := n - 1;
    var a := Pow2(m) - 1;
    assert Pow2(n) == 2 * Pow2(m);
    assert Pow2(n) - 1 == 2 * a + 1;
    if p > 0 {
      assert Bit(a, p - 1) == 1 by {
        BitOfAllOnes(m, p - 1);
      }
      BitShift(a, 1, p - 1, 0);
    } else {
      assert (2 * a + 1) % 2 == 1;
    }
  }
}
