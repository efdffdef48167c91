// Integer facts shared by the index arithmetic of `for_each!` and of the
// double-ended cartesian product: multiplication is monotone, and Euclidean
// division is determined by its quotient and remainder.
module Arith {
  lemma Distrib(d: int, a: int, b: int)
    ensures d * (a + b) == d * a + d * b
  {
  }

  lemma MulMono(d: int, x: int, y: int)
    requires d >= 0 && x >= y
    ensures d * x >= d * y
  {
    Distrib(d, y, x - y);
    assert d * (x - y) >= 0;
  }

  /** Euclidean division is determined by quotient and remainder. */
  lemma DivModUnique(a: int, d: int, q: int, r: int)
    requires d > 0 && 0 <= r < d && a == d * q + r
    ensures a / d == q && a % d == r
  {
    var q' := a / d;
    assert a == d * q' + a % d;
    if q > q' {
      MulMono(d, q, q' + 1);
      Distrib(d, q', 1);
      assert false;
    } else if q < q' {
      MulMono(d, q', q + 1);
      Distrib(d, q, 1);
      assert false;
    }
  }

  lemma DivBelow(a: nat, d: nat, p: nat)
    requires d > 0 && a < p * d
    ensures a / d < p
  {
    var q := a / d;
    assert a == d * q + a % d;
    if q >= p {
      MulMono(d, q, p);
      assert false;
    }
  }

  /** The quotient and remainder put back together. */
  lemma DivMod(a: nat, d: nat)
    requires d > 0
    ensures a == (a / d) * d + a % d && a % d < d
  {
  }
}
