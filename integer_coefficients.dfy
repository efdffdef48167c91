// The exact integer coefficients of src/numerics/special_functions/
// integer_coefficients.rs (repeated in src/numerics/special_functions.rs):
// binomial and multinomial coefficients computed as products of exact
// fractions, and the Bernoulli numbers kept in a cache that grows on demand.
// Rationals are Dafny `real`s, which are exact.
module IntegerCoefficients {
  import opened Wrappers
  import Numerics
  import Arith

  // ---- factorials, binomial coefficients and products

  function Fact(n: nat): (f: nat)
    ensures f >= 1
  {
    if n == 0 then 1 else n * Fact(n - 1)
  }

  /** The binomial coefficient by Pascal's rule. */
  function Choose(n: nat, k: nat): nat
  {
    if k == 0 then 1
    else if n == 0 then 0
    else Choose(n - 1, k - 1) + Choose(n - 1, k)
  }

  /** There is no way to pick more items than there are. */
  lemma {:induction false} ChooseAbove(n: nat, k: nat)
    requires k > n
    ensures Choose(n, k) == 0
  {
    if n > 0 {
      ChooseAbove(n - 1, k - 1);
      ChooseAbove(n - 1, k);
    }
  }

  /** There is one way to pick all the items. */
  lemma {:induction false} ChooseAll(n: nat)
    ensures Choose(n, n) == 1
  {
    if n > 0 {
      ChooseAll(n - 1);
      ChooseAbove(n - 1, n);
    }
  }

  /** `C(n, k) · k! · (n − k)! = n!` */
  lemma {:induction false} ChooseFact(n: nat, k: nat)
    requires k <= n
    ensures Choose(n, k) * Fact(k) * Fact(n - k) == Fact(n)
  {
    if k == 0 {
      assert Choose(n, k) * Fact(k) == 1;
    } else if k == n {
      ChooseAll(n);
      assert Fact(n - k) == 1;
    } else {
      ChooseFact(n - 1, k - 1);
      ChooseFact(n - 1, k);
      var a := Choose(n - 1, k - 1);
      var b := Choose(n - 1, k);
      var x := Fact(k - 1);
      var y := Fact(n - 1 - k);
      assert Fact(k) == k * x;
      assert Fact(n - k) == (n - k) * y;
      assert Fact(n) == n * Fact(n - 1);
      PascalStep(a, b, k, n - k, x, y, Fact(n - 1));
    }
  }

  /** `C(n, k) = C(n, n − k)`: the reason the source may replace `k` by
      `min(k, n − k)`. */
  lemma ChooseSymmetric(n: nat, k: nat)
    requires k <= n
    ensures Choose(n, k) == Choose(n, n - k)
  {
    ChooseFact(n, k);
    ChooseFact(n, n - k);
    assert n - (n - k) == k;
    var x := Fact(k);
    var y := Fact(n - k);
    MulAssoc(Choose(n, k), x, y);
    MulAssoc(Choose(n, n - k), y, x);
    PositiveProduct(x, y);
    CancelRight(Choose(n, k), Choose(n, n - k), x * y);
  }

  lemma PositiveProduct(x: nat, y: nat)
    requires x >= 1 && y >= 1
    ensures x * y >= 1
  {
    Arith.MulMono(x, y, 1);
  }

  /** The arithmetic of one step of `ChooseFact`, with `x = (k − 1)!`,
      `y = (n − 1 − k)!` and `f = (n − 1)!`. */
  lemma PascalStep(a: int, b: int, k: int, m: int, x: int, y: int, f: int)
    requires a * x * (m * y) == f && b * (k * x) * y == f
    ensures (a + b) * (k * x) * (m * y) == (k + m) * f
  {
    calc {
      (a + b) * (k * x) * (m * y);
      a * (k * x) * (m * y) + b * (k * x) * (m * y);
      k * (a * x * (m * y)) + m * (b * (k * x) * y);
      k * f + m * f;
    }
  }

  lemma CancelRight(a: nat, b: nat, d: nat)
    requires d > 0 && a * d == b * d
    ensures a == b
  {
    if a < b {
      Arith.MulMono(d, b, a + 1);
      Arith.Distrib(d, a, 1);
      assert false;
    } else if a > b {
      Arith.MulMono(d, a, b + 1);
      Arith.Distrib(d, b, 1);
      assert false;
    }
  }

  /** The product of some naturals. */
  function Prod(s: seq<nat>): (p: nat)
  {
    if |s| == 0 then 1 else s[0] * Prod(s[1..])
  }

  lemma {:induction false} ProdAppend(a: seq<nat>, b: seq<nat>)
    ensures Prod(a + b) == Prod(a) * Prod(b)
  {
    if |a| > 0 {
      assert (a + b)[0] == a[0] && (a + b)[1..] == a[1..] + b;
      ProdAppend(a[1..], b);
    } else {
      assert a + b == b;
    }
  }

  /** `n, n − 1, …, n − k + 1` */
  function Falling(n: nat, k: nat): (s: seq<nat>)
    requires k <= n
    ensures |s| == k && forall i :: 0 <= i < k ==> s[i] == n - i
  {
    seq(k, i requires 0 <= i < k => n - i)
  }

  /** `lo, lo + 1, …, lo + count − 1` */
  function Rising(lo: nat, count: nat): (s: seq<nat>)
    ensures |s| == count && forall i :: 0 <= i < count ==> s[i] == lo + i
  {
    seq(count, i requires 0 <= i < count => lo + i)
  }

  /** `n (n − 1) ⋯ (n − k + 1) · (n − k)! = n!` */
  lemma {:induction false} ProdFalling(n: nat, k: nat)
    requires k <= n
    ensures Prod(Falling(n, k)) * Fact(n - k) == Fact(n)
  {
    if k > 0 {
      ProdFalling(n - 1, k - 1);
      assert Falling(n, k)[1..] == Falling(n - 1, k - 1);
      var p := Prod(Falling(n - 1, k - 1));
      assert Prod(Falling(n, k)) == n * p;
      assert n - k == n - 1 - (k - 1);
      assert p * Fact(n - k) == Fact(n - 1);
      MulAssoc(n, p, Fact(n - k));
    }
  }

  /** `(lo + 1) (lo + 2) ⋯ hi · lo! = hi!` */
  lemma {:induction false} ProdRising(lo: nat, hi: nat)
    requires lo <= hi
    ensures Prod(Rising(lo + 1, hi - lo)) * Fact(lo) == Fact(hi)
    decreases hi - lo
  {
    if lo < hi {
      var p := Prod(Rising(lo + 2, hi - (lo + 1)));
      assert Prod(Rising(lo + 1, hi - lo)) == (lo + 1) * p by {
        assert Rising(lo + 1, hi - lo)[1..] == Rising(lo + 2, hi - (lo + 1));
      }
      assert p * Fact(lo + 1) == Fact(hi) by {
        ProdRising(lo + 1, hi);
      }
      assert Fact(lo + 1) == (lo + 1) * Fact(lo);
      MulAssoc(lo + 1, p, Fact(lo));
      MulAssoc(p, lo + 1, Fact(lo));
    }
  }

  lemma MulAssoc(a: int, b: int, c: int)
    ensures a * b * c == a * (b * c) && a * b * c == b * (a * c)
  {
  }

  // ---- the fold over pairs of numerator and denominator

  /** `zip(nums, dens).fold(1, |a, (num, den)| a * num / den)`: the zip stops
      at the shorter side. */
  function ZipFold(acc: real, nums: seq<nat>, dens: seq<nat>): (r: real)
    requires forall i :: 0 <= i < |dens| ==> dens[i] > 0
    ensures acc >= 0.0 ==> r >= 0.0
    decreases |nums|
  {
    if |nums| == 0 || |dens| == 0 then acc
    else ZipFold(Scale(acc, nums[0], dens[0]), nums[1..], dens[1..])
  }

  /** `num / den` as an exact fraction. */
  function Frac(num: nat, den: nat): (q: real)
    requires den > 0
    ensures q >= 0.0
  {
    num as real / den as real
  }

  /** One step of the fold: `a * RU::new(num, den)`. */
  function Scale(acc: real, num: nat, den: nat): (r: real)
    requires den > 0
    ensures acc >= 0.0 ==> r >= 0.0
  {
    acc * Frac(num, den)
  }

  /** The product of the fractions `nums[i] / dens[i]`. */
  function Ratio(nums: seq<nat>, dens: seq<nat>): real
    requires |nums| == |dens|
    requires forall i :: 0 <= i < |dens| ==> dens[i] > 0
  {
    if |nums| == 0 then 1.0
    else Frac(nums[0], dens[0]) * Ratio(nums[1..], dens[1..])
  }

  /** The fold multiplies its start value by all the fractions. */
  lemma {:induction false} ZipFoldRatio(acc: real, nums: seq<nat>, dens: seq<nat>)
    requires |nums| == |dens|
    requires forall i :: 0 <= i < |dens| ==> dens[i] > 0
    ensures ZipFold(acc, nums, dens) == acc * Ratio(nums, dens)
    decreases |nums|
  {
    if |nums| > 0 {
      ZipFoldStep(acc, nums, dens);
      ZipFoldRatio(Scale(acc, nums[0], dens[0]), nums[1..], dens[1..]);
      MulAssocReal(acc, Frac(nums[0], dens[0]), Ratio(nums[1..], dens[1..]));
    }
  }

  /** With as many numerators as denominators the fractions multiply to
      the quotient of the products. */
  lemma {:induction false} RatioQuotient(nums: seq<nat>, dens: seq<nat>)
    requires |nums| == |dens|
    requires forall i :: 0 <= i < |dens| ==> dens[i] > 0
    ensures Prod(dens) > 0
    ensures MulR(Ratio(nums, dens), Prod(dens) as real) == Prod(nums) as real
    decreases |nums|
  {
    if |nums| > 0 {
      RatioQuotient(nums[1..], dens[1..]);
      var r := Ratio(nums[1..], dens[1..]);
      assert Prod(nums) == nums[0] * Prod(nums[1..]);
      assert Prod(dens) == dens[0] * Prod(dens[1..]);
      RealMul(Prod(dens), dens[0], Prod(dens[1..]));
      RealMul(Prod(nums), nums[0], Prod(nums[1..]));
      PositiveProduct(dens[0], Prod(dens[1..]));
      QuotientStep(nums[0] as real, dens[0] as real, r, Prod(nums[1..]) as real, Prod(dens[1..]) as real);
      assert Frac(nums[0], dens[0]) == nums[0] as real / dens[0] as real;
    }
  }

  lemma ZipFoldStep(acc: real, nums: seq<nat>, dens: seq<nat>)
    requires |nums| > 0 && |dens| > 0
    requires forall i :: 0 <= i < |dens| ==> dens[i] > 0
    ensures ZipFold(acc, nums, dens) == ZipFold(Scale(acc, nums[0], dens[0]), nums[1..], dens[1..])
  {
  }

  lemma RealMul(p: nat, a: nat, b: nat)
    requires p == a * b
    ensures p as real == a as real * b as real
  {
  }

  lemma MulAssocReal(a: real, b: real, c: real)
    ensures a * b * c == a * (b * c)
  {
  }

  /** One step of `RatioQuotient`: `(n/d · r) · (d · pd) = n · pn` when
      `r · pd = pn`. */
  lemma QuotientStep(n: real, d: real, r: real, pn: real, pd: real)
    requires d > 0.0 && r * pd == pn
    ensures (n / d) * r * (d * pd) == n * pn
  {
    calc {
      (n / d) * r * (d * pd);
      (n / d) * d * (r * pd);
      n * pn;
    }
  }

  /** Real multiplication under a name of its own, so that equal factors
      give equal products without arithmetic. */
  function MulR(a: real, b: real): real
  {
    a * b
  }

  lemma CancelReal(a: real, b: real, f: real, p: real)
    requires f > 0.0
    requires MulR(a, f) == p
    requires p == MulR(b, f)
    ensures a == b
  {
  }

  // ---- binomial_coefficient

  /** `binomial_coefficient(n, k)`: a panic when `k > n`; otherwise the
      exact product `n/k · (n − 1)/(k − 1) ⋯ (n − k + 1)/1` with `k` first
      replaced by `min(k, n − k)`, and a panic if that is not an integer. */
  function Binomial(n: nat, k: nat): (r: Result<nat, string>)
  {
    if k > n then Err("k > n")
    else
      var k' := Numerics.Min(k, n - k) as nat;
      var v := ZipFold(1.0, Falling(n, k'), Falling(k', k'));
      if v == v.Floor as real then Ok(v.Floor as nat)
      else Err("binomial coefficient is not an integer")
  }

  /** The product of fractions equals the binomial coefficient. */
  lemma BinomialFold(n: nat, k: nat)
    requires k <= n
    ensures ZipFold(1.0, Falling(n, k), Falling(k, k)) == Choose(n, k) as real
  {
    ProdFalling(n, k);
    FallingFactorial(k);
    ChooseFact(n, k);
    IntQuotient(Prod(Falling(n, k)), Choose(n, k), Fact(k), Fact(n - k), Fact(n));
    FoldOfProducts(Falling(n, k), Falling(k, k), Choose(n, k));
  }

  /** `k (k − 1) ⋯ 1 = k!` */
  lemma FallingFactorial(k: nat)
    ensures Prod(Falling(k, k)) == Fact(k)
  {
    ProdFalling(k, k);
    assert k - k == 0;
    var p := Prod(Falling(k, k));
    assert p * 1 == Fact(k);
  }

  /** When the numerators multiply to `c` times the product of the
      denominators, the fold gives `c`. */
  lemma FoldOfProducts(nums: seq<nat>, dens: seq<nat>, c: nat)
    requires |nums| == |dens| && forall i :: 0 <= i < |dens| ==> dens[i] > 0
    requires Prod(nums) as real == MulR(c as real, Prod(dens) as real)
    ensures ZipFold(1.0, nums, dens) == c as real
  {
    ZipFoldRatio(1.0, nums, dens);
    RatioQuotient(nums, dens);
    CancelReal(Ratio(nums, dens), c as real, Prod(dens) as real, Prod(nums) as real);
  }

  /** `c · fk · fm = fn = pn · fm` gives `pn = c · fk`. */
  lemma IntQuotient(pn: nat, c: nat, fk: nat, fm: nat, fn: nat)
    requires fm >= 1 && c * fk * fm == fn && pn * fm == fn
    ensures pn == c * fk && pn as real == MulR(c as real, fk as real)
  {
    CancelRight(c * fk, pn, fm);
    RealMul(pn, c, fk);
  }

  /** `binomial_coefficient` fails exactly when `k > n`, and otherwise
      returns `C(n, k)`: the integrality check never fires. */
  lemma BinomialIsChoose(n: nat, k: nat)
    ensures Binomial(n, k).Err? <==> k > n
    ensures k <= n ==> Binomial(n, k) == Ok(Choose(n, k))
  {
    if k <= n {
      var k' := Numerics.Min(k, n - k) as nat;
      BinomialFold(n, k');
      if k' != k {
        ChooseSymmetric(n, k);
      }
      var v := ZipFold(1.0, Falling(n, k'), Falling(k', k'));
      assert v == Choose(n, k) as real;
      assert v.Floor == Choose(n, k);
    }
  }

  // ---- multinomial_coefficients

  function Sum(ps: seq<nat>): nat
  {
    if |ps| == 0 then 0 else ps[0] + Sum(ps[1..])
  }

  /** `Π p!` over the parameters. */
  function FactProd(ps: seq<nat>): (r: nat)
    ensures r >= 1
  {
    if |ps| == 0 then 1 else Fact(ps[0]) * FactProd(ps[1..])
  }

  /** The parameters that are not zero, in order. */
  function Positives(ps: seq<nat>): (qs: seq<nat>)
    ensures forall i :: 0 <= i < |qs| ==> qs[i] > 0
    ensures Sum(qs) == Sum(ps) && FactProd(qs) == FactProd(ps)
  {
    if |ps| == 0 then []
    else if ps[0] == 0 then Positives(ps[1..])
    else [ps[0]] + Positives(ps[1..])
  }

  /** The ranges `1..=p` of every parameter, one after the other. */
  function Denominators(ps: seq<nat>): (ds: seq<nat>)
    ensures |ds| == Sum(ps) && Prod(ds) == FactProd(ps)
    ensures forall i :: 0 <= i < |ds| ==> ds[i] > 0
  {
    if |ps| == 0 then []
    else
      var r := Rising(1, ps[0]);
      var rest := Denominators(ps[1..]);
      ProdRising(0, ps[0]);
      ProdAppend(r, rest);
      r + rest
  }

  /** The multinomial coefficient as a product of binomial ones; an
      integer by construction. */
  function Multi(ps: seq<nat>): nat
  {
    if |ps| == 0 then 1 else Choose(Sum(ps), ps[0]) * Multi(ps[1..])
  }

  /** `(Σ p)! = Multi(ps) · Π p!` */
  lemma {:induction false} MultiFact(ps: seq<nat>)
    ensures Multi(ps) * FactProd(ps) == Fact(Sum(ps))
  {
    if |ps| > 0 {
      MultiFact(ps[1..]);
      var s := Sum(ps);
      var t := Sum(ps[1..]);
      ChooseFact(s, ps[0]);
      assert s - ps[0] == t;
      Regroup(Choose(s, ps[0]), Multi(ps[1..]), Fact(ps[0]), FactProd(ps[1..]), Fact(t), Fact(s));
    }
  }

  lemma Regroup(c: int, m: int, f: int, g: int, t: int, s: int)
    requires c * f * t == s && m * g == t
    ensures (c * m) * (f * g) == s
  {
    calc {
      (c * m) * (f * g);
      c * f * (m * g);
    }
  }

  /** `multinomial_coefficients(params)`: with fewer than two positive
      parameters 1; otherwise the exact product of `first+1, …, Σp` over the
      concatenated ranges `1..=p` of the remaining positive parameters,
      and a panic if that is not an integer. */
  function Multinomial(ps: seq<nat>): (r: Result<nat, string>)
  {
    var sum := Sum(ps);
    var pos := Positives(ps);
    if |pos| < 2 then Ok(1)
    else
      var first := pos[0];
      assert Sum(pos) == first + Sum(pos[1..]);
      var v := ZipFold(1.0, Rising(first + 1, sum - first), Denominators(pos[1..]));
      if v == v.Floor as real then Ok(v.Floor as nat)
      else Err("multinomial coefficient is not an integer")
  }

  /** For positive parameters the fold of `multinomial_coefficients` gives
      `Multi(pos)`. */
  lemma PositiveFold(pos: seq<nat>)
    requires |pos| >= 1 && forall i :: 0 <= i < |pos| ==> pos[i] > 0
    ensures Sum(pos) == pos[0] + Sum(pos[1..])
    ensures ZipFold(1.0, Rising(pos[0] + 1, Sum(pos) - pos[0]), Denominators(pos[1..])) == Multi(pos) as real
  {
    var first := pos[0];
    var rest := pos[1..];
    var sum := Sum(pos);
    assert sum == first + Sum(rest);
    var nums := Rising(first + 1, sum - first);
    var dens := Denominators(rest);
    ProdRising(first, sum);
    MultiFact(pos);
    assert FactProd(pos) == Fact(first) * FactProd(rest);
    Comm3(Multi(pos), Fact(first), FactProd(rest));
    IntQuotient(Prod(nums), Multi(pos), FactProd(rest), Fact(first), Fact(sum));
    FoldOfProducts(nums, dens, Multi(pos));
  }

  /** With at least two positive parameters the result is `Multi` of them. */
  lemma MultinomialOfPositives(ps: seq<nat>)
    requires |Positives(ps)| >= 2
    ensures Multinomial(ps) == Ok(Multi(Positives(ps)))
  {
    var pos := Positives(ps);
    PositiveFold(pos);
    var v := ZipFold(1.0, Rising(pos[0] + 1, Sum(ps) - pos[0]), Denominators(pos[1..]));
    assert v == Multi(pos) as real;
    assert v.Floor == Multi(pos);
  }

  /** `multinomial_coefficients` never fails: it is `(Σp)! / Π(p!)`, zero
      parameters do not change it, and fewer than two positive parameters
      give 1. */
  lemma MultinomialIsQuotient(ps: seq<nat>)
    ensures Multinomial(ps).Ok?
    ensures Multinomial(ps).value * FactProd(ps) == Fact(Sum(ps))
    ensures |Positives(ps)| < 2 ==> Multinomial(ps) == Ok(1)
    ensures Multinomial(ps) == Multinomial(Positives(ps))
  {
    var pos := Positives(ps);
    PositivesIdempotent(ps);
    if |pos| < 2 {
      if |pos| == 1 {
        assert pos[1..] == [];
        assert FactProd(pos[1..]) == 1 && Sum(pos[1..]) == 0;
        assert FactProd(pos) == Fact(pos[0]) * 1;
      }
    } else {
      MultinomialOfPositives(ps);
      MultinomialOfPositives(pos);
      MultiFact(pos);
    }
  }

  lemma Comm3(a: int, b: int, c: int)
    ensures a * (b * c) == (a * c) * b
  {
  }

  lemma PositivesIdempotent(ps: seq<nat>)
    ensures Positives(Positives(ps)) == Positives(ps)
  {
    var qs := Positives(ps);
    PositivesOfPositive(qs);
  }

  lemma {:induction false} PositivesOfPositive(qs: seq<nat>)
    requires forall i :: 0 <= i < |qs| ==> qs[i] > 0
    ensures Positives(qs) == qs
  {
    if |qs| > 0 {
      PositivesOfPositive(qs[1..]);
    }
  }

  // ---- bernoulli_number

  /** The Bernoulli numbers (with `B₁ = −1/2`): `B₀ = 1` and, for even
      `n ≥ 2`, `Σ_{k ≤ n} C(n+1, k) B_k = 0`; the odd ones after `B₁` are 0,
      taken as the source takes them. */
  function BernoulliNumber(n: nat): real
    decreases n, 1
  {
    if n == 0 then 1.0
    else if n == 1 then -1.0 / 2.0
    else if n % 2 == 1 then 0.0
    else Solve(n, RecurrenceSum(n, n))
  }

  /** `B_n` from the sum of the earlier terms: `−1/(n+1) · s`. */
  function Solve(n: nat, s: real): real
  {
    -1.0 / (n + 1) as real * s
  }

  /** `Σ_{k < m} C(n+1, k) B_k` */
  function RecurrenceSum(n: nat, m: nat): real
    requires m <= n
    decreases n, 0, m
  {
    if m == 0 then 0.0
    else RecurrenceSum(n, m - 1) + MulR(Choose(n + 1, m - 1) as real, BernoulliNumber(m - 1))
  }

  /** The defining identity: for even `n ≥ 2` the sum through `k = n`
      vanishes. */
  lemma BernoulliIdentity(n: nat)
    requires n >= 2 && n % 2 == 0
    ensures RecurrenceSum(n, n) + MulR(Choose(n + 1, n) as real, BernoulliNumber(n)) == 0.0
  {
    ChooseSymmetric(n + 1, n);
    ChooseOne(n + 1);
    var s := RecurrenceSum(n, n);
    assert BernoulliNumber(n) == Solve(n, s);
    SolveCancels(n, s, Choose(n + 1, n) as real);
  }

  /** `(n + 1) · Solve(n, s)` takes `s` back to zero. */
  lemma SolveCancels(n: nat, s: real, c: real)
    requires c == (n + 1) as real
    ensures s + MulR(c, Solve(n, s)) == 0.0
  {
    assert c * (-1.0 / c) == -1.0;
  }

  lemma ChooseOne(n: nat)
    requires n >= 1
    ensures Choose(n, 1) == n
  {
    ChooseFact(n, 1);
    assert Fact(n) == n * Fact(n - 1);
    CancelRight(Choose(n, 1), n, Fact(n - 1));
  }

  /** `Σ_{j < |bs|} C(n+1, 2j) · bs[j]`: the sum over the cached even
      Bernoulli numbers. */
  function EvenTerms(n: nat, bs: seq<real>): real
  {
    if |bs| == 0 then 0.0
    else EvenTerms(n, bs[..|bs| - 1]) + MulR(Choose(n + 1, 2 * (|bs| - 1)) as real, bs[|bs| - 1])
  }

  /** One step of the cache: with `B_0, B_2, …, B_{n−2}` at hand,
      `B_n = −1/(n+1) · (−C(n+1, 1)/2 + Σ_j C(n+1, 2j) B_{2j})`. */
  function NextEven(n: nat, bs: seq<real>): real
  {
    Solve(n, -(Choose(n + 1, 1) as real) / 2.0 + EvenTerms(n, bs))
  }

  /** The even-index sum is the recurrence sum with the odd terms after
      `B₁` dropped and the `B₁` term split off. */
  lemma {:induction false} EvenTermsRecurrence(n: nat, bs: seq<real>, j: nat)
    requires 1 <= j && 2 * j <= n
    requires j <= |bs| && forall i :: 0 <= i < |bs| ==> bs[i] == BernoulliNumber(2 * i)
    ensures RecurrenceSum(n, 2 * j) == Choose(n + 1, 1) as real * (-1.0 / 2.0) + EvenTerms(n, bs[..j])
  {
    if j == 1 {
      assert bs[..1][..0] == [];
      assert RecurrenceSum(n, 1) == 1.0;
    } else {
      EvenTermsRecurrence(n, bs, j - 1);
      assert bs[..j][..j - 1] == bs[..j - 1];
      assert BernoulliNumber(2 * j - 1) == 0.0;
    }
  }

  /** `NextEven` computes `B_n` from the cached values. */
  lemma NextEvenIsBernoulli(n: nat, bs: seq<real>)
    requires n >= 2 && n % 2 == 0 && |bs| == n / 2
    requires forall i :: 0 <= i < |bs| ==> bs[i] == BernoulliNumber(2 * i)
    ensures NextEven(n, bs) == BernoulliNumber(n)
  {
    EvenTermsRecurrence(n, bs, n / 2);
    assert bs[..n / 2] == bs;
    var c := Choose(n + 1, 1) as real;
    assert RecurrenceSum(n, n) == -c / 2.0 + EvenTerms(n, bs);
  }

  /** The two values the cache starts with. */
  lemma BernoulliTwo()
    ensures BernoulliNumber(2) == 1.0 / 6.0
  {
    assert Choose(3, 1) == 3 by {
      ChooseOne(3);
    }
    assert RecurrenceSum(2, 2) == 1.0 + 3.0 * (-1.0 / 2.0);
  }

  lemma BernoulliFour()
    ensures BernoulliNumber(4) == -1.0 / 30.0
  {
    ChooseOne(5);
    assert Choose(5, 2) == 10 by {
      ChooseFact(5, 2);
      assert Fact(5) == 120 && Fact(2) == 2 && Fact(3) == 6;
    }
    assert Choose(5, 3) == 10 by {
      ChooseSymmetric(5, 3);
    }
    BernoulliTwo();
    assert BernoulliNumber(3) == 0.0;
    assert RecurrenceSum(4, 4) == 1.0 + 5.0 * (-1.0 / 2.0) + 10.0 * (1.0 / 6.0) + 10.0 * 0.0;
  }

  /** The `BERNOULLI_NUMBER` cache: `B_{2j}` at index `j`. */
  class BernoulliCache {
    var list: seq<real>

    ghost predicate Valid()
      reads this
    {
      |list| >= 2 && forall j :: 0 <= j < |list| ==> list[j] == BernoulliNumber(2 * j)
    }

    /** The cache starts as `[1, 1/6]`, which are `B_0` and `B_2`. */
    constructor ()
      ensures Valid() && list == [1.0, 1.0 / 6.0]
    {
      list := [1.0, 1.0 / 6.0];
      BernoulliTwo();
    }

    /** `bernoulli_number(n)`: `n = 0`, `n = 1` and odd `n` are answered
        without the cache; for even `n` the cache is extended in order up
        to index `n/2`, and entry `n/2` is returned. The cache only grows. */
    method Get(n: nat) returns (b: real)
      requires Valid()
      modifies this
      ensures Valid() && b == BernoulliNumber(n)
      ensures old(list) <= list
      ensures (n < 2 || n % 2 == 1) ==> list == old(list)
      ensures n >= 2 && n % 2 == 0 ==> |list| == Numerics.Max(|old(list)|, n / 2 + 1)
    {
      if n == 0 {
        return 1.0;
      }
      if n == 1 {
        return -1.0 / 2.0;
      }
      if n % 2 == 1 {
        return 0.0;
      }
      var e := n / 2;
      var c := |list| - 1;
      if e > c {
        var half := c + 1;
        while half < e + 1
          invariant c + 1 <= half <= e + 1 && |list| == half
          invariant Valid() && old(list) <= list
        {
          var m := half * 2;
          var v := NextEven(m, list);
          NextEvenIsBernoulli(m, list);
          list := list + [v];
          half := half + 1;
        }
      }
      b := list[e];
    }
  }
}
