// The token builders of `for_each!`'s conversion step
// (macros/src/for_each.rs): `cond_bool_concat` and `cond_cfg_concat`,
// which join the parallel-execution conditions, and `product` and
// `index_decomposition`, which flatten several `index(..)` ranges into one
// and split the flat index back. Each builder is paired with a reading of
// the tokens it emits, and the index arithmetic with its row-major inverse.
module ForEachConvert {
  import opened Wrappers
  import opened Tokens
  import opened ForEachUtils
  import opened ForEachInput
  import opened Arith

  // ---------------------------------------------------------------- cond_bool_concat

  const FALSE_TS: seq<Token> := [Ident("false")]

  /** `(a) && (b) && …`, built from the left. */
  function Conjunction(items: seq<seq<Token>>): (r: seq<Token>)
    requires |items| > 0
    ensures |r| > 0
  {
    if |items| == 1 then [Group(Paren, items[0])]
    else Conjunction(items[..|items| - 1]) + [Punct('&'), Punct('&'), Group(Paren, items[|items| - 1])]
  }

  /** `cond_bool_concat`: `false` without conditions, the condition itself for one. */
  function CondBoolConcat(items: seq<seq<Token>>): seq<Token>
  {
    if |items| == 0 then FALSE_TS
    else if |items| == 1 then items[0]
    else Conjunction(items)
  }

  method CondBoolConcatLoop(items: seq<seq<Token>>) returns (src: seq<Token>)
    ensures src == CondBoolConcat(items)
  {
    if |items| == 0 {
      return FALSE_TS;
    }
    if |items| == 1 {
      return items[0];
    }
    src := [Group(Paren, items[0])];
    assert items[..1] == [items[0]];
    for i := 1 to |items|
      invariant src == Conjunction(items[..i])
    {
      assert items[..i + 1][..i] == items[..i];
      src := src + [Punct('&'), Punct('&'), Group(Paren, items[i])];
    }
    assert items[..|items|] == items;
  }

  /** Reads `(a) && (b) && …` back into its conditions. */
  function Conjuncts(ts: seq<Token>): Option<seq<seq<Token>>>
    decreases |ts|
  {
    var n := |ts|;
    if n == 1 && ts[0].Group? && ts[0].delim.Paren? then Some([ts[0].inner])
    else if n >= 4 && ts[n - 3] == Punct('&') && ts[n - 2] == Punct('&') && ts[n - 1].Group? && ts[n - 1].delim.Paren? then
      match Conjuncts(ts[..n - 3])
      case None => None
      case Some(xs) => Some(xs + [ts[n - 1].inner])
    else None
  }

  lemma {:induction false} ConjunctsOfConjunction(items: seq<seq<Token>>)
    requires |items| > 0
    ensures Conjuncts(Conjunction(items)) == Some(items)
  {
    if |items| > 1 {
      var front := items[..|items| - 1];
      var ts := Conjunction(items);
      assert ts[..|ts| - 3] == Conjunction(front);
      ConjunctsOfConjunction(front);
      assert front + [items[|items| - 1]] == items;
    } else {
      assert items == [items[0]];
    }
  }

  /** The joined condition is `false`, the one condition, or the conjunction
      of exactly the given conditions in order. */
  lemma CondBoolConcatMeaning(items: seq<seq<Token>>)
    ensures |items| == 0 ==> CondBoolConcat(items) == FALSE_TS
    ensures |items| == 1 ==> CondBoolConcat(items) == items[0]
    ensures |items| >= 2 ==> Conjuncts(CondBoolConcat(items)) == Some(items)
  {
    if |items| >= 2 {
      ConjunctsOfConjunction(items);
    }
  }

  // ---------------------------------------------------------------- cond_cfg_concat

  /** `cond_cfg_concat`: nothing, the one predicate, or `all(a, b, …)`. */
  function CondCfgConcat(items: seq<seq<Token>>): seq<Token>
  {
    if |items| == 0 then []
    else if |items| == 1 then items[0]
    else [Ident("all"), Group(Paren, CommaJoin(items))]
  }

  method CondCfgConcatLoop(items: seq<seq<Token>>) returns (src: seq<Token>)
    ensures src == CondCfgConcat(items)
  {
    if |items| == 0 {
      return [];
    }
    src := items[0];
    if |items| == 1 {
      return src;
    }
    assert CommaJoin(items[..1]) == items[0];
    for i := 1 to |items|
      invariant src == CommaJoin(items[..i])
    {
      assert items[..i + 1][..i] == items[..i];
      src := src + [COMMA] + items[i];
    }
    assert items[..|items|] == items;
    src := [Ident("all"), Group(Paren, src)];
  }

  /** With two or more well-formed predicates, `all(…)` holds exactly them. */
  lemma CondCfgConcatMeaning(items: seq<seq<Token>>)
    requires forall i :: 0 <= i < |items| ==> ParseExpr(items[i]).Some?
    ensures |items| == 0 ==> CondCfgConcat(items) == []
    ensures |items| == 1 ==> CondCfgConcat(items) == items[0]
    ensures |items| >= 2 ==>
      CondCfgConcat(items)[0] == Ident("all") && |CondCfgConcat(items)| == 2 &&
      CondCfgConcat(items)[1].Group? && SplitTs(CondCfgConcat(items)[1].inner) == items
  {
    if |items| >= 2 {
      forall i | 0 <= i < |items|
        ensures CommaFree(items[i]) && |items[i]| > 0
      {
        assert ParseExpr(items[i]).Some?;
      }
      SplitCommaJoin(items);
    }
  }

  // ---------------------------------------------------------------- product

  /** `product`: `(e0) * (e1) * …`, nothing for no terms. */
  function Product(terms: seq<seq<Token>>): (r: seq<Token>)
    ensures |terms| > 0 ==> |r| > 0
  {
    if |terms| == 0 then []
    else if |terms| == 1 then [Group(Paren, terms[0])]
    else Product(terms[..|terms| - 1]) + [Punct('*'), Group(Paren, terms[|terms| - 1])]
  }

  method ProductLoop(terms: seq<seq<Token>>) returns (term: seq<Token>)
    ensures term == Product(terms)
  {
    term := [];
    for i := 0 to |terms|
      invariant term == Product(terms[..i])
    {
      assert terms[..i + 1][..i] == terms[..i];
      if i > 0 {
        term := term + [Punct('*'), Group(Paren, terms[i])];
      } else {
        term := [Group(Paren, terms[i])];
      }
    }
    assert terms[..|terms|] == terms;
  }

  /** The product of natural numbers, multiplied from the left. */
  function ProductOf(ns: seq<nat>): nat
  {
    if |ns| == 0 then 1 else ProductOf(ns[..|ns| - 1]) * ns[|ns| - 1]
  }

  /** The values of the size expressions under an evaluation `val`. */
  function Values(terms: seq<seq<Token>>, val: seq<Token> -> nat): (ns: seq<nat>)
    ensures |ns| == |terms| && forall i :: 0 <= i < |terms| ==> ns[i] == val(terms[i])
  {
    seq(|terms|, i requires 0 <= i < |terms| => val(terms[i]))
  }

  /** Evaluates `(e0) * (e1) * …` with `val` giving each parenthesised term's value. */
  function EvalProduct(ts: seq<Token>, val: seq<Token> -> nat): Option<nat>
    decreases |ts|
  {
    var n := |ts|;
    if n == 1 && ts[0].Group? && ts[0].delim.Paren? then Some(val(ts[0].inner))
    else if n >= 3 && ts[n - 2] == Punct('*') && ts[n - 1].Group? && ts[n - 1].delim.Paren? then
      match EvalProduct(ts[..n - 2], val)
      case None => None
      case Some(p) => Some(p * val(ts[n - 1].inner))
    else None
  }

  /** The emitted product evaluates to the product of the terms' values. */
  lemma {:induction false} ProductEval(terms: seq<seq<Token>>, val: seq<Token> -> nat)
    requires |terms| > 0
    ensures EvalProduct(Product(terms), val) == Some(ProductOf(Values(terms, val)))
  {
    var ns := Values(terms, val);
    if |terms| > 1 {
      var front := terms[..|terms| - 1];
      var ts := Product(terms);
      assert ts[..|ts| - 2] == Product(front);
      ProductEval(front, val);
      assert Values(front, val) == ns[..|ns| - 1];
    }
  }

  // ---------------------------------------------------------------- index arithmetic

  /** Row-major flattening of a multi-index: the last index varies fastest. */
  function Flatten(idx: seq<nat>, ns: seq<nat>): nat
    requires |idx| == |ns|
  {
    if |ns| == 0 then 0
    else Flatten(idx[..|idx| - 1], ns[..|ns| - 1]) * ns[|ns| - 1] + idx[|idx| - 1]
  }

  predicate Positive(ns: seq<nat>) { forall i :: 0 <= i < |ns| ==> ns[i] > 0 }

  predicate InBounds(idx: seq<nat>, ns: seq<nat>)
  {
    |idx| == |ns| && forall i :: 0 <= i < |ns| ==> idx[i] < ns[i]
  }

  lemma {:induction false} ProductOfPositive(ns: seq<nat>)
    requires Positive(ns)
    ensures ProductOf(ns) > 0
  {
    if |ns| > 0 {
      ProductOfPositive(ns[..|ns| - 1]);
    }
  }

  /** Row-major splitting of a flat index: the last component is the
      remainder by the last size, the rest split the quotient. */
  function Decompose(ip: nat, ns: seq<nat>): (idx: seq<nat>)
    requires Positive(ns)
    ensures |idx| == |ns|
    decreases |ns|
  {
    if |ns| == 0 then []
    else Decompose(ip / ns[|ns| - 1], ns[..|ns| - 1]) + [ip % ns[|ns| - 1]]
  }

  /** `a / (b * c) == a / c / b` for positive divisors. */
  lemma DivDiv(a: nat, b: nat, c: nat)
    requires b > 0 && c > 0
    ensures a / (b * c) == a / c / b
  {
    var q := a / c;
    var r := a % c;
    var q2 := q / b;
    var r2 := q % b;
    assert a == c * q + r;
    assert q == b * q2 + r2;
    assert a == (b * c) * q2 + (c * r2 + r) by {
      assert c * q == c * (b * q2) + c * r2;
      assert c * (b * q2) == (b * c) * q2;
    }
    assert c * r2 + r < b * c by {
      MulMono(c, b - 1, r2);
      Distrib(c, b - 1, 1);
    }
    DivModUnique(a, b * c, q2, c * r2 + r);
  }

  lemma ProductOfLast(ns: seq<nat>, i: nat)
    requires i < |ns|
    ensures ProductOf(ns[i..]) == ProductOf(ns[i..|ns| - 1]) * ns[|ns| - 1]
  {
    var s := ns[i..];
    assert s[..|s| - 1] == ns[i..|ns| - 1];
  }

  /** Component `i` of the split is `ip / Π ns[i+1..] % ns[i]`, the formula
      `index_decomposition` emits. */
  lemma {:induction false} DecomposeComponent(ip: nat, ns: seq<nat>, i: nat)
    requires Positive(ns) && i < |ns|
    ensures ProductOf(ns[i + 1..]) > 0
    ensures Decompose(ip, ns)[i] == ip / ProductOf(ns[i + 1..]) % ns[i]
    decreases |ns|
  {
    var n := |ns|;
    var front := ns[..n - 1];
    var last := ns[n - 1];
    ProductOfPositive(ns[i + 1..]);
    if i == n - 1 {
      assert ns[n..] == [];
    } else {
      DecomposeComponent(ip / last, front, i);
      ProductOfLast(ns, i + 1);
      assert front[i + 1..] == ns[i + 1..n - 1];
      DivDiv(ip, ProductOf(front[i + 1..]), last);
    }
  }

  /** Splitting a flat index and flattening the parts gives it back. */
  lemma {:induction false} FlattenDecompose(ip: nat, ns: seq<nat>)
    requires Positive(ns) && ip < ProductOf(ns)
    ensures Flatten(Decompose(ip, ns), ns) == ip
    decreases |ns|
  {
    if |ns| > 0 {
      var n := |ns|;
      var last := ns[n - 1];
      var front := ns[..n - 1];
      var d := Decompose(ip, ns);
      DivBelow(ip, last, ProductOf(front));
      FlattenDecompose(ip / last, front);
      assert d[..n - 1] == Decompose(ip / last, front);
      assert ip == last * (ip / last) + ip % last;
    }
  }

  /** A flattened in-bounds multi-index lies below the product of the sizes. */
  lemma {:induction false} FlattenBound(idx: seq<nat>, ns: seq<nat>)
    requires InBounds(idx, ns)
    ensures Flatten(idx, ns) < ProductOf(ns)
  {
    if |ns| > 0 {
      var n := |ns|;
      FlattenBound(idx[..n - 1], ns[..n - 1]);
      var f := Flatten(idx[..n - 1], ns[..n - 1]);
      assert f + 1 <= ProductOf(ns[..n - 1]);
      assert (f + 1) * ns[n - 1] <= ProductOf(ns[..n - 1]) * ns[n - 1];
    }
  }

  /** Flattening an in-bounds multi-index and splitting it gives it back. */
  lemma {:induction false} DecomposeFlatten(idx: seq<nat>, ns: seq<nat>)
    requires Positive(ns) && InBounds(idx, ns)
    ensures Decompose(Flatten(idx, ns), ns) == idx
  {
    if |ns| > 0 {
      var n := |ns|;
      var last := ns[n - 1];
      var f := Flatten(idx[..n - 1], ns[..n - 1]);
      var ip := Flatten(idx, ns);
      DivModUnique(ip, last, f, idx[n - 1]);
      DecomposeFlatten(idx[..n - 1], ns[..n - 1]);
      assert idx == idx[..n - 1] + [idx[n - 1]];
    }
  }

  // ---------------------------------------------------------------- index_decomposition

  /** Component `i` of the emitted tuple: `ip / (Π size[i+1..]) % (size[i])`,
      or `ip % (size[i])` for the last one. */
  function Component(ip: string, size: seq<seq<Token>>, i: nat): (c: seq<Token>)
    requires i < |size|
    ensures |c| > 0 && CommaFree(c)
  {
    if i + 1 < |size| then
      [Ident(ip), Punct('/'), Group(Paren, Product(size[i + 1..])), Punct('%'), Group(Paren, size[i])]
    else [Ident(ip), Punct('%'), Group(Paren, size[i])]
  }

  function Components(ip: string, size: seq<seq<Token>>): (cs: seq<seq<Token>>)
    ensures |cs| == |size| && forall i :: 0 <= i < |size| ==> cs[i] == Component(ip, size, i)
  {
    seq(|size|, i requires 0 <= i < |size| => Component(ip, size, i))
  }

  /** `index_decomposition`: `( c0, c1, … )`. */
  function IndexDecomposition(ip: string, size: seq<seq<Token>>): seq<Token>
  {
    [Group(Paren, CommaJoin(Components(ip, size)))]
  }

  method IndexDecompositionLoop(ip: string, size: seq<seq<Token>>) returns (r: seq<Token>)
    ensures r == IndexDecomposition(ip, size)
  {
    var whole: seq<Token> := [];
    ghost var cs := Components(ip, size);
    for i := 0 to |size|
      invariant whole == CommaJoin(cs[..i])
    {
      var p := ProductLoop(size[i + 1..]);
      var each := if |p| > 0 then [Ident(ip), Punct('/'), Group(Paren, p), Punct('%'), Group(Paren, size[i])]
        else [Ident(ip), Punct('%'), Group(Paren, size[i])];
      assert each == cs[i];
      CommaJoinPrefix(cs, i);
      if i == 0 {
        whole := each;
      } else {
        whole := whole + [COMMA] + each;
      }
    }
    assert cs[..|size|] == cs;
    return [Group(Paren, whole)];
  }

  /** Evaluates one emitted component at flat index `ipv`. */
  function EvalComponent(c: seq<Token>, ip: string, ipv: nat, val: seq<Token> -> nat): Option<nat>
  {
    if |c| == 5 && c[0] == Ident(ip) && c[1] == Punct('/') && c[2].Group? && c[3] == Punct('%') && c[4].Group? then
      match EvalProduct(c[2].inner, val)
      case None => None
      case Some(p) => if p > 0 && val(c[4].inner) > 0 then Some(ipv / p % val(c[4].inner)) else None
    else if |c| == 3 && c[0] == Ident(ip) && c[1] == Punct('%') && c[2].Group? then
      if val(c[2].inner) > 0 then Some(ipv % val(c[2].inner)) else None
    else None
  }

  /** Evaluates the emitted tuple `( c0, c1, … )` at flat index `ipv`. */
  function EvalDecomposition(ts: seq<Token>, ip: string, ipv: nat, val: seq<Token> -> nat): Option<seq<nat>>
  {
    if |ts| == 1 && ts[0].Group? then
      TryMapCollect(SplitTs(ts[0].inner), c => EvalComponent(c, ip, ipv, val))
    else None
  }

  lemma ComponentEval(ip: string, size: seq<seq<Token>>, i: nat, ipv: nat, val: seq<Token> -> nat)
    requires i < |size| && Positive(Values(size, val))
    ensures EvalComponent(Component(ip, size, i), ip, ipv, val) == Some(Decompose(ipv, Values(size, val))[i])
  {
    var ns := Values(size, val);
    DecomposeComponent(ipv, ns, i);
    assert Values(size[i + 1..], val) == ns[i + 1..];
    ProductOfPositive(ns[i + 1..]);
    if i + 1 < |size| {
      ProductEval(size[i + 1..], val);
    } else {
      assert ns[i + 1..] == [];
    }
  }

  /** The emitted tuple evaluates, at every flat index, to the row-major split
      of that index by the sizes' values. */
  lemma DecompositionEval(ip: string, size: seq<seq<Token>>, ipv: nat, val: seq<Token> -> nat)
    requires |size| > 0 && Positive(Values(size, val))
    ensures EvalDecomposition(IndexDecomposition(ip, size), ip, ipv, val) == Some(Decompose(ipv, Values(size, val)))
  {
    var cs := Components(ip, size);
    SplitCommaJoin(cs);
    var f := c => EvalComponent(c, ip, ipv, val);
    forall i | 0 <= i < |cs|
      ensures f(cs[i]) == Some(Decompose(ipv, Values(size, val))[i])
    {
      ComponentEval(ip, size, i, ipv, val);
    }
    var r := TryMapCollect(cs, f);
    assert r.value == Decompose(ipv, Values(size, val));
  }

  /** The flat range `0..(Π size)` with the emitted split visits each in-bounds
      multi-index exactly once: splitting is a bijection onto the in-bounds indices. */
  lemma IndexBijection(ns: seq<nat>)
    requires Positive(ns)
    ensures forall ip: nat :: ip < ProductOf(ns) ==> InBounds(Decompose(ip, ns), ns) && Flatten(Decompose(ip, ns), ns) == ip
    ensures forall idx :: InBounds(idx, ns) ==> Flatten(idx, ns) < ProductOf(ns) && Decompose(Flatten(idx, ns), ns) == idx
  {
    DecomposeThenFlatten(ns);
    FlattenThenDecompose(ns);
  }

  lemma DecomposeThenFlatten(ns: seq<nat>)
    requires Positive(ns)
    ensures forall ip: nat :: ip < ProductOf(ns) ==> InBounds(Decompose(ip, ns), ns) && Flatten(Decompose(ip, ns), ns) == ip
  {
    forall ip: nat | ip < ProductOf(ns)
      ensures InBounds(Decompose(ip, ns), ns) && Flatten(Decompose(ip, ns), ns) == ip
    {
      DecomposeInBounds(ip, ns);
      FlattenDecompose(ip, ns);
    }
  }

  /** Every component of the split lies below its size. */
  lemma {:induction false} DecomposeInBounds(ip: nat, ns: seq<nat>)
    requires Positive(ns)
    ensures InBounds(Decompose(ip, ns), ns)
    decreases |ns|
  {
    if |ns| > 0 {
      var n := |ns|;
      var front := ns[..n - 1];
      DecomposeInBounds(ip / ns[n - 1], front);
      var d := Decompose(ip, ns);
      assert d[..n - 1] == Decompose(ip / ns[n - 1], front);
      assert forall i :: 0 <= i < n - 1 ==> d[i] == d[..n - 1][i];
    }
  }

  lemma FlattenThenDecompose(ns: seq<nat>)
    requires Positive(ns)
    ensures forall idx :: InBounds(idx, ns) ==> Flatten(idx, ns) < ProductOf(ns) && Decompose(Flatten(idx, ns), ns) == idx
  {
    forall idx | InBounds(idx, ns)
      ensures Flatten(idx, ns) < ProductOf(ns) && Decompose(Flatten(idx, ns), ns) == idx
    {
      FlattenBound(idx, ns);
      DecomposeFlatten(idx, ns);
    }
  }
}
