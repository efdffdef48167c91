// `Chain` over a tuple of iterators (src/iterator/chain.rs): the items of
// the first component, then of the second, and so on; from the back the
// last component is drained first.
module Chain {
  import opened Wrappers
  import opened IterBase
  import opened Tuples
  import opened Zip

  /** The items of every component, in component order. */
  function Concat<T>(ss: seq<seq<T>>): seq<T>
  {
    if |ss| == 0 then [] else ss[0] + Concat(ss[1..])
  }

  /** The concatenation around component `i`. */
  lemma {:induction false} ConcatAt<T>(ss: seq<seq<T>>, i: nat)
    requires i < |ss|
    ensures Concat(ss) == Concat(ss[..i]) + ss[i] + Concat(ss[i + 1..])
  {
    if i > 0 {
      ConcatAt(ss[1..], i - 1);
      assert ss[1..][..i - 1] == ss[1..i];
      assert ss[1..][i - 1] == ss[i];
      assert ss[1..][i..] == ss[i + 1..];
      assert Concat(ss[..i]) == ss[0] + Concat(ss[1..i]) by {
        assert ss[..i][0] == ss[0] && ss[..i][1..] == ss[1..i];
      }
    }
  }

  /** Empty components contribute nothing. */
  lemma {:induction false} ConcatEmpty<T>(ss: seq<seq<T>>)
    requires forall k :: 0 <= k < |ss| ==> ss[k] == []
    ensures Concat(ss) == []
  {
    if |ss| > 0 {
      ConcatEmpty(ss[1..]);
    }
  }

  /** Replacing component `i` by `t`. */
  lemma ConcatUpdate<T>(ss: seq<seq<T>>, i: nat, t: seq<T>)
    requires i < |ss|
    ensures Concat(ss[i := t]) == Concat(ss[..i]) + t + Concat(ss[i + 1..])
  {
    ConcatAt(ss[i := t], i);
    assert ss[i := t][..i] == ss[..i];
    assert ss[i := t][i + 1..] == ss[i + 1..];
  }

  /** The sum of some naturals. */
  function Sum(ns: seq<nat>): nat
  {
    if |ns| == 0 then 0 else ns[0] + Sum(ns[1..])
  }

  /** A sum of smaller terms is smaller. */
  lemma {:induction false} SumMonotone(a: seq<nat>, b: seq<nat>)
    requires |a| == |b| && forall k :: 0 <= k < |a| ==> a[k] <= b[k]
    ensures Sum(a) <= Sum(b)
  {
    if |a| > 0 {
      SumMonotone(a[1..], b[1..]);
    }
  }

  /** The chain has as many items as its components together. */
  lemma {:induction false} ConcatLength<T>(ss: seq<seq<T>>)
    ensures |Concat(ss)| == Sum(Lengths(ss))
  {
    if |ss| > 0 {
      ConcatLength(ss[1..]);
      assert Lengths(ss)[1..] == Lengths(ss[1..]);
    }
  }

  /** `size_hint`: the sum of the lower bounds, and the sum of the upper
      bounds when every component knows one. */
  function ChainHint(hints: seq<SizeHint>): SizeHint
  {
    var us := ZipOptions(Uppers(hints));
    SizeHint(Sum(Lowers(hints)), if us.Some? then Some(Sum(us.value)) else None)
  }

  /** When every component's hint is sound the chain's is, and exact hints
      give an exact hint. */
  lemma ChainHintSound(hints: seq<SizeHint>, lens: seq<nat>)
    requires |hints| == |lens|
    requires forall k :: 0 <= k < |lens| ==> Bounds(hints[k], lens[k])
    ensures Bounds(ChainHint(hints), Sum(lens))
    ensures (forall k :: 0 <= k < |lens| ==> hints[k] == Exact(lens[k])) ==> ChainHint(hints) == Exact(Sum(lens))
  {
    SumMonotone(Lowers(hints), lens);
    var us := ZipOptions(Uppers(hints));
    if us.Some? {
      SumMonotone(lens, us.value);
    }
    if forall k :: 0 <= k < |lens| ==> hints[k] == Exact(lens[k]) {
      assert Lowers(hints) == lens;
      assert us.Some? && us.value == lens;
    }
  }

  /** `ChainIters::chain` of src/tuples.rs is the chain of two components. */
  lemma ChainPairIsConcat<T>(a: seq<T>, b: seq<T>)
    ensures ChainPair(a, b) == Concat([a, b])
  {
    assert [a, b][1..] == [b];
    assert [b][1..] == [];
    assert Concat([b]) == b + Concat([]);
    assert b + [] == b;
  }

  class Chain<T> {
    const arity: nat
    var iters: seq<seq<T>>
    var current: nat
    var currentBack: nat

    /** The components before `current` are exhausted, and so are those
        from `arity - currentBack` on. */
    ghost predicate Valid()
      reads this
    {
      |iters| == arity > 0 && current <= arity && currentBack <= arity &&
      (forall k :: 0 <= k < current ==> iters[k] == []) &&
      (forall k :: arity - currentBack <= k < arity ==> iters[k] == [])
    }

    /** The items still to come. */
    function Items(): seq<T>
      reads this
    {
      Concat(iters)
    }

    /** `into_chained_iter`: both positions start at zero. */
    constructor (iters: seq<seq<T>>)
      requires |iters| > 0
      ensures Valid() && this.iters == iters && current == 0 && currentBack == 0
    {
      arity := |iters|;
      this.iters := iters;
      current := 0;
      currentBack := 0;
    }

    /** `next`: the component at `current` is asked; when it has nothing
        left `current` moves on to the next one. */
    method Next() returns (r: Option<T>)
      requires Valid()
      modifies this
      ensures Valid() && currentBack == old(currentBack)
      ensures r.None? ==> iters == old(iters) && current == arity
      ensures r.Some? ==> (old(current) <= current < arity && old(iters)[current] != [] &&
        (forall k :: old(current) <= k < current ==> old(iters)[k] == []) &&
        r.value == old(iters)[current][0] && iters == old(iters)[current := old(iters)[current][1..]])
      ensures old(Items()) == [] ==> r == None && Items() == []
      ensures old(Items()) != [] ==> r == Some(old(Items())[0]) && Items() == old(Items())[1..]
    {
      var n := 0;
      while n < |iters|
        invariant Valid() && iters == old(iters) && currentBack == old(currentBack)
        invariant n <= current && old(current) <= current
        invariant forall k :: old(current) <= k < current ==> iters[k] == []
        invariant current > old(current) ==> current == n
      {
        if current == n {
          ghost var before := iters;
          var (v, rest) := SeqNext(iters[n]);
          if v.Some? {
            iters := iters[n := rest];
            ConcatAt(before, n);
            ConcatUpdate(before, n, rest);
            ConcatEmpty(before[..n]);
            return v;
          }
          current := current + 1;
        }
        n := n + 1;
      }
      ConcatEmpty(iters);
      return None;
    }

    /** `next_back`: the components are visited from the last one; the one
        `currentBack` places from the end is asked, and when it has nothing
        left `currentBack` moves on. */
    method NextBack() returns (r: Option<T>)
      requires Valid()
      modifies this
      ensures Valid() && current == old(current)
      ensures r.None? ==> iters == old(iters) && currentBack == arity
      ensures r.Some? ==> (var e := arity - 1 - currentBack;
        old(currentBack) <= currentBack < arity && old(iters)[e] != [] &&
        (forall k :: e < k < arity - old(currentBack) ==> old(iters)[k] == []) &&
        r.value == old(iters)[e][|old(iters)[e]| - 1] &&
        iters == old(iters)[e := old(iters)[e][..|old(iters)[e]| - 1]])
      ensures old(Items()) == [] ==> r == None && Items() == []
      ensures old(Items()) != [] ==> r == Some(old(Items())[|old(Items())| - 1]) && Items() == old(Items())[..|old(Items())| - 1]
    {
      var n := 0;
      while n < |iters|
        invariant Valid() && iters == old(iters) && current == old(current)
        invariant n <= currentBack && old(currentBack) <= currentBack
        invariant forall k :: arity - currentBack <= k < arity - old(currentBack) ==> iters[k] == []
        invariant currentBack > old(currentBack) ==> currentBack == n
      {
        if currentBack == n {
          var e := |iters| - 1 - n;
          ghost var before := iters;
          var (v, front) := SeqNextBack(iters[e]);
          if v.Some? {
            iters := iters[e := front];
            ConcatAt(before, e);
            ConcatUpdate(before, e, front);
            ConcatEmpty(before[e + 1..]);
            return v;
          }
          currentBack := currentBack + 1;
        }
        n := n + 1;
      }
      ConcatEmpty(iters);
      return None;
    }

    /** `size_hint`: the components know their lengths exactly. */
    function Hint(): (h: SizeHint)
      reads this
      ensures h == Exact(|Items()|)
    {
      var its := iters;
      var hints := seq(|its|, k requires 0 <= k < |its| => Exact(|its[k]|));
      ChainHintSound(hints, Lengths(its));
      ConcatLength(its);
      ChainHint(hints)
    }
  }

  /** Draining a chain gives the components' items in order. */
  method CollectChain<T>(iters: seq<seq<T>>) returns (out: seq<T>)
    requires |iters| > 0
    ensures out == Concat(iters)
  {
    var c := new Chain(iters);
    out := [];
    var done := false;
    while !done
      invariant c.Valid()
      invariant !done ==> out + c.Items() == Concat(iters)
      invariant done ==> out == Concat(iters)
      decreases |c.Items()|, !done
    {
      ghost var before := c.Items();
      var r := c.Next();
      if r.None? {
        assert out + [] == out;
        done := true;
      } else {
        assert out + [r.value] + c.Items() == out + before;
        out := out + [r.value];
      }
    }
  }

  /** Draining a chain from the back gives the items in reverse order. */
  method CollectChainBack<T>(iters: seq<seq<T>>) returns (out: seq<T>)
    requires |iters| > 0
    ensures out == Reverse(Concat(iters))
  {
    var c := new Chain(iters);
    out := [];
    var done := false;
    while !done
      invariant c.Valid()
      invariant !done ==> out + Reverse(c.Items()) == Reverse(Concat(iters))
      invariant done ==> out == Reverse(Concat(iters))
      decreases |c.Items()|, !done
    {
      ghost var before := c.Items();
      var r := c.NextBack();
      if r.None? {
        assert out + [] == out;
        done := true;
      } else {
        assert Reverse(before) == [r.value] + Reverse(c.Items());
        assert out + [r.value] + Reverse(c.Items()) == out + Reverse(before);
        out := out + [r.value];
      }
    }
  }
}
