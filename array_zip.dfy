// The `Zip` over an array or vector of iterators in src/iterator/zip.rs
// (and `MultiZip` of src/iterator.rs, the same code written again): every
// `next` advances every component, and the items come out as a vector.
module ArrayZip {
  import opened Wrappers
  import opened IterBase
  import opened Tuples
  import opened Zip
  import opened Numerics

  /** The vectors still to come: none without components. */
  function ArrayZipped<T>(iters: seq<seq<T>>): seq<seq<T>>
  {
    if |iters| == 0 then [] else Zipped(iters)
  }

  /** `next`: `None` without components; otherwise every component is
      advanced, and the heads come out when none of them was exhausted. */
  function ArrayNextValue<T>(iters: seq<seq<T>>): Option<seq<T>>
  {
    if |iters| == 0 then None else ZipOptions(Answers(iters, 0))
  }

  /** `next` yields the first vector still to come and leaves the others. */
  lemma ArrayNextZipped<T>(iters: seq<seq<T>>)
    ensures var z, r, rest := ArrayZipped(iters), ArrayNextValue(iters), AllNthRest(iters, 0);
      (z != [] ==> r == Some(z[0]) && ArrayZipped(rest) == z[1..]) &&
      (z == [] ==> r == None && ArrayZipped(rest) == [])
  {
    if |iters| > 0 {
      ZipEqNthMeaning(iters, 0);
      var answers := Answers(iters, 0);
      if MinLen(iters) > 0 {
        assert ZipOptions(answers).value == Column(iters, 0);
      } else {
        var km :| 0 <= km < |iters| && MinLen(iters) == |iters[km]|;
        assert answers[km].None?;
      }
    }
  }

  /** The `reduce` step of `size_hint`: the smaller lower bound, and the
      smaller of the known upper bounds. */
  function CombineHint(a: SizeHint, b: SizeHint): SizeHint
  {
    SizeHint(
      if a.lower <= b.lower then a.lower else b.lower,
      match (a.upper, b.upper)
      case (Some(u1), Some(u2)) => Some(if u1 <= u2 then u1 else u2)
      case (Some(u), None) => Some(u)
      case (None, Some(u)) => Some(u)
      case (None, None) => None)
  }

  /** `reduce(CombineHint)` over the components' hints. */
  function ReduceHints(hints: seq<SizeHint>): (h: SizeHint)
    requires |hints| > 0
    ensures h.lower in Lowers(hints) && forall k :: 0 <= k < |hints| ==> h.lower <= hints[k].lower
    ensures h.upper.None? <==> forall k :: 0 <= k < |hints| ==> hints[k].upper.None?
    ensures h.upper.Some? ==> ((exists k :: 0 <= k < |hints| && hints[k].upper == h.upper) &&
      forall k :: 0 <= k < |hints| && hints[k].upper.Some? ==> h.upper.value <= hints[k].upper.value)
  {
    if |hints| == 1 then hints[0]
    else
      var front := hints[..|hints| - 1];
      assert forall k :: 0 <= k < |hints| - 1 ==> hints[k] == front[k];
      var h := ReduceHints(front);
      assert h.lower in Lowers(hints) by {
        var k :| 0 <= k < |front| && Lowers(front)[k] == h.lower;
        assert Lowers(hints)[k] == h.lower;
      }
      assert Lowers(hints)[|hints| - 1] == hints[|hints| - 1].lower;
      CombineHint(h, hints[|hints| - 1])
  }

  /** The array zip's `reduce` and the tuple zip's `minimum`/`min` compute
      the same hint. */
  lemma ReduceHintsIsZipHint(hints: seq<SizeHint>)
    requires |hints| > 0
    ensures ReduceHints(hints) == ZipHint(hints)
  {
    var a, b := ReduceHints(hints), ZipHint(hints);
    var i :| 0 <= i < |hints| && Lowers(hints)[i] == b.lower;
    var j :| 0 <= j < |hints| && Lowers(hints)[j] == a.lower;
    assert a.lower <= b.lower && b.lower <= a.lower;
    if a.upper.Some? {
      var k :| 0 <= k < |hints| && hints[k].upper == a.upper;
      assert Uppers(hints)[k] == a.upper;
      var l :| 0 <= l < |hints| && Uppers(hints)[l] == b.upper;
      assert a.upper.value <= b.upper.value && b.upper.value <= a.upper.value;
    } else {
      assert forall k :: 0 <= k < |hints| ==> Uppers(hints)[k].None?;
    }
  }

  /** `size_hint`: `(0, Some(0))` without components, else the reduction. */
  function ArrayHint(hints: seq<SizeHint>): SizeHint
  {
    if |hints| == 0 then Exact(0) else ReduceHints(hints)
  }

  /** `next_back` as written: `minimum()` of the lengths, which panics
      when there are no components; then every component is cut to that
      length and asked for its last item. */
  function ArrayNextBackAsWritten<T>(iters: seq<seq<T>>): Result<(Option<seq<T>>, seq<seq<T>>), string>
  {
    var sizeMin := SliceMinimum(Lengths(iters));
    if sizeMin.None? then Err("minimizing empty slice is not allowed")
    else Ok((NthBackValue(iters, 0), NthBackRest(iters, 0)))
  }

  /** Without components `next` yields `None` and `size_hint` is exact at
      zero, yet `next_back` panics. */
  lemma ArrayNextBackPanicsWhenEmpty<T>()
    ensures ArrayNextValue<T>([]) == None && ArrayHint([]) == Exact(0)
    ensures ArrayNextBackAsWritten<T>([]).Err?
  {
  }

  /** `next_back` with the empty case answered like `next` does: `None`
      without components, otherwise what the source computes. */
  function ArrayNextBack<T>(iters: seq<seq<T>>): (Option<seq<T>>, seq<seq<T>>)
  {
    if |iters| == 0 then (None, [])
    else (NthBackValue(iters, 0), NthBackRest(iters, 0))
  }

  /** The corrected `next_back` never panics, agrees with the source
      whenever the source does not panic, and yields the last vector still to
      come. */
  lemma ArrayNextBackMeaning<T>(iters: seq<seq<T>>)
    ensures ArrayNextBackAsWritten(iters).Ok? ==> ArrayNextBackAsWritten(iters).value == ArrayNextBack(iters)
    ensures |iters| > 0 ==> ArrayNextBackAsWritten(iters).Ok?
    ensures var z, (r, rest) := ArrayZipped(iters), ArrayNextBack(iters);
      (z != [] ==> r == Some(z[|z| - 1]) && ArrayZipped(rest) == z[..|z| - 1]) &&
      (z == [] ==> r == None && ArrayZipped(rest) == [])
  {
    if |iters| > 0 {
      TupleNthBackZipped(iters, 0);
    }
  }

  class ArrayZip<T> {
    var iters: seq<seq<T>>

    /** The vectors still to come. */
    function Items(): seq<seq<T>>
      reads this
    {
      ArrayZipped(iters)
    }

    /** `zip()` on an array or vector of iterators. */
    constructor (iters: seq<seq<T>>)
      ensures this.iters == iters
    {
      this.iters := iters;
    }

    /** `next`: every component is advanced; the vector comes out only if
      none was exhausted. */
    method Next() returns (r: Option<seq<T>>)
      modifies this
      ensures r == ArrayNextValue(old(iters)) && iters == AllNthRest(old(iters), 0)
    {
      if |iters| == 0 {
        return None;
      }
      ghost var orig := iters;
      var isSome := true;
      var values: seq<T> := [];
      for k := 0 to |iters|
        invariant |iters| == |orig|
        invariant isSome <==> forall i :: 0 <= i < k ==> |orig[i]| > 0
        invariant isSome ==> |values| == k && forall i :: 0 <= i < k ==> values[i] == orig[i][0]
        invariant forall i :: 0 <= i < k ==> iters[i] == SeqNth(orig[i], 0).1
        invariant forall i :: k <= i < |iters| ==> iters[i] == orig[i]
      {
        var (v, rest) := SeqNext(iters[k]);
        iters := iters[k := rest];
        if v.None? {
          isSome := false;
        } else {
          values := values + [v.value];
        }
      }
      assert iters == AllNthRest(orig, 0);
      if isSome {
        assert values == ZipOptions(Answers(orig, 0)).value;
        r := Some(values);
      } else {
        assert !ZipOptions(Answers(orig, 0)).Some?;
        r := None;
      }
    }

    /** `next_back`, answering `None` without components (see
        ArrayNextBackAsWritten for the source's panic). */
    method NextBack() returns (r: Option<seq<T>>)
      modifies this
      ensures (r, iters) == ArrayNextBack(old(iters))
    {
      if |iters| == 0 {
        return None;
      }
      ghost var orig := iters;
      var size := Lengths(iters);
      SliceMinMaxBounds(size);
      var sizeMin := SliceMinimum(size).value;
      assert sizeMin == MinLen(orig) by {
        var k :| 0 <= k < |orig| && MinLen(orig) == |orig[k]|;
        assert sizeMin <= size[k];
      }
      iters := TrimAll(iters, sizeMin);
      ghost var trimmed := iters;
      r, iters := TakeBackAll(iters, sizeMin);
      assert iters == NthBackRest(orig, 0) by {
        forall i | 0 <= i < |orig|
          ensures iters[i] == NthBackRest(orig, 0)[i]
        {
          assert trimmed[i] == orig[i][..sizeMin];
        }
      }
      assert r.Some? ==> r.value == Column(orig, sizeMin - 1);
    }

    /** `size_hint`: the components know their lengths exactly. */
    function Hint(): (h: SizeHint)
      reads this
      ensures h == Exact(|Items()|)
    {
      var its := iters;
      var hints := seq(|its|, k requires 0 <= k < |its| => Exact(|its[k]|));
      if |its| == 0 then ArrayHint(hints)
      else
        ReduceHintsIsZipHint(hints);
        ZipHintSound(hints, Lengths(its));
        ArrayHint(hints)
    }
  }

  /** `next_back` on every component, all of length `m`, collecting the
      items that come out. */
  method TakeBackAll<T>(iters: seq<seq<T>>, m: nat) returns (r: Option<seq<T>>, rest: seq<seq<T>>)
    requires |iters| > 0 && forall k :: 0 <= k < |iters| ==> |iters[k]| == m
    ensures |rest| == |iters|
    ensures m > 0 ==> r == Some(Column(iters, m - 1)) && forall k :: 0 <= k < |iters| ==> rest[k] == iters[k][..m - 1]
    ensures m == 0 ==> r == None && forall k :: 0 <= k < |iters| ==> rest[k] == []
  {
    rest := iters;
    var isSome := true;
    var values: seq<T> := [];
    for k := 0 to |rest|
      invariant |rest| == |iters|
      invariant isSome <==> (m > 0 || k == 0)
      invariant isSome ==> |values| == k && forall i :: 0 <= i < k ==> values[i] == iters[i][m - 1]
      invariant forall i :: 0 <= i < k ==> rest[i] == if m > 0 then iters[i][..m - 1] else []
      invariant forall i :: k <= i < |rest| ==> rest[i] == iters[i]
    {
      var (v, front) := SeqNextBack(rest[k]);
      rest := rest[k := front];
      if v.None? {
        isSome := false;
      } else {
        values := values + [v.value];
      }
    }
    if isSome {
      assert values == Column(iters, m - 1);
      r := Some(values);
    } else {
      r := None;
    }
  }

  /** Draining the zip of an array of iterators gives all its vectors. */
  method CollectArrayZip<T>(iters: seq<seq<T>>) returns (out: seq<seq<T>>)
    ensures out == ArrayZipped(iters)
  {
    var z := new ArrayZip(iters);
    out := [];
    var done := false;
    while !done
      invariant !done ==> out + z.Items() == ArrayZipped(iters)
      invariant done ==> out == ArrayZipped(iters)
      decreases |z.Items()|, !done
    {
      ghost var before := z.Items();
      ArrayNextZipped(z.iters);
      var r := z.Next();
      if r.None? {
        assert out + [] == out;
        done := true;
      } else {
        HeadStep(out, before, r.value, z.Items());
        out := out + [r.value];
      }
    }
  }

  /** Moving the first of the remaining items to the output. */
  lemma HeadStep<X>(out: seq<X>, before: seq<X>, x: X, after: seq<X>)
    requires before != [] && x == before[0] && after == before[1..]
    ensures out + [x] + after == out + before
  {
  }
}
