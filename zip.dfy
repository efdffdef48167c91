// The tuple `Zip` and `ZipEq` of src/iterator/zip.rs (and `ZipN` of
// src/iterator.rs, the same `Zip` written again), with `len_equality` and the
// `size_hint` they share. The components of a tuple have one item type here.
module Zip {
  import opened Wrappers
  import opened IterBase
  import opened Tuples

  // ---------------------------------------------------------------------
  // What a zip yields

  /** The length of the shortest component. */
  function MinLen<T>(iters: seq<seq<T>>): (m: nat)
    requires |iters| > 0
    ensures forall k :: 0 <= k < |iters| ==> m <= |iters[k]|
    ensures exists k :: 0 <= k < |iters| && m == |iters[k]|
  {
    var ls := Lengths(iters);
    var m := MinOf(ls);
    assert m in ls;
    m
  }

  /** Item `i` of every component. */
  function Column<T>(iters: seq<seq<T>>, i: nat): (c: seq<T>)
    requires forall k :: 0 <= k < |iters| ==> i < |iters[k]|
    ensures |c| == |iters| && forall k :: 0 <= k < |iters| ==> c[k] == iters[k][i]
  {
    seq(|iters|, k requires 0 <= k < |iters| => iters[k][i])
  }

  /** The tuples a zip yields: item `i` of every component, for as long as
      every component has one. */
  function Zipped<T>(iters: seq<seq<T>>): (z: seq<seq<T>>)
    requires |iters| > 0
    ensures |z| == MinLen(iters)
    ensures forall i :: 0 <= i < |z| ==> z[i] == Column(iters, i)
  {
    var m := MinLen(iters);
    seq(m, i requires 0 <= i < m => Column(iters, i))
  }

  /** A zip yields nothing once one of its components is empty. */
  lemma ZippedEmpty<T>(iters: seq<seq<T>>, k: nat)
    requires k < |iters| && iters[k] == []
    ensures Zipped(iters) == []
  {
  }

  /** Dropping the first `d` items of every component drops the first `d`
      tuples. */
  lemma ZippedDrop<T>(iters: seq<seq<T>>, rest: seq<seq<T>>, d: nat)
    requires |iters| > 0 && d <= MinLen(iters) && |rest| == |iters|
    requires forall k :: 0 <= k < |iters| ==> rest[k] == iters[k][d..]
    ensures Zipped(rest) == Zipped(iters)[d..]
  {
    var m := MinLen(iters);
    var km :| 0 <= km < |iters| && m == |iters[km]|;
    assert |rest[km]| == m - d;
    assert MinLen(rest) == m - d;
    var zr, z := Zipped(rest), Zipped(iters);
    forall i | 0 <= i < m - d
      ensures zr[i] == z[d + i]
    {
      assert Column(rest, i) == Column(iters, d + i);
    }
  }

  /** Keeping the first `e` items of every component keeps the first `e`
      tuples. */
  lemma ZippedTake<T>(iters: seq<seq<T>>, rest: seq<seq<T>>, e: nat)
    requires |iters| > 0 && e <= MinLen(iters) && |rest| == |iters|
    requires forall k :: 0 <= k < |iters| ==> rest[k] == iters[k][..e]
    ensures Zipped(rest) == Zipped(iters)[..e]
  {
    assert MinLen(rest) == e by {
      var k :| 0 <= k < |rest| && MinLen(rest) == |rest[k]|;
    }
    var zr, z := Zipped(rest), Zipped(iters);
    forall i | 0 <= i < e
      ensures zr[i] == z[i]
    {
      assert Column(rest, i) == Column(iters, i);
    }
  }

  /** Index of the first component with at most `n` items left, or the
      number of components when there is none. */
  function FirstShort<T>(iters: seq<seq<T>>, n: nat): (j: nat)
    ensures j <= |iters|
    ensures forall k :: 0 <= k < j ==> |iters[k]| > n
    ensures j < |iters| ==> |iters[j]| <= n
  {
    if |iters| == 0 then 0
    else if |iters[0]| <= n then 0
    else
      var j := FirstShort(iters[1..], n);
      assert forall k :: 1 <= k < |iters| ==> iters[k] == iters[1..][k - 1];
      1 + j
  }

  // ---------------------------------------------------------------------
  // Zip::next, nth, next_back, nth_back

  /** `Zip::nth(n)` (and `next`, which is `nth(0)`): every component is asked
      for its `nth(n)` in order, stopping after the first that has none; the
      tuple when all answered. */
  function NthValue<T>(iters: seq<seq<T>>, n: nat): Option<seq<T>>
  {
    if FirstShort(iters, n) == |iters| then Some(Column(iters, n)) else None
  }

  /** The components after `Zip::nth(n)`: those up to and including the
      first that had no answer have been advanced, the others not. */
  function NthRest<T>(iters: seq<seq<T>>, n: nat): (rest: seq<seq<T>>)
    ensures |rest| == |iters|
    ensures forall k :: 0 <= k < |iters| ==>
      rest[k] == if k <= FirstShort(iters, n) then SeqNth(iters[k], n).1 else iters[k]
  {
    var j := FirstShort(iters, n);
    seq(|iters|, k requires 0 <= k < |iters| =>
      if k <= j then SeqNth(iters[k], n).1 else iters[k])
  }

  /** `nth(n)` yields tuple `n` of the zip and leaves the ones after it; when
      there is no tuple `n` it yields `None` and nothing is left. */
  lemma TupleNthZipped<T>(iters: seq<seq<T>>, n: nat)
    requires |iters| > 0
    ensures var z := Zipped(iters);
      var r, rest := NthValue(iters, n), NthRest(iters, n);
      (n < |z| ==> r == Some(z[n]) && Zipped(rest) == z[n + 1..]) &&
      (n >= |z| ==> r == None && Zipped(rest) == [])
  {
    var r, rest := NthValue(iters, n), NthRest(iters, n);
    var j := FirstShort(iters, n);
    var m := MinLen(iters);
    var km :| 0 <= km < |iters| && m == |iters[km]|;
    if n < m {
      assert j == |iters|;
      assert r == Some(Column(iters, n)) == Some(Zipped(iters)[n]);
      assert forall k :: 0 <= k < |iters| ==> rest[k] == iters[k][n + 1..];
      ZippedDrop(iters, rest, n + 1);
    } else {
      assert j < |iters|;
      ZippedEmpty(rest, j);
    }
  }

  /** `Zip::nth_back(n)` (and `next_back`, which is `nth_back(0)`): every
      component is first cut down to the shortest length from the back, then
      asked for its `nth_back(n)`, stopping after the first that has none. */
  function NthBackValue<T>(iters: seq<seq<T>>, n: nat): Option<seq<T>>
    requires |iters| > 0
  {
    var m := MinLen(iters);
    if n < m then Some(Column(iters, m - 1 - n)) else None
  }

  /** The components after `Zip::nth_back(n)`: all cut to the shortest
      length and then to the `nth_back`; when there is no such tuple only the
      first component has been asked and is left empty. */
  function NthBackRest<T>(iters: seq<seq<T>>, n: nat): (rest: seq<seq<T>>)
    requires |iters| > 0
    ensures |rest| == |iters|
    ensures n < MinLen(iters) ==> forall k :: 0 <= k < |iters| ==> rest[k] == iters[k][..MinLen(iters) - 1 - n]
    ensures n >= MinLen(iters) ==> rest[0] == [] && forall k :: 1 <= k < |iters| ==> rest[k] == iters[k][..MinLen(iters)]
  {
    var m := MinLen(iters);
    if n < m then
      seq(|iters|, k requires 0 <= k < |iters| && n < m => iters[k][..m - 1 - n])
    else
      seq(|iters|, k requires 0 <= k < |iters| => if k == 0 then [] else iters[k][..m])
  }

  /** `nth_back(n)` yields tuple `n` counted from the back of the zip and
      leaves the ones before it. */
  lemma TupleNthBackZipped<T>(iters: seq<seq<T>>, n: nat)
    requires |iters| > 0
    ensures var z := Zipped(iters);
      var r, rest := NthBackValue(iters, n), NthBackRest(iters, n);
      (n < |z| ==> r == Some(z[|z| - 1 - n]) && Zipped(rest) == z[..|z| - 1 - n]) &&
      (n >= |z| ==> r == None && Zipped(rest) == [])
  {
    var rest := NthBackRest(iters, n);
    var m := MinLen(iters);
    if n < m {
      ZippedTake(iters, rest, m - 1 - n);
    } else {
      ZippedEmpty(rest, 0);
    }
  }

  // ---------------------------------------------------------------------
  // size_hint of Zip, ZipEq and ZipN

  /** The smallest of the known upper bounds, `None` if none is known. */
  function MinKnown(us: seq<Option<nat>>): (r: Option<nat>)
    ensures r.None? <==> forall i :: 0 <= i < |us| ==> us[i].None?
    ensures r.Some? ==> ((exists i :: 0 <= i < |us| && us[i] == r) &&
      forall i :: 0 <= i < |us| && us[i].Some? ==> r.value <= us[i].value)
  {
    if |us| == 0 then None
    else
      var t := MinKnown(us[1..]);
      assert forall i :: 1 <= i < |us| ==> us[i] == us[1..][i - 1];
      if us[0].None? then t
      else if t.None? || us[0].value <= t.value then us[0]
      else t
  }

  function Lowers(hints: seq<SizeHint>): (ls: seq<nat>)
    ensures |ls| == |hints| && forall k :: 0 <= k < |hints| ==> ls[k] == hints[k].lower
  {
    seq(|hints|, k requires 0 <= k < |hints| => hints[k].lower)
  }

  function Uppers(hints: seq<SizeHint>): (us: seq<Option<nat>>)
    ensures |us| == |hints| && forall k :: 0 <= k < |hints| ==> us[k] == hints[k].upper
  {
    seq(|hints|, k requires 0 <= k < |hints| => hints[k].upper)
  }

  /** `Zip::size_hint`: the least of the lower bounds and the least of the
      known upper bounds. */
  function ZipHint(hints: seq<SizeHint>): SizeHint
    requires |hints| > 0
  {
    SizeHint(MinOf(Lowers(hints)), MinKnown(Uppers(hints)))
  }

  /** When every component's hint is sound, the zip's hint is sound for the
      number of tuples left; exact hints give an exact hint. */
  lemma ZipHintSound(hints: seq<SizeHint>, lens: seq<nat>)
    requires |hints| == |lens| > 0
    requires forall k :: 0 <= k < |lens| ==> Bounds(hints[k], lens[k])
    ensures Bounds(ZipHint(hints), MinOf(lens))
    ensures (forall k :: 0 <= k < |lens| ==> hints[k] == Exact(lens[k])) ==>
      ZipHint(hints) == Exact(MinOf(lens))
  {
    ZipHintBounds(hints, lens);
    if forall k :: 0 <= k < |lens| ==> hints[k] == Exact(lens[k]) {
      ZipHintExact(hints, lens);
    }
  }

  lemma ZipHintBounds(hints: seq<SizeHint>, lens: seq<nat>)
    requires |hints| == |lens| > 0
    requires forall k :: 0 <= k < |lens| ==> Bounds(hints[k], lens[k])
    ensures Bounds(ZipHint(hints), MinOf(lens))
  {
    var h := ZipHint(hints);
    var m := MinOf(lens);
    var km :| 0 <= km < |lens| && lens[km] == m;
    assert h.lower <= Lowers(hints)[km];
    if h.upper.Some? {
      var i :| 0 <= i < |hints| && Uppers(hints)[i] == h.upper;
      assert m <= lens[i];
    }
  }

  lemma ZipHintExact(hints: seq<SizeHint>, lens: seq<nat>)
    requires |hints| == |lens| > 0
    requires forall k :: 0 <= k < |lens| ==> hints[k] == Exact(lens[k])
    ensures ZipHint(hints) == Exact(MinOf(lens))
  {
    var h := ZipHint(hints);
    var m := MinOf(lens);
    assert Lowers(hints) == lens;
    var km :| 0 <= km < |lens| && lens[km] == m;
    MinKnownAttained(Uppers(hints), km);
  }

  /** When every bound is known and bound `km` is below all the others, it
      is the least known one. */
  lemma {:induction false} MinKnownAttained(us: seq<Option<nat>>, km: nat)
    requires km < |us| && forall i :: 0 <= i < |us| ==> us[i].Some?
    requires forall i :: 0 <= i < |us| ==> us[km].value <= us[i].value
    ensures MinKnown(us) == us[km]
  {
    if |us| > 1 {
      var t := MinKnown(us[1..]);
      if km == 0 {
        assert t.Some? by {
          assert us[1..][0].Some?;
        }
        var j :| 0 <= j < |us[1..]| && us[1..][j] == t;
        assert us[0].value <= us[j + 1].value;
      } else {
        MinKnownAttained(us[1..], km - 1);
        assert us[km].value <= us[0].value;
      }
    }
  }

  // ---------------------------------------------------------------------
  // Zip

  /** The loops `for _ in size_min..size.k { next_back() }` over every
      component. */
  method TrimAll<T>(iters: seq<seq<T>>, sizeMin: nat) returns (r: seq<seq<T>>)
    requires forall k :: 0 <= k < |iters| ==> sizeMin <= |iters[k]|
    ensures |r| == |iters| && forall k :: 0 <= k < |iters| ==> r[k] == iters[k][..sizeMin]
  {
    r := iters;
    for k := 0 to |r|
      invariant |r| == |iters|
      invariant forall i :: 0 <= i < k ==> r[i] == iters[i][..sizeMin]
      invariant forall i :: k <= i < |r| ==> r[i] == iters[i]
    {
      var trimmed := TrimBack(r[k], sizeMin);
      r := r[k := trimmed];
    }
  }

  /** `( $( iters.$n.nth(n)?, )+ )`: stops after the first `None`. */
  method NthEach<T>(iters: seq<seq<T>>, n: nat) returns (r: Option<seq<T>>, rest: seq<seq<T>>)
    ensures r == NthValue(iters, n) && rest == NthRest(iters, n)
  {
    rest := iters;
    var vals: seq<T> := [];
    var k := 0;
    while k < |rest|
      invariant |rest| == |iters| && k <= |rest|
      invariant forall i :: 0 <= i < k ==> |iters[i]| > n
      invariant |vals| == k && forall i :: 0 <= i < k ==> vals[i] == iters[i][n]
      invariant forall i :: 0 <= i < k ==> rest[i] == iters[i][n + 1..]
      invariant forall i :: k <= i < |rest| ==> rest[i] == iters[i]
    {
      var (v, after) := SeqNth(rest[k], n);
      rest := rest[k := after];
      if v.None? {
        assert FirstShort(iters, n) == k;
        NthRestAt(iters, n, rest, k);
        return None, rest;
      }
      vals := vals + [v.value];
      k := k + 1;
    }
    assert FirstShort(iters, n) == k;
    assert vals == Column(iters, n);
    NthRestAt(iters, n, rest, k);
    r := Some(vals);
  }

  lemma NthRestAt<T>(iters: seq<seq<T>>, n: nat, rest: seq<seq<T>>, j: nat)
    requires j == FirstShort(iters, n) && |rest| == |iters|
    requires forall i :: 0 <= i <= j && i < |iters| ==> rest[i] == SeqNth(iters[i], n).1
    requires forall i :: j < i < |iters| ==> rest[i] == iters[i]
    ensures rest == NthRest(iters, n)
  {
  }

  /** `( $( iters.$n.nth_back(n)?, )+ )` on components already cut to the
      shortest length `MinLen(orig)`: stops after the first `None`. */
  method NthBackEach<T>(cut: seq<seq<T>>, n: nat, ghost orig: seq<seq<T>>)
    returns (r: Option<seq<T>>, rest: seq<seq<T>>)
    requires |orig| > 0 && |cut| == |orig|
    requires forall k :: 0 <= k < |orig| ==> cut[k] == orig[k][..MinLen(orig)]
    ensures r == NthBackValue(orig, n) && rest == NthBackRest(orig, n)
  {
    ghost var m := MinLen(orig);
    rest := cut;
    var vals: seq<T> := [];
    var k := 0;
    while k < |rest|
      invariant |rest| == |orig| && k <= |rest|
      invariant n < m || k == 0
      invariant |vals| == k && forall i :: 0 <= i < k ==> vals[i] == orig[i][m - 1 - n]
      invariant forall i :: 0 <= i < k ==> rest[i] == orig[i][..m - 1 - n]
      invariant forall i :: k <= i < |rest| ==> rest[i] == orig[i][..m]
    {
      var (v, front) := SeqNthBack(rest[k], n);
      rest := rest[k := front];
      if v.None? {
        NthBackRestShort(orig, n, rest);
        return None, rest;
      }
      vals := vals + [v.value];
      k := k + 1;
    }
    assert vals == Column(orig, m - 1 - n);
    NthBackRestLong(orig, n, rest);
    r := Some(vals);
  }

  lemma NthBackRestShort<T>(orig: seq<seq<T>>, n: nat, rest: seq<seq<T>>)
    requires |orig| > 0 && n >= MinLen(orig) && |rest| == |orig| && rest[0] == []
    requires forall i :: 1 <= i < |orig| ==> rest[i] == orig[i][..MinLen(orig)]
    ensures rest == NthBackRest(orig, n)
  {
  }

  lemma NthBackRestLong<T>(orig: seq<seq<T>>, n: nat, rest: seq<seq<T>>)
    requires |orig| > 0 && n < MinLen(orig) && |rest| == |orig|
    requires forall i :: 0 <= i < |orig| ==> rest[i] == orig[i][..MinLen(orig) - 1 - n]
    ensures rest == NthBackRest(orig, n)
  {
  }

  /** Cuts a component down to `m` items by calling `next_back` on it. */
  method TrimBack<T>(s: seq<T>, m: nat) returns (r: seq<T>)
    requires m <= |s|
    ensures r == s[..m]
  {
    r := s;
    var count := m;
    while count < |s|
      invariant m <= count <= |s| && r == s[..|s| - (count - m)]
    {
      var (_, front) := SeqNextBack(r);
      r := front;
      count := count + 1;
    }
  }

  class TupleZip<T> {
    const arity: nat
    var iters: seq<seq<T>>

    ghost predicate Valid()
      reads this
    {
      |iters| == arity > 0
    }

    /** The tuples still to come. */
    function Items(): seq<seq<T>>
      reads this
      requires Valid()
    {
      Zipped(iters)
    }

    /** `zip()` on a tuple of iterators. */
    constructor (iters: seq<seq<T>>)
      requires |iters| > 0
      ensures Valid() && this.iters == iters && arity == |iters|
    {
      arity := |iters|;
      this.iters := iters;
    }

    /** `nth(n)`: `nth(n)?` on every component in turn. */
    method Nth(n: nat) returns (r: Option<seq<T>>)
      requires Valid()
      modifies this
      ensures Valid()
      ensures r == NthValue(old(iters), n) && iters == NthRest(old(iters), n)
    {
      r, iters := NthEach(iters, n);
    }

    /** `next`: `next()?` on every component in turn (`next` on a component
      is its `nth(0)`, see `NextIsNth`). */
    method Next() returns (r: Option<seq<T>>)
      requires Valid()
      modifies this
      ensures Valid()
      ensures r == NthValue(old(iters), 0) && iters == NthRest(old(iters), 0)
    {
      r, iters := NthEach(iters, 0);
    }

    /** `nth_back(n)`: every component is cut to the shortest length, then
      `nth_back(n)?` is called on every component in turn. */
    method NthBack(n: nat) returns (r: Option<seq<T>>)
      requires Valid()
      modifies this
      ensures Valid()
      ensures r == NthBackValue(old(iters), n) && iters == NthBackRest(old(iters), n)
    {
      var sizeMin := MinOf(Lengths(iters));
      var cut := TrimAll(iters, sizeMin);
      r, iters := NthBackEach(cut, n, iters);
    }

    /** `next_back`: every component is cut to the shortest length, then
      `next_back()?` is called on every component in turn (`next_back` on a
      component is its `nth_back(0)`, see `NextBackIsNthBack`). */
    method NextBack() returns (r: Option<seq<T>>)
      requires Valid()
      modifies this
      ensures Valid()
      ensures r == NthBackValue(old(iters), 0) && iters == NthBackRest(old(iters), 0)
    {
      var sizeMin := MinOf(Lengths(iters));
      var cut := TrimAll(iters, sizeMin);
      r, iters := NthBackEach(cut, 0, iters);
    }

    /** `size_hint`: the components know their lengths exactly. */
    function Hint(): (h: SizeHint)
      reads this
      requires Valid()
      ensures h == Exact(|Items()|)
    {
      var its := iters;
      var hints := seq(|its|, k requires 0 <= k < |its| => Exact(|its[k]|));
      ZipHintSound(hints, Lengths(its));
      ZipHint(hints)
    }
  }

  /** Draining a zip gives all its tuples. */
  method CollectZip<T>(iters: seq<seq<T>>) returns (out: seq<seq<T>>)
    requires |iters| > 0
    ensures out == Zipped(iters)
  {
    var z := new TupleZip(iters);
    out := [];
    var t: nat := 0;
    ghost var m := MinLen(iters);
    while true
      invariant z.Valid() && t <= m
      invariant z.iters == DropAll(iters, t)
      invariant out == Zipped(iters)[..t]
      decreases m - t
    {
      CollectZipStep(iters, t);
      var r := z.Next();
      if r.None? {
        return;
      }
      out := out + [r.value];
      t := t + 1;
    }
  }

  /** One step of CollectZip: `next` on the components with `t` items
      consumed yields tuple `t`, or ends the iteration after the last one. */
  lemma CollectZipStep<T>(iters: seq<seq<T>>, t: nat)
    requires |iters| > 0 && t <= MinLen(iters)
    ensures var before := DropAll(iters, t);
      var r := NthValue(before, 0);
      (r.None? ==> t == MinLen(iters) && Zipped(iters)[..t] == Zipped(iters)) &&
      (r.Some? ==> (t < MinLen(iters) && r.value == Zipped(iters)[t] &&
        NthRest(before, 0) == DropAll(iters, t + 1) &&
        Zipped(iters)[..t] + [r.value] == Zipped(iters)[..t + 1]))
  {
    if t < MinLen(iters) {
      CollectZipMore(iters, t);
    } else {
      var before := DropAll(iters, t);
      TupleNthZipped(before, 0);
      ZippedDrop(iters, before, t);
    }
  }

  lemma CollectZipMore<T>(iters: seq<seq<T>>, t: nat)
    requires |iters| > 0 && t < MinLen(iters)
    ensures var before := DropAll(iters, t);
      NthValue(before, 0) == Some(Zipped(iters)[t]) &&
      NthRest(before, 0) == DropAll(iters, t + 1) &&
      Zipped(iters)[..t] + [Zipped(iters)[t]] == Zipped(iters)[..t + 1]
  {
    var before := DropAll(iters, t);
    TupleNthZipped(before, 0);
    ZippedDrop(iters, before, t);
    assert FirstShort(before, 0) == |before|;
    var rest, after := NthRest(before, 0), DropAll(iters, t + 1);
    assert |rest| == |after|;
    forall k | 0 <= k < |rest|
      ensures rest[k] == after[k]
    {
      assert before[k][1..] == iters[k][t + 1..];
    }
    PrefixStep(Zipped(iters), t);
  }

  lemma PrefixStep<X>(s: seq<X>, t: nat)
    requires t < |s|
    ensures s[..t] + [s[t]] == s[..t + 1]
  {
  }

  // ---------------------------------------------------------------------
  // len_equality and ZipEq

  /** The two ways `ZipEq` panics: a component ran out while another had an
      item left (the index of the first that ran out), or the lengths differ
      before `next_back` (all the lengths). */
  datatype ZipEqPanic = RanOut(index: nat) | LengthMismatch(lens: seq<nat>)

  predicate AllSame(lens: seq<nat>)
  {
    forall k :: 0 <= k < |lens| ==> lens[k] == lens[0]
  }

  /** `len_equality`: a panic when some pair of neighbouring lengths differs;
      a single length passes. */
  function LenEquality(lens: seq<nat>): (r: Result<(), ZipEqPanic>)
  {
    if exists k :: 0 <= k < |lens| - 1 && lens[k] != lens[k + 1] then Err(LengthMismatch(lens))
    else Ok(())
  }

  /** It passes exactly when all the lengths are the same. */
  lemma {:induction false} LenEqualityAllSame(lens: seq<nat>)
    ensures LenEquality(lens).Ok? <==> AllSame(lens)
    ensures |lens| == 1 ==> LenEquality(lens).Ok?
  {
    if LenEquality(lens).Ok? {
      forall k | 0 <= k < |lens|
        ensures lens[k] == lens[0]
      {
        var i := 0;
        while i < k
          invariant i <= k && lens[i] == lens[0]
        {
          assert lens[i] == lens[i + 1];
          i := i + 1;
        }
      }
    }
    if AllSame(lens) && |lens| > 0 {
      forall k | 0 <= k < |lens| - 1
        ensures lens[k] == lens[k + 1]
      {
        assert lens[k] == lens[0] && lens[k + 1] == lens[0];
      }
    }
  }

  /** What every component answers to `nth(n)`. */
  function Answers<T>(iters: seq<seq<T>>, n: nat): (answers: seq<Option<T>>)
    ensures |answers| == |iters| && forall k :: 0 <= k < |iters| ==> answers[k] == SeqNth(iters[k], n).0
  {
    seq(|iters|, k requires 0 <= k < |iters| => SeqNth(iters[k], n).0)
  }

  /** The components after every one of them has been asked for `nth(n)`. */
  function AllNthRest<T>(iters: seq<seq<T>>, n: nat): (rest: seq<seq<T>>)
    ensures |rest| == |iters| && forall k :: 0 <= k < |iters| ==> rest[k] == SeqNth(iters[k], n).1
  {
    seq(|iters|, k requires 0 <= k < |iters| => SeqNth(iters[k], n).1)
  }

  /** `ZipEq::nth(n)` (and `next`, `nth(0)`): every component is asked; all
      answers give the tuple, no answers give `None`, anything else panics
      naming the first component without an answer. */
  function ZipEqValue<T>(iters: seq<seq<T>>, n: nat): Result<Option<seq<T>>, ZipEqPanic>
  {
    var answers := Answers(iters, n);
    var zipped := ZipOptions(answers);
    if zipped.Some? then Ok(zipped)
    else if forall k :: 0 <= k < |answers| ==> answers[k].None? then Ok(None)
    else Err(RanOut(FirstShort(iters, n)))
  }

  /** `ZipEq::nth` yields tuple `n` when every component has that many items,
      `None` when none has, and panics naming the first short component
      otherwise; a single component never panics. */
  lemma ZipEqNthMeaning<T>(iters: seq<seq<T>>, n: nat)
    requires |iters| > 0
    ensures var r, rest := ZipEqValue(iters, n), AllNthRest(iters, n);
      var z := Zipped(iters);
      (n < |z| ==> r == Ok(Some(z[n])) && Zipped(rest) == z[n + 1..]) &&
      (n >= |z| ==> Zipped(rest) == []) &&
      ((forall k :: 0 <= k < |iters| ==> |iters[k]| <= n) ==> r == Ok(None)) &&
      (r.Err? <==> n >= |z| && exists k :: 0 <= k < |iters| && |iters[k]| > n) &&
      (r.Err? ==> r.error == RanOut(FirstShort(iters, n))) &&
      (|iters| == 1 ==> r.Ok?)
  {
    if n < MinLen(iters) {
      ZipEqNthInside(iters, n);
    } else {
      ZipEqNthBeyond(iters, n);
    }
  }

  /** `ZipEq::nth(n)` when every component has item `n`. */
  lemma ZipEqNthInside<T>(iters: seq<seq<T>>, n: nat)
    requires |iters| > 0 && n < MinLen(iters)
    ensures ZipEqValue(iters, n) == Ok(Some(Zipped(iters)[n]))
    ensures Zipped(AllNthRest(iters, n)) == Zipped(iters)[n + 1..]
  {
    var rest := AllNthRest(iters, n);
    assert ZipOptions(Answers(iters, n)).value == Column(iters, n);
    assert forall k :: 0 <= k < |iters| ==> rest[k] == iters[k][n + 1..];
    ZippedDrop(iters, rest, n + 1);
  }

  /** `ZipEq::nth(n)` when some component has no item `n`. */
  lemma ZipEqNthBeyond<T>(iters: seq<seq<T>>, n: nat)
    requires |iters| > 0 && n >= MinLen(iters)
    ensures Zipped(AllNthRest(iters, n)) == []
    ensures var r := ZipEqValue(iters, n);
      ((forall k :: 0 <= k < |iters| ==> |iters[k]| <= n) ==> r == Ok(None)) &&
      (r.Err? <==> exists k :: 0 <= k < |iters| && |iters[k]| > n) &&
      (r.Err? ==> r.error == RanOut(FirstShort(iters, n))) &&
      (|iters| == 1 ==> r.Ok?)
  {
    var answers := Answers(iters, n);
    var km :| 0 <= km < |iters| && MinLen(iters) == |iters[km]|;
    assert answers[km].None?;
    ZippedEmpty(AllNthRest(iters, n), km);
  }

  /** All the lengths are the length of the shortest. */
  lemma AllSameMinLen<T>(iters: seq<seq<T>>)
    requires |iters| > 0 && AllSame(Lengths(iters))
    ensures forall k :: 0 <= k < |iters| ==> |iters[k]| == MinLen(iters) == |iters[0]|
  {
    var km :| 0 <= km < |iters| && MinLen(iters) == |iters[km]|;
    assert Lengths(iters)[km] == Lengths(iters)[0];
    forall k | 0 <= k < |iters|
      ensures |iters[k]| == |iters[0]|
    {
      assert Lengths(iters)[k] == Lengths(iters)[0];
    }
  }

  /** `ZipEq::nth_back(n)` (and `next_back`, `nth_back(0)`): `len_equality`
      panics on different lengths; otherwise tuple `n` from the back, taken
      from every component. */
  function ZipEqBackValue<T>(iters: seq<seq<T>>, n: nat): Result<Option<seq<T>>, ZipEqPanic>
    requires |iters| > 0
  {
    if !AllSame(Lengths(iters)) then Err(LengthMismatch(Lengths(iters)))
    else Ok(NthBackValue(iters, n))
  }

  /** The components after `ZipEq::nth_back(n)`. */
  function ZipEqBackRest<T>(iters: seq<seq<T>>, n: nat): seq<seq<T>>
    requires |iters| > 0
  {
    if !AllSame(Lengths(iters)) then iters else NthBackRest(iters, n)
  }

  /** `ZipEq::nth_back(n)` panics exactly when the lengths differ; otherwise
      it yields tuple `n` counted from the back and leaves the ones before
      it. */
  lemma ZipEqNthBackMeaning<T>(iters: seq<seq<T>>, n: nat)
    requires |iters| > 0
    ensures var r, rest := ZipEqBackValue(iters, n), ZipEqBackRest(iters, n);
      var z := Zipped(iters);
      (r.Err? <==> !AllSame(Lengths(iters))) &&
      (r.Err? ==> r.error == LengthMismatch(Lengths(iters)) && rest == iters) &&
      (r.Ok? && n < |z| ==> r.value == Some(z[|z| - 1 - n]) && Zipped(rest) == z[..|z| - 1 - n]) &&
      (r.Ok? && n >= |z| ==> r.value == None && Zipped(rest) == [])
  {
    TupleNthBackZipped(iters, n);
  }

  /** With equal lengths cutting to the shortest changes nothing. */
  lemma AllSameCut<T>(iters: seq<seq<T>>)
    requires |iters| > 0 && AllSame(Lengths(iters))
    ensures forall k :: 0 <= k < |iters| ==> iters[k] == iters[k][..MinLen(iters)]
  {
    AllSameMinLen(iters);
    forall k | 0 <= k < |iters|
      ensures iters[k] == iters[k][..MinLen(iters)]
    {
      assert |iters[k]| == MinLen(iters);
    }
  }

  class TupleZipEq<T> {
    const arity: nat
    var iters: seq<seq<T>>

    ghost predicate Valid()
      reads this
    {
      |iters| == arity > 0
    }

    /** `zip_eq()` on a tuple of iterators. */
    constructor (iters: seq<seq<T>>)
      requires |iters| > 0
      ensures Valid() && this.iters == iters && arity == |iters|
    {
      arity := |iters|;
      this.iters := iters;
    }

    /** `nth(n)`: every component is asked for `nth(n)`, then the answers are
      matched. */
    method Nth(n: nat) returns (r: Result<Option<seq<T>>, ZipEqPanic>)
      requires Valid()
      modifies this
      ensures Valid()
      ensures r == ZipEqValue(old(iters), n) && iters == AllNthRest(old(iters), n)
    {
      ghost var orig := iters;
      var answers: seq<Option<T>> := [];
      for k := 0 to |iters|
        invariant |iters| == |orig| && |answers| == k
        invariant forall i :: 0 <= i < k ==> answers[i] == SeqNth(orig[i], n).0 && iters[i] == SeqNth(orig[i], n).1
        invariant forall i :: k <= i < |iters| ==> iters[i] == orig[i]
      {
        var (v, rest) := SeqNth(iters[k], n);
        answers := answers + [v];
        iters := iters[k := rest];
      }
      assert answers == Answers(orig, n);
      assert iters == AllNthRest(orig, n);
      r := Match(orig, n, answers);
    }

    /** `next`: `nth(0)`, written with `next` on the source. */
    method Next() returns (r: Result<Option<seq<T>>, ZipEqPanic>)
      requires Valid()
      modifies this
      ensures Valid()
      ensures r == ZipEqValue(old(iters), 0) && iters == AllNthRest(old(iters), 0)
    {
      ghost var orig := iters;
      var answers: seq<Option<T>> := [];
      for k := 0 to |iters|
        invariant |iters| == |orig| && |answers| == k
        invariant forall i :: 0 <= i < k ==> answers[i] == SeqNth(orig[i], 0).0 && iters[i] == SeqNth(orig[i], 0).1
        invariant forall i :: k <= i < |iters| ==> iters[i] == orig[i]
      {
        var (v, rest) := SeqNext(iters[k]);
        answers := answers + [v];
        iters := iters[k := rest];
      }
      assert answers == Answers(orig, 0);
      assert iters == AllNthRest(orig, 0);
      r := Match(orig, 0, answers);
    }

    /** `nth_back(n)`: `len_equality` on the lengths, then `nth_back(n)?` on
        every component in turn. */
    method NthBack(n: nat) returns (r: Result<Option<seq<T>>, ZipEqPanic>)
      requires Valid()
      modifies this
      ensures Valid()
      ensures r == ZipEqBackValue(old(iters), n) && iters == ZipEqBackRest(old(iters), n)
    {
      LenEqualityAllSame(Lengths(iters));
      var check := LenEquality(Lengths(iters));
      if check.Err? {
        return Err(check.error);
      }
      AllSameCut(iters);
      var v;
      v, iters := NthBackEach(iters, n, iters);
      r := Ok(v);
    }

    /** `next_back`: `len_equality` on the lengths, then `next_back()?` on
        every component in turn (`nth_back(0)` on each, see
        `NextBackIsNthBack`). */
    method NextBack() returns (r: Result<Option<seq<T>>, ZipEqPanic>)
      requires Valid()
      modifies this
      ensures Valid()
      ensures r == ZipEqBackValue(old(iters), 0) && iters == ZipEqBackRest(old(iters), 0)
    {
      LenEqualityAllSame(Lengths(iters));
      var check := LenEquality(Lengths(iters));
      if check.Err? {
        return Err(check.error);
      }
      AllSameCut(iters);
      var v;
      v, iters := NthBackEach(iters, 0, iters);
      r := Ok(v);
    }

    /** `size_hint`, the same as `Zip`'s. */
    function Hint(): (h: SizeHint)
      reads this
      requires Valid()
      ensures h == Exact(MinLen(iters))
    {
      var its := iters;
      var hints := seq(|its|, k requires 0 <= k < |its| => Exact(|its[k]|));
      ZipHintSound(hints, Lengths(its));
      ZipHint(hints)
    }
  }

  /** The match on the answers of `ZipEq::nth`/`next`. */
  method Match<T>(ghost iters: seq<seq<T>>, n: nat, answers: seq<Option<T>>) returns (r: Result<Option<seq<T>>, ZipEqPanic>)
    requires answers == Answers(iters, n)
    ensures r == ZipEqValue(iters, n)
  {
    var zipped := ZipOptions(answers);
    if zipped.Some? {
      return Ok(zipped);
    }
    var allNone := true;
    for k := 0 to |answers|
      invariant allNone <==> forall i :: 0 <= i < k ==> answers[i].None?
    {
      if answers[k].Some? {
        allNone := false;
      }
    }
    if allNone {
      return Ok(None);
    }
    var first := 0;
    while first < |answers| && answers[first].Some?
      invariant first <= |answers| && forall i :: 0 <= i < first ==> answers[i].Some?
    {
      first := first + 1;
    }
    assert first == FirstShort(iters, n);
    r := Err(RanOut(first));
  }

  /** The components with their first `t` items consumed. */
  function DropAll<T>(iters: seq<seq<T>>, t: nat): (rest: seq<seq<T>>)
    requires forall k :: 0 <= k < |iters| ==> t <= |iters[k]|
    ensures |rest| == |iters| && forall k :: 0 <= k < |iters| ==> rest[k] == iters[k][t..]
  {
    seq(|iters|, k requires 0 <= k < |iters| => iters[k][t..])
  }

  /** Draining a `zip_eq` gives all its tuples when the components have the
      same length, and panics naming the first component that ran out
      otherwise. */
  method CollectZipEq<T>(iters: seq<seq<T>>) returns (r: Result<seq<seq<T>>, ZipEqPanic>)
    requires |iters| > 0
    ensures r.Ok? <==> AllSame(Lengths(iters))
    ensures r.Ok? ==> r.value == Zipped(iters)
    ensures r.Err? ==> (r.error.RanOut? && r.error.index < |iters| &&
      |iters[r.error.index]| == MinLen(iters) &&
      forall k :: 0 <= k < r.error.index ==> |iters[k]| > MinLen(iters))
  {
    var z := new TupleZipEq(iters);
    var out: seq<seq<T>> := [];
    var t: nat := 0;
    ghost var m := MinLen(iters);
    while true
      invariant z.Valid() && t <= m
      invariant z.iters == DropAll(iters, t)
      invariant out == Zipped(iters)[..t]
      decreases m - t
    {
      var step := z.Next();
      if step.Err? {
        CollectZipEqPanics(iters, t);
        return Err(step.error);
      }
      if step.value.None? {
        CollectZipEqEnds(iters, t);
        return Ok(out);
      }
      CollectZipEqMore(iters, t);
      out := out + [step.value.value];
      t := t + 1;
    }
  }

  /** The step of CollectZipEq that panics. */
  lemma CollectZipEqPanics<T>(iters: seq<seq<T>>, t: nat)
    requires |iters| > 0 && t <= MinLen(iters)
    requires ZipEqValue(DropAll(iters, t), 0).Err?
    ensures !AllSame(Lengths(iters))
    ensures var j := FirstShort(DropAll(iters, t), 0);
      ZipEqValue(DropAll(iters, t), 0).error == RanOut(j) && j < |iters| &&
      |iters[j]| == MinLen(iters) && forall k :: 0 <= k < j ==> |iters[k]| > MinLen(iters)
  {
    var before := DropAll(iters, t);
    MinLenDrop(iters, t);
    if t < MinLen(iters) {
      ZipEqNthInside(before, 0);
      assert false;
    }
    ZipEqNthBeyond(before, 0);
    FirstShortDrop(iters, t);
  }

  /** Once the shortest component is used up, the first component without
      an item is a shortest one, and all before it are longer. */
  lemma FirstShortDrop<T>(iters: seq<seq<T>>, t: nat)
    requires |iters| > 0 && t == MinLen(iters)
    requires exists k :: 0 <= k < |iters| && |DropAll(iters, t)[k]| > 0
    ensures !AllSame(Lengths(iters))
    ensures var j := FirstShort(DropAll(iters, t), 0);
      j < |iters| && |iters[j]| == MinLen(iters) && forall k :: 0 <= k < j ==> |iters[k]| > MinLen(iters)
  {
    var before := DropAll(iters, t);
    var j := FirstShort(before, 0);
    var km :| 0 <= km < |iters| && MinLen(iters) == |iters[km]|;
    assert |before[km]| == 0;
    assert j < |iters|;
    forall k | 0 <= k < j
      ensures |iters[k]| > MinLen(iters)
    {
      assert |before[k]| > 0;
    }
    var k :| 0 <= k < |iters| && |before[k]| > 0;
    assert Lengths(iters)[k] != Lengths(iters)[j];
  }

  /** Dropping `t` items from every component drops `t` from the shortest
      length. */
  lemma MinLenDrop<T>(iters: seq<seq<T>>, t: nat)
    requires |iters| > 0 && t <= MinLen(iters)
    ensures MinLen(DropAll(iters, t)) == MinLen(iters) - t
  {
    var before := DropAll(iters, t);
    var km :| 0 <= km < |iters| && MinLen(iters) == |iters[km]|;
    assert |before[km]| == MinLen(iters) - t;
    var kb :| 0 <= kb < |before| && MinLen(before) == |before[kb]|;
    assert |before[kb]| == |iters[kb]| - t;
  }

  /** A step of CollectZipEq that yields a tuple. */
  lemma CollectZipEqMore<T>(iters: seq<seq<T>>, t: nat)
    requires |iters| > 0 && t <= MinLen(iters)
    requires var r := ZipEqValue(DropAll(iters, t), 0); r.Ok? && r.value.Some?
    ensures t < MinLen(iters)
    ensures ZipEqValue(DropAll(iters, t), 0).value.value == Zipped(iters)[t]
    ensures AllNthRest(DropAll(iters, t), 0) == DropAll(iters, t + 1)
    ensures Zipped(iters)[..t] + [Zipped(iters)[t]] == Zipped(iters)[..t + 1]
  {
    var before := DropAll(iters, t);
    ZippedDrop(iters, before, t);
    if t == MinLen(iters) {
      ZipEqNthBeyond(before, 0);
      assert false;
    }
    ZipEqNthInside(before, 0);
    var rest, after := AllNthRest(before, 0), DropAll(iters, t + 1);
    forall k | 0 <= k < |rest|
      ensures rest[k] == after[k]
    {
      assert before[k][1..] == iters[k][t + 1..];
    }
    PrefixStep(Zipped(iters), t);
  }

  /** The step of CollectZipEq that ends the iteration. */
  lemma CollectZipEqEnds<T>(iters: seq<seq<T>>, t: nat)
    requires |iters| > 0 && t <= MinLen(iters)
    requires ZipEqValue(DropAll(iters, t), 0) == Ok(None)
    ensures AllSame(Lengths(iters)) && t == MinLen(iters)
    ensures Zipped(iters)[..t] == Zipped(iters)
  {
    var before := DropAll(iters, t);
    ZipEqNthMeaning(before, 0);
    ZippedDrop(iters, before, t);
    assert forall k :: 0 <= k < |iters| ==> |before[k]| == 0;
  }
}
