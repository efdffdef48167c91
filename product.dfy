// The forward cartesian product of src/iterator/product.rs
// (`cartesian_product` on a tuple of iterators): an odometer over the
// components in which the last component varies fastest. A tuple whose
// components have one item type is a sequence here, and each component
// iterator is its remaining items.
module Product {
  import opened Wrappers
  import opened IterBase
  import opened Tuples

  // ---------------------------------------------------------------- the product sequence

  /** `p` extended by each item of `ys`. */
  function Extend<T>(p: seq<T>, ys: seq<T>): seq<seq<T>>
  {
    if |ys| == 0 then [] else [p + [ys[0]]] + Extend(p, ys[1..])
  }

  /** Tuple `j` of an extension is `p` extended by item `j`. */
  lemma {:induction false} ExtendIndex<T>(p: seq<T>, ys: seq<T>)
    ensures |Extend(p, ys)| == |ys| && forall j :: 0 <= j < |ys| ==> Extend(p, ys)[j] == p + [ys[j]]
  {
    if |ys| > 0 {
      ExtendIndex(p, ys[1..]);
    }
  }

  /** Every prefix extended by every item, the prefixes in order. */
  function ExtendAll<T>(ps: seq<seq<T>>, ys: seq<T>): seq<seq<T>>
  {
    if |ps| == 0 then [] else Extend(ps[0], ys) + ExtendAll(ps[1..], ys)
  }

  lemma {:induction false} ExtendAllLength<T>(ps: seq<seq<T>>, ys: seq<T>)
    ensures |ExtendAll(ps, ys)| == |ps| * |ys|
  {
    if |ps| > 0 {
      ExtendAllLength(ps[1..], ys);
      ExtendIndex(ps[0], ys);
      assert |ps| * |ys| == |ys| + (|ps| - 1) * |ys|;
    }
  }

  /** Nothing to extend with leaves nothing. */
  lemma {:induction false} ExtendAllNone<T>(ps: seq<seq<T>>, ys: seq<T>)
    requires ys == []
    ensures ExtendAll(ps, ys) == []
  {
    if |ps| > 0 {
      ExtendAllNone(ps[1..], ys);
    }
  }

  /** Item `a * |ys| + b` is prefix `a` extended by item `b`. */
  lemma {:induction false} ExtendAllIndex<T>(ps: seq<seq<T>>, ys: seq<T>, a: nat, b: nat)
    requires a < |ps| && b < |ys|
    ensures a * |ys| + b < |ExtendAll(ps, ys)| && ExtendAll(ps, ys)[a * |ys| + b] == ps[a] + [ys[b]]
  {
    ExtendIndex(ps[0], ys);
    if a > 0 {
      ExtendAllIndex(ps[1..], ys, a - 1, b);
      assert a * |ys| + b == |ys| + ((a - 1) * |ys| + b);
    }
  }

  /** The first prefix's tuples come first. */
  lemma ExtendAllCons<T>(p: seq<T>, ps: seq<seq<T>>, ys: seq<T>)
    ensures ExtendAll([p] + ps, ys) == Extend(p, ys) + ExtendAll(ps, ys)
  {
    assert ([p] + ps)[1..] == ps;
  }

  /** The product of some lengths, multiplied from the left. */
  function LengthProduct(ns: seq<nat>): nat
  {
    if |ns| == 0 then 1 else LengthProduct(ns[..|ns| - 1]) * ns[|ns| - 1]
  }

  /** The tuples of the cartesian product of the first `k + 1` components,
      the last of them varying fastest. */
  function ProdAt<T>(os: seq<seq<T>>, k: nat): seq<seq<T>>
    requires k < |os|
    decreases k
  {
    if k == 0 then Extend([], os[0]) else ExtendAll(ProdAt(os, k - 1), os[k])
  }

  /** The tuples of the cartesian product of `os`. */
  function Prod<T>(os: seq<seq<T>>): seq<seq<T>>
    requires |os| > 0
  {
    ProdAt(os, |os| - 1)
  }

  /** The product has as many tuples as the lengths multiply to. */
  lemma {:induction false} ProdLength<T>(os: seq<seq<T>>, k: nat)
    requires k < |os|
    ensures |ProdAt(os, k)| == LengthProduct(Lengths(os)[..k + 1])
    decreases k
  {
    assert Lengths(os)[..k + 1][..k] == Lengths(os)[..k];
    if k > 0 {
      ProdLength(os, k - 1);
      ExtendAllLength(ProdAt(os, k - 1), os[k]);
    } else {
      ExtendIndex([], os[0]);
      assert Lengths(os)[..0] == [];
    }
  }

  /** An empty component empties the product. */
  lemma {:induction false} ProdEmpty<T>(os: seq<seq<T>>, k: nat, j: nat)
    requires j <= k < |os| && os[j] == []
    ensures ProdAt(os, k) == []
    decreases k
  {
    if k == j {
      if k > 0 {
        ExtendAllNone(ProdAt(os, k - 1), os[k]);
      }
    } else {
      ProdEmpty(os, k - 1, j);
      assert ExtendAll(ProdAt(os, k - 1), os[k]) == [];
    }
  }

  /** The product of one component is its items as 1-tuples. */
  lemma ProdSingle<T>(s: seq<T>)
    ensures |Prod([s])| == |s| && forall i :: 0 <= i < |s| ==> Prod([s])[i] == [s[i]]
  {
    assert Prod([s]) == Extend([], s);
    ExtendIndex([], s);
  }

  // ---------------------------------------------------------------- size_hint_mul_add

  lemma MulLe(a: nat, b: nat, x: nat, y: nat)
    requires a <= x && b <= y
    ensures a * b <= x * y
  {
    assert a * b <= x * b by {
      assert (x - a) * b >= 0;
    }
    assert x * b <= x * y by {
      assert x * (y - b) >= 0;
    }
  }

  /** `size_hint_mul_add(a, b, c)`: `a * b + c` on both bounds; the upper
      bound only when all three are known. */
  function MulAdd(a: SizeHint, b: SizeHint, c: SizeHint): SizeHint
  {
    var us := ZipOptions([a.upper, b.upper, c.upper]);
    SizeHint(a.lower * b.lower + c.lower,
      if us.Some? then Some(us.value[0] * us.value[1] + us.value[2]) else None)
  }

  /** Sound hints give a sound hint of `x * y + z`, and exact ones an exact
      one. */
  lemma MulAddSound(a: SizeHint, b: SizeHint, c: SizeHint, x: nat, y: nat, z: nat)
    requires Bounds(a, x) && Bounds(b, y) && Bounds(c, z)
    ensures Bounds(MulAdd(a, b, c), x * y + z)
    ensures a == Exact(x) && b == Exact(y) && c == Exact(z) ==> MulAdd(a, b, c) == Exact(x * y + z)
  {
    MulLe(a.lower, b.lower, x, y);
    var us := ZipOptions([a.upper, b.upper, c.upper]);
    if us.Some? {
      assert [a.upper, b.upper, c.upper][0].Some? && [a.upper, b.upper, c.upper][1].Some?;
      MulLe(x, y, a.upper.value, b.upper.value);
    } else {
      assert !(a.upper.Some? && b.upper.Some? && c.upper.Some?);
    }
  }

  // ---------------------------------------------------------------- the single-component product

  /** The product of one iterator: every call is the inner iterator's,
      its item wrapped in a 1-tuple. */
  class ProductOne<T> {
    var iter: seq<T>

    /** The 1-tuples still to come. */
    function Items(): seq<seq<T>>
      reads this
    {
      Prod([iter])
    }

    constructor (iter: seq<T>)
      ensures this.iter == iter
    {
      this.iter := iter;
    }

    /** `next`: the inner `next`, wrapped. */
    method Next() returns (r: Option<seq<T>>)
      modifies this
      ensures iter == SeqNext(old(iter)).1
      ensures old(Items()) == [] ==> r == None
      ensures old(Items()) != [] ==> r == Some(old(Items())[0]) && Items() == old(Items())[1..]
    {
      ProdSingle(iter);
      var (v, rest) := SeqNext(iter);
      iter := rest;
      ProdSingle(iter);
      r := if v.Some? then Some([v.value]) else None;
    }

    /** `nth(n)`: the inner `nth(n)`, wrapped. */
    method Nth(n: nat) returns (r: Option<seq<T>>)
      modifies this
      ensures iter == SeqNth(old(iter), n).1
      ensures n >= |old(Items())| ==> r == None && Items() == []
      ensures n < |old(Items())| ==> r == Some(old(Items())[n]) && Items() == old(Items())[n + 1..]
    {
      ProdSingle(iter);
      var (v, rest) := SeqNth(iter, n);
      iter := rest;
      ProdSingle(iter);
      r := if v.Some? then Some([v.value]) else None;
    }

    /** `next_back` of the double-ended single-component product. */
    method NextBack() returns (r: Option<seq<T>>)
      modifies this
      ensures iter == SeqNextBack(old(iter)).1
      ensures old(Items()) == [] ==> r == None
      ensures old(Items()) != [] ==> r == Some(old(Items())[|old(Items())| - 1]) && Items() == old(Items())[..|old(Items())| - 1]
    {
      ProdSingle(iter);
      var (v, rest) := SeqNextBack(iter);
      iter := rest;
      ProdSingle(iter);
      r := if v.Some? then Some([v.value]) else None;
    }

    /** `size_hint` (and `len`): the inner iterator's. */
    function Hint(): (h: SizeHint)
      reads this
      ensures h == Exact(|Items()|)
    {
      ProdSingle(iter);
      Exact(|iter|)
    }
  }

  // ---------------------------------------------------------------- the odometer

  /** The tuples still to come from the first `k + 1` components: the
      current values before `k` with each item left in component `k`, then
      each later prefix with each item of that component's original. */
  function Pending<T>(its: seq<seq<T>>, origs: seq<seq<T>>, cv: seq<T>, k: nat): seq<seq<T>>
    requires k < |its| == |origs| == |cv| + 1
    decreases k
  {
    if k == 0 then Extend([], its[0])
    else Extend(cv[..k], its[k]) + ExtendAll(Pending(its, origs, cv, k - 1), origs[k])
  }

  /** The pending tuples of the first `k + 1` components depend on those
      components and on the current values before `k` only. */
  lemma {:induction false} PendingFrame<T>(its: seq<seq<T>>, its2: seq<seq<T>>, origs: seq<seq<T>>, cv: seq<T>, cv2: seq<T>, k: nat)
    requires k < |its| == |its2| == |origs| == |cv| + 1 == |cv2| + 1
    requires forall j :: 0 <= j <= k ==> its[j] == its2[j]
    requires forall j :: 0 <= j < k ==> cv[j] == cv2[j]
    ensures Pending(its, origs, cv, k) == Pending(its2, origs, cv2, k)
    decreases k
  {
    if k > 0 {
      PendingFrame(its, its2, origs, cv, cv2, k - 1);
      assert cv[..k] == cv2[..k];
    }
  }

  /** The odometer's count: the items left in each component weighted by
      the lengths of the later originals. */
  function Remaining(ls: seq<nat>, os: seq<nat>, k: nat): nat
    requires k < |ls| == |os|
    decreases k
  {
    if k == 0 then ls[0] else Remaining(ls, os, k - 1) * os[k] + ls[k]
  }

  lemma {:induction false} PendingLength<T>(its: seq<seq<T>>, origs: seq<seq<T>>, cv: seq<T>, k: nat)
    requires k < |its| == |origs| == |cv| + 1
    ensures |Pending(its, origs, cv, k)| == Remaining(Lengths(its), Lengths(origs), k)
    decreases k
  {
    if k > 0 {
      PendingLength(its, origs, cv, k - 1);
      ExtendAllLength(Pending(its, origs, cv, k - 1), origs[k]);
      ExtendIndex(cv[..k], its[k]);
    } else {
      ExtendIndex([], its[0]);
    }
  }

  /** One step of the odometer at component `k`, as the nested `match` the
      source generates: the component's next item; when it is exhausted it
      is reset from its original, the component before advances (its item
      becomes the current value), and the reset component starts again. A
      `None` anywhere ends the step with `None`. */
  function OdometerStep<T>(its: seq<seq<T>>, origs: seq<seq<T>>, cv: seq<T>, k: nat): (r: (Option<T>, seq<seq<T>>, seq<T>))
    requires k < |its| == |origs| == |cv| + 1
    ensures |r.1| == |its| && |r.2| == |cv|
    ensures forall j :: k < j < |its| ==> r.1[j] == its[j]
    ensures forall j :: k <= j < |cv| ==> r.2[j] == cv[j]
    decreases k
  {
    if |its[k]| > 0 then (Some(its[k][0]), its[k := its[k][1..]], cv)
    else if k == 0 then (None, its, cv)
    else
      var (x, its2, cv2) := OdometerStep(its[k := origs[k]], origs, cv, k - 1);
      if x.None? then (None, its2, cv2)
      else
        var cv3 := cv2[k - 1 := x.value];
        if |its2[k]| > 0 then (Some(its2[k][0]), its2[k := its2[k][1..]], cv3)
        else (None, its2, cv3)
  }

  /** What a step at component `k` yields: the next tuple of the first
      `k + 1` components (the current values then the item), the rest left
      pending, and `None` exactly when nothing is pending. */
  ghost predicate StepYieldsPending<T>(its: seq<seq<T>>, origs: seq<seq<T>>, cv: seq<T>, k: nat)
    requires k < |its| == |origs| == |cv| + 1
  {
    var (x, its2, cv2) := OdometerStep(its, origs, cv, k);
    var p, p2 := Pending(its, origs, cv, k), Pending(its2, origs, cv2, k);
    (x.None? ==> p == []) &&
    (x.Some? ==> p == [cv2[..k] + [x.value]] + p2)
  }

  /** A step at component `k` yields the next tuple of the first `k + 1`
      components (the current values then the item) and leaves the rest
      pending, and it yields `None` exactly when nothing is pending. */
  lemma {:induction false} OdometerStepMeaning<T>(its: seq<seq<T>>, origs: seq<seq<T>>, cv: seq<T>, k: nat)
    requires k < |its| == |origs| == |cv| + 1
    ensures var (x, its2, cv2) := OdometerStep(its, origs, cv, k);
      var p, p2 := Pending(its, origs, cv, k), Pending(its2, origs, cv2, k);
      (x.None? ==> p == []) &&
      (x.Some? ==> p == [cv2[..k] + [x.value]] + p2)
    decreases k
  {
    if |its[k]| > 0 {
      PendingTake(its, its[k := its[k][1..]], origs, cv, k);
    } else if k > 0 {
      OdometerStepMeaning(its[k := origs[k]], origs, cv, k - 1);
      OdometerCarry(its, origs, cv, k);
    }
  }

  /** Component `k` is exhausted: the step of component `k - 1`, once its
      meaning is known, gives the meaning of the step at `k`. */
  lemma OdometerCarry<T>(its: seq<seq<T>>, origs: seq<seq<T>>, cv: seq<T>, k: nat)
    requires 0 < k < |its| == |origs| == |cv| + 1 && |its[k]| == 0
    requires StepYieldsPending(its[k := origs[k]], origs, cv, k - 1)
    ensures StepYieldsPending(its, origs, cv, k)
  {
    var its1 := its[k := origs[k]];
    var (x1, its3, cv3) := OdometerStep(its1, origs, cv, k - 1);
    PendingFrame(its, its1, origs, cv, cv, k - 1);
    PendingExhausted(its, origs, cv, k);
    var p1 := Pending(its, origs, cv, k - 1);
    if x1.None? {
      assert OdometerStep(its, origs, cv, k).0 == None;
      assert p1 == [];
    } else if |origs[k]| == 0 {
      assert its3[k] == origs[k];
      assert OdometerStep(its, origs, cv, k).0 == None;
      ExtendAllNone(p1, origs[k]);
    } else {
      var cv4 := cv3[k - 1 := x1.value];
      var its2 := its3[k := origs[k][1..]];
      assert its3[k] == origs[k];
      assert OdometerStep(its, origs, cv, k) == (Some(origs[k][0]), its2, cv4);
      CarryRestarts(its, its2, its3, origs, cv, cv3, cv4, x1.value, k);
    }
  }

  /** The step of component `k - 1` yielded `x`: component `k` restarts and
      yields its first item after the new current values. */
  lemma CarryRestarts<T>(its: seq<seq<T>>, its2: seq<seq<T>>, its3: seq<seq<T>>, origs: seq<seq<T>>,
                         cv: seq<T>, cv3: seq<T>, cv4: seq<T>, x: T, k: nat)
    requires 0 < k < |its| == |its2| == |its3| == |origs| == |cv| + 1 == |cv3| + 1 && |origs[k]| > 0
    requires its3[k] == origs[k] && its2 == its3[k := origs[k][1..]] && cv4 == cv3[k - 1 := x]
    requires Pending(its, origs, cv, k) == ExtendAll(Pending(its, origs, cv, k - 1), origs[k])
    requires Pending(its, origs, cv, k - 1) == [cv3[..k - 1] + [x]] + Pending(its3, origs, cv3, k - 1)
    ensures Pending(its, origs, cv, k) == [cv4[..k] + [origs[k][0]]] + Pending(its2, origs, cv4, k)
  {
    var p1 := Pending(its, origs, cv, k - 1);
    PendingFrame(its3, its2, origs, cv3, cv4, k - 1);
    assert cv4[..k] == cv3[..k - 1] + [x];
    PendingRestart(its2, origs, cv4, k);
    ExtendAllStep(p1, origs[k]);
  }

  /** Component `k` still has an item (`its2` is the components after it
      is taken): it comes next, after the current values. */
  lemma PendingTake<T>(its: seq<seq<T>>, its2: seq<seq<T>>, origs: seq<seq<T>>, cv: seq<T>, k: nat)
    requires k < |its| == |origs| == |cv| + 1 && |its[k]| > 0 && its2 == its[k := its[k][1..]]
    ensures Pending(its, origs, cv, k) == [cv[..k] + [its[k][0]]] + Pending(its2, origs, cv, k)
  {
    assert its2[k] == its[k][1..];
    ExtendHead(cv[..k], its[k]);
    if k == 0 {
      assert cv[..k] == [];
    } else {
      var e := ExtendAll(Pending(its, origs, cv, k - 1), origs[k]);
      PendingUpdateAbove(its, origs, cv, k - 1, k, its[k][1..]);
      PendingReplaced(its, its2, origs, cv, k);
      PendingRestart(its, origs, cv, k);
      ConsAppend(cv[..k] + [its[k][0]], Extend(cv[..k], its[k]), Extend(cv[..k], its[k][1..]), e);
    }
  }

  /** Component `k` replaced, the earlier pending tuples unchanged. */
  lemma PendingReplaced<T>(its: seq<seq<T>>, its2: seq<seq<T>>, origs: seq<seq<T>>, cv: seq<T>, k: nat)
    requires 0 < k < |its| == |its2| == |origs| == |cv| + 1
    requires Pending(its2, origs, cv, k - 1) == Pending(its, origs, cv, k - 1)
    ensures Pending(its2, origs, cv, k) == Extend(cv[..k], its2[k]) + ExtendAll(Pending(its, origs, cv, k - 1), origs[k])
  {
  }

  /** Changing a component after `k` leaves the pending tuples of the first
      `k + 1` components alone. */
  lemma PendingUpdateAbove<T>(its: seq<seq<T>>, origs: seq<seq<T>>, cv: seq<T>, k: nat, j: nat, t: seq<T>)
    requires k < j < |its| == |origs| == |cv| + 1
    ensures Pending(its[j := t], origs, cv, k) == Pending(its, origs, cv, k)
  {
    PendingFrame(its, its[j := t], origs, cv, cv, k);
  }

  /** An extension by a nonempty sequence starts with its first item. */
  lemma ExtendHead<T>(p: seq<T>, ys: seq<T>)
    requires ys != []
    ensures Extend(p, ys) == [p + [ys[0]]] + Extend(p, ys[1..])
  {
  }

  lemma ConsAppend<T>(h: T, a: seq<T>, a2: seq<T>, e: seq<T>)
    requires a == [h] + a2
    ensures a + e == [h] + (a2 + e)
  {
  }

  /** Component `k` is exhausted: every later prefix with each item of its
      original. */
  lemma PendingExhausted<T>(its: seq<seq<T>>, origs: seq<seq<T>>, cv: seq<T>, k: nat)
    requires 0 < k < |its| == |origs| == |cv| + 1 && its[k] == []
    ensures Pending(its, origs, cv, k) == ExtendAll(Pending(its, origs, cv, k - 1), origs[k])
  {
    assert Extend(cv[..k], its[k]) == [];
  }

  /** Component `k` restarted after its first item. */
  lemma PendingRestart<T>(its: seq<seq<T>>, origs: seq<seq<T>>, cv: seq<T>, k: nat)
    requires 0 < k < |its| == |origs| == |cv| + 1
    ensures Pending(its, origs, cv, k) == Extend(cv[..k], its[k]) + ExtendAll(Pending(its, origs, cv, k - 1), origs[k])
  {
  }

  /** The first tuple of an extension, and the ones after it. */
  lemma ExtendAllStep<T>(ps: seq<seq<T>>, ys: seq<T>)
    requires ps != [] && ys != []
    ensures ExtendAll(ps, ys) == [ps[0] + [ys[0]]] + (Extend(ps[0], ys[1..]) + ExtendAll(ps[1..], ys))
  {
  }

  /** The components after construction: every component but the last has
      given its first item. */
  function InitialIters<T>(os: seq<seq<T>>): (its: seq<seq<T>>)
    requires |os| >= 2
    ensures |its| == |os|
  {
    seq(|os|, k requires 0 <= k < |os| => if k < |os| - 1 then SeqNext(os[k]).1 else os[k])
  }

  /** The current values after construction: the first items of every
      component but the last, or `None` when one of them is empty. */
  function InitialCurrent<T>(os: seq<seq<T>>): (cvo: Option<seq<T>>)
    requires |os| >= 2
    ensures cvo.Some? ==> |cvo.value| == |os| - 1
  {
    ZipOptions(seq(|os| - 1, k requires 0 <= k < |os| - 1 => SeqNext(os[k]).0))
  }

  /** Right after construction the pending tuples of the first `k + 1`
      components are their product but its first tuple, which is the current
      values up to `k`. */
  lemma {:induction false} InitialPending<T>(os: seq<seq<T>>, k: nat)
    requires |os| >= 2 && k < |os| - 1 && InitialCurrent(os).Some?
    ensures var its, cv := InitialIters(os), InitialCurrent(os).value;
      os[k] != [] && ProdAt(os, k) == [cv[..k + 1]] + Pending(its, os, cv, k)
    decreases k
  {
    var its, cv := InitialIters(os), InitialCurrent(os).value;
    var heads := seq(|os| - 1, j requires 0 <= j < |os| - 1 => SeqNext(os[j]).0);
    assert heads[k].Some? && cv[k] == heads[k].value;
    assert os[k] != [] && cv[k] == os[k][0] && its[k] == os[k][1..];
    assert cv[..k + 1] == cv[..k] + [os[k][0]];
    if k > 0 {
      InitialPending(os, k - 1);
      var p := Pending(its, os, cv, k - 1);
      ExtendAllCons(cv[..k], p, os[k]);
    }
  }

  /** After construction with a component empty before the last, there
      are no current values and the product is empty. */
  lemma InitialEmpty<T>(os: seq<seq<T>>)
    requires |os| >= 2 && InitialCurrent(os).None?
    ensures Prod(os) == []
  {
    var heads := seq(|os| - 1, j requires 0 <= j < |os| - 1 => SeqNext(os[j]).0);
    var k :| 0 <= k < |os| - 1 && heads[k].None?;
    ProdEmpty(os, |os| - 1, k);
  }

  /** After construction the tuples still to come are the whole product. */
  lemma InitialItems<T>(os: seq<seq<T>>, its: seq<seq<T>>, cv: seq<T>)
    requires |os| >= 2 && its == InitialIters(os) && InitialCurrent(os) == Some(cv)
    ensures Pending(its, os, cv, |os| - 1) == Prod(os)
  {
    var n := |os|;
    InitialPending(os, n - 2);
    var p := Pending(its, os, cv, n - 2);
    assert cv[..n - 1] == cv;
    ExtendAllCons(cv, p, os[n - 1]);
  }

  /** `next` as written: once the first component runs out the step yields
      `None` but leaves the current values in place, with the later
      components already reset, so the next call starts over. */
  function NextAsWritten<T>(its: seq<seq<T>>, origs: seq<seq<T>>, cvo: Option<seq<T>>): (Option<seq<T>>, seq<seq<T>>, Option<seq<T>>)
    requires |its| == |origs| >= 2 && (cvo.Some? ==> |cvo.value| + 1 == |its|)
  {
    if cvo.None? then (None, its, cvo)
    else
      var (x, its2, cv2) := OdometerStep(its, origs, cvo.value, |its| - 1);
      if x.None? then (None, its2, Some(cv2)) else (Some(cv2 + [x.value]), its2, Some(cv2))
  }

  /** `next` with the product declared fused: the first `None` also clears
      the current values, so every later call yields `None`. */
  function NextFused<T>(its: seq<seq<T>>, origs: seq<seq<T>>, cvo: Option<seq<T>>): (Option<seq<T>>, seq<seq<T>>, Option<seq<T>>)
    requires |its| == |origs| >= 2 && (cvo.Some? ==> |cvo.value| + 1 == |its|)
  {
    if cvo.None? then (None, its, cvo)
    else
      var (x, its2, cv2) := OdometerStep(its, origs, cvo.value, |its| - 1);
      if x.None? then (None, its2, None) else (Some(cv2 + [x.value]), its2, Some(cv2))
  }

  /** The product of `[1]` and `[5]` as written yields `(1, 5)`, then
      `None`, then `(1, 5)` again, although it is declared a
      `FusedIterator`. */
  lemma NextAsWrittenRepeats()
    ensures var os: seq<seq<int>> := [[1], [5]];
      var s0 := (InitialIters(os), os, InitialCurrent(os));
      var s1 := NextAsWritten(s0.0, s0.1, s0.2);
      var s2 := NextAsWritten(s1.1, os, s1.2);
      var s3 := NextAsWritten(s2.1, os, s2.2);
      s1.0 == Some([1, 5]) && s2.0 == None && s3.0 == Some([1, 5]) && Prod(os) == [[1, 5]]
  {
    var os: seq<seq<int>> := [[1], [5]];
    RepeatsStart();
    RepeatsTake(os);
    RepeatsRestart(os);
    RepeatsProduct(os);
  }

  lemma RepeatsStart()
    ensures var os: seq<seq<int>> := [[1], [5]];
      InitialIters(os) == [[], [5]] && InitialCurrent(os) == Some([1])
  {
    var os: seq<seq<int>> := [[1], [5]];
    var heads := seq(1, j requires 0 <= j < 1 => SeqNext(os[j]).0);
    assert heads == [Some(1)];
    assert InitialIters(os) == [[], [5]];
    var c := InitialCurrent(os);
    assert c.Some? && |c.value| == 1 && c.value[0] == 1;
    assert c.value == [1];
  }

  lemma RepeatsTake(os: seq<seq<int>>)
    requires os == [[1], [5]]
    ensures NextAsWritten([[], [5]], os, Some([1])) == (Some([1, 5]), [[], []], Some([1]))
  {
    var its: seq<seq<int>> := [[], [5]];
    assert its[1][1..] == [];
    assert its[1 := []] == [[], []];
    assert [1] + [5] == [1, 5];
    assert OdometerStep(its, os, [1], 1) == (Some(5), [[], []], [1]);
  }

  lemma RepeatsRestart(os: seq<seq<int>>)
    requires os == [[1], [5]]
    ensures NextAsWritten([[], []], os, Some([1])) == (None, [[], [5]], Some([1]))
  {
    var its: seq<seq<int>> := [[], []];
    assert its[1 := os[1]] == [[], [5]];
    assert OdometerStep([[], [5]], os, [1], 0) == (None, [[], [5]], [1]);
    assert OdometerStep(its, os, [1], 1) == (None, [[], [5]], [1]);
  }

  lemma RepeatsProduct(os: seq<seq<int>>)
    requires os == [[1], [5]]
    ensures Prod(os) == [[1, 5]]
  {
    assert Extend([], [1]) == [[1]] by {
      assert [1][1..] == [] && [] + [1] == [1];
      assert Extend([], [1]) == [[] + [1]] + Extend([], []);
    }
    assert Extend([1], [5]) == [[1, 5]] by {
      assert [5][1..] == [] && [1] + [5] == [1, 5];
      assert Extend([1], [5]) == [[1] + [5]] + Extend([1], []);
    }
    assert Prod(os) == ExtendAll([[1]], [5]);
    ExtendAllCons([1], [], [5]);
  }

  /** `size_hint`: the first component's hint, then, component by
      component, times the original's hint plus the component's own. */
  function ProductHint(ih: seq<SizeHint>, oh: seq<SizeHint>, k: nat): SizeHint
    requires k < |ih| == |oh|
    decreases k
  {
    if k == 0 then ih[0] else MulAdd(ProductHint(ih, oh, k - 1), oh[k], ih[k])
  }

  /** Sound hints of the components and of their originals give a sound
      hint of the odometer's count; exact ones give an exact one. */
  lemma {:induction false} ProductHintSound(ih: seq<SizeHint>, oh: seq<SizeHint>, ls: seq<nat>, os: seq<nat>, k: nat)
    requires k < |ih| == |oh| == |ls| == |os|
    requires forall j :: 0 <= j < |ls| ==> Bounds(ih[j], ls[j]) && Bounds(oh[j], os[j])
    ensures Bounds(ProductHint(ih, oh, k), Remaining(ls, os, k))
    ensures (forall j :: 0 <= j < |ls| ==> ih[j] == Exact(ls[j]) && oh[j] == Exact(os[j])) ==>
      ProductHint(ih, oh, k) == Exact(Remaining(ls, os, k))
    decreases k
  {
    if k > 0 {
      ProductHintSound(ih, oh, ls, os, k - 1);
      MulAddSound(ProductHint(ih, oh, k - 1), oh[k], ih[k], Remaining(ls, os, k - 1), os[k], ls[k]);
    }
  }

  /** The exact hints of some components. */
  function ExactHints<T>(its: seq<seq<T>>): (hs: seq<SizeHint>)
    ensures |hs| == |its| && forall j :: 0 <= j < |its| ==> hs[j] == Exact(|its[j]|)
  {
    seq(|its|, j requires 0 <= j < |its| => Exact(|its[j]|))
  }

  /** `size_hint` as written ignores the current values: with no current
      values the product yields nothing, yet the hint counts the items left
      in the components. For `[]` and `[1, 2]` it reports exactly 2. */
  lemma HintAsWrittenCountsDeadState()
    ensures var os: seq<seq<int>> := [[], [1, 2]];
      InitialCurrent(os).None? && Prod(os) == [] &&
      ProductHint(ExactHints(InitialIters(os)), ExactHints(os), 1) == Exact(2)
  {
    var os: seq<seq<int>> := [[], [1, 2]];
    var heads := seq(1, k requires 0 <= k < 1 => SeqNext(os[k]).0);
    assert heads[0].None?;
    assert InitialIters(os) == [[], [1, 2]];
    ProdEmpty(os, 1, 0);
    var ih, oh := ExactHints(InitialIters(os)), ExactHints(os);
    assert ih[0] == Exact(0) && oh[1] == Exact(2) && ih[1] == Exact(2);
    MulAddSound(ih[0], oh[1], ih[1], 0, 2, 2);
  }

  /** The cartesian product of two or more components. `originals[0]` is
      never used: only the later components are restarted. */
  class CartesianProduct<T> {
    const arity: nat
    const originals: seq<seq<T>>
    var iters: seq<seq<T>>
    var current: Option<seq<T>>

    ghost predicate Valid()
      reads this
    {
      arity >= 2 && |iters| == |originals| == arity &&
      (current.Some? ==> |current.value| == arity - 1)
    }

    /** The tuples still to come. */
    function Items(): seq<seq<T>>
      reads this
      requires Valid()
    {
      if current.None? then [] else Pending(iters, originals, current.value, arity - 1)
    }

    /** `cartesian_product`: the originals are cloned, every component but
        the last gives its first item, and the current values are those items
        when all exist. */
    constructor (iters: seq<seq<T>>)
      requires |iters| >= 2
      ensures Valid() && originals == iters
      ensures this.iters == InitialIters(iters) && current == InitialCurrent(iters)
      ensures Items() == Prod(iters)
    {
      arity := |iters|;
      originals := iters;
      var its := iters;
      var heads: seq<Option<T>> := [];
      for k := 0 to |iters| - 1
        invariant |its| == |iters| && |heads| == k
        invariant forall j :: 0 <= j < k ==> its[j] == SeqNext(iters[j]).1 && heads[j] == SeqNext(iters[j]).0
        invariant forall j :: k <= j < |iters| ==> its[j] == iters[j]
      {
        var (v, rest) := SeqNext(its[k]);
        its := its[k := rest];
        heads := heads + [v];
      }
      this.iters := its;
      current := ZipOptions(heads);
      new;
      assert its == InitialIters(iters);
      assert heads == seq(|iters| - 1, k requires 0 <= k < |iters| - 1 => SeqNext(iters[k]).0);
      if current.None? {
        InitialEmpty(iters);
      } else {
        InitialItems(iters, its, current.value);
      }
    }

    /** One odometer step at component `k` (the code the source generates
        for it). */
    method Advance(k: nat) returns (x: Option<T>)
      requires Valid() && current.Some? && k < arity
      modifies this
      ensures Valid() && current.Some?
      ensures (x, iters, current.value) == OdometerStep(old(iters), originals, old(current).value, k)
      decreases k
    {
      var (v, rest) := SeqNext(iters[k]);
      if v.Some? {
        iters := iters[k := rest];
        return v;
      }
      if k == 0 {
        return None;
      }
      iters := iters[k := originals[k]];
      var p := Advance(k - 1);
      if p.None? {
        return None;
      }
      current := Some(current.value[k - 1 := p.value]);
      var (w, rest2) := SeqNext(iters[k]);
      if w.Some? {
        iters := iters[k := rest2];
      }
      return w;
    }

    /** `next`, with the product fused (see NextAsWritten): the current
        values and the last component's next item, and once `None` always
        `None`. */
    method Next() returns (r: Option<seq<T>>)
      requires Valid()
      modifies this
      ensures Valid()
      ensures (r, iters, current) == NextFused(old(iters), originals, old(current))
      ensures r.None? ==> current.None?
      ensures old(Items()) == [] ==> r == None && Items() == []
      ensures old(Items()) != [] ==> r == Some(old(Items())[0]) && Items() == old(Items())[1..]
    {
      if current.None? {
        return None;
      }
      ghost var its0, cv0 := iters, current.value;
      OdometerStepMeaning(its0, originals, cv0, arity - 1);
      var x := Advance(arity - 1);
      assert current.value[..arity - 1] == current.value;
      if x.None? {
        current := None;
        return None;
      }
      r := Some(current.value + [x.value]);
    }

    /** `size_hint`, answering `(0, Some(0))` when there are no current
        values (see HintAsWrittenCountsDeadState); the components know their
        lengths exactly. */
    function Hint(): (h: SizeHint)
      reads this
      requires Valid()
      ensures h == Exact(|Items()|)
    {
      if current.None? then Exact(0)
      else
        var its, os, cv := iters, originals, current.value;
        ProductHintSound(ExactHints(its), ExactHints(os), Lengths(its), Lengths(os), arity - 1);
        PendingLength(its, os, cv, arity - 1);
        ProductHint(ExactHints(its), ExactHints(os), arity - 1)
    }
  }

  /** Draining the product gives every tuple once, in odometer order. */
  method CollectProduct<T>(os: seq<seq<T>>) returns (out: seq<seq<T>>)
    requires |os| >= 2
    ensures out == Prod(os)
  {
    var p := new CartesianProduct(os);
    out := [];
    var done := false;
    while !done
      invariant p.Valid()
      invariant !done ==> out + p.Items() == Prod(os)
      invariant done ==> out == Prod(os)
      decreases |p.Items()|, !done
    {
      ghost var before := p.Items();
      var r := p.Next();
      if r.None? {
        assert out + [] == out;
        done := true;
      } else {
        assert out + [r.value] + p.Items() == out + before;
        out := out + [r.value];
      }
    }
  }
}
