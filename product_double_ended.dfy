// The double-ended cartesian product of src/iterator/product.rs
// (`cartesian_product_double_ended` on a tuple of two or more iterators).
// The source keeps a forward and a backward set of component iterators and
// reaches any tuple through its position in the product: `forward_index`
// counts the tuples taken from the front, `backward_index` is one past the
// last tuple not yet taken from the back. The model keeps those two
// positions and names the tuple at a position by its mixed-radix digits
// (`index_each`).
module ProductDoubleEnded {
  import opened Wrappers
  import opened IterBase
  import opened Product
  import opened Arith

  // ---------------------------------------------------------------- the length

  /** `Some(l.0).and_then(|m| m.checked_mul(l.1))...`: the product of the
      lengths from the left, `None` as soon as a partial product overflows
      `usize`. */
  function CheckedLength(lens: seq<nat>): (r: Option<nat>)
    requires |lens| > 0
    ensures r.Some? ==> r.value == LengthProduct(lens)
    decreases |lens|
  {
    var n := |lens|;
    if n == 1 then
      assert lens[..0] == [];
      Some(lens[0])
    else
      match CheckedLength(lens[..n - 1])
      case None => None
      case Some(m) => CheckedMul(m, lens[n - 1])
  }

  /** The construction fails exactly when the product of some first
      components' lengths exceeds `usize::MAX` (even when a later length is
      zero). */
  lemma {:induction false} CheckedLengthNone(lens: seq<nat>)
    requires |lens| > 0 && forall k :: 0 <= k < |lens| ==> lens[k] <= USIZE_MAX
    ensures CheckedLength(lens).None? <==> exists k :: 1 <= k <= |lens| && LengthProduct(lens[..k]) > USIZE_MAX
    decreases |lens|
  {
    var n := |lens|;
    assert lens[..n] == lens;
    if n == 1 {
      assert lens[..0] == [];
      forall k | 1 <= k <= 1
        ensures LengthProduct(lens[..k]) <= USIZE_MAX
      {
        assert lens[..k] == [lens[0]];
        assert lens[..k][..0] == [];
      }
    } else {
      var front := lens[..n - 1];
      CheckedLengthNone(front);
      forall k | 1 <= k <= n - 1
        ensures front[..k] == lens[..k]
      {
      }
      assert LengthProduct(lens) == LengthProduct(front) * lens[n - 1];
    }
  }

  // ---------------------------------------------------------------- index_each

  /** The mixed-radix digits of position `i`: the last component varies
      fastest and the first takes what is left of the quotient. */
  function Digits(lens: seq<nat>, i: nat): (ie: seq<nat>)
    requires |lens| > 0 && forall k :: 1 <= k < |lens| ==> lens[k] > 0
    ensures |ie| == |lens|
    decreases |lens|
  {
    var n := |lens|;
    if n == 1 then [i]
    else Digits(lens[..n - 1], i / lens[n - 1]) + [i % lens[n - 1]]
  }

  /** The digits among the first `k + 1` lengths: those among the first
      `k` for the quotient, then the remainder. */
  lemma DigitsSplit(lens: seq<nat>, k: nat, j: nat)
    requires 1 <= k < |lens| && forall m :: 1 <= m < |lens| ==> lens[m] > 0
    ensures Digits(lens[..k + 1], j) == Digits(lens[..k], j / lens[k]) + [j % lens[k]]
  {
    assert lens[..k + 1][..k] == lens[..k];
  }

  /** The position a set of digits stands for: the row-major flattening. */
  function Flat(lens: seq<nat>, ie: seq<nat>): nat
    requires |ie| == |lens| > 0
    decreases |lens|
  {
    var n := |lens|;
    if n == 1 then ie[0]
    else Flat(lens[..n - 1], ie[..n - 1]) * lens[n - 1] + ie[n - 1]
  }

  /** A product of lengths is positive only when every length is. */
  lemma {:induction false} LengthProductPositive(ns: seq<nat>)
    requires LengthProduct(ns) > 0
    ensures forall k :: 0 <= k < |ns| ==> ns[k] > 0
    decreases |ns|
  {
    var n := |ns|;
    if n > 0 {
      var front := ns[..n - 1];
      assert LengthProduct(ns) == LengthProduct(front) * ns[n - 1];
      LengthProductPositive(front);
      forall k | 0 <= k < n - 1
        ensures ns[k] > 0
      {
        assert ns[k] == front[k];
      }
    }
  }

  lemma BelowProduct(f: nat, d: nat, l: nat, p: nat)
    requires f < p && d < l
    ensures f * l + d < p * l
  {
    MulMono(l, p, f + 1);
    Distrib(l, f, 1);
  }

  /** The digits of a position of the product are in range, and they flatten
      back to the position. */
  lemma {:induction false} DigitsFlat(lens: seq<nat>, i: nat)
    requires |lens| > 0 && i < LengthProduct(lens)
    ensures forall k :: 1 <= k < |lens| ==> lens[k] > 0
    ensures var ie := Digits(lens, i);
      (forall k :: 0 <= k < |lens| ==> ie[k] < lens[k]) && Flat(lens, ie) == i
    decreases |lens|
  {
    LengthProductPositive(lens);
    var n := |lens|;
    var ie := Digits(lens, i);
    if n == 1 {
      assert lens[..0] == [];
    } else {
      var front, l := lens[..n - 1], lens[n - 1];
      assert LengthProduct(lens) == LengthProduct(front) * l;
      DivBelow(i, l, LengthProduct(front));
      DigitsFlat(front, i / l);
      assert ie[..n - 1] == Digits(front, i / l);
      forall k | 0 <= k < n - 1
        ensures ie[k] < lens[k]
      {
        assert ie[k] == Digits(front, i / l)[k];
      }
    }
  }

  /** Digits in range are the digits of their flattening, which is a
      position of the product. */
  lemma {:induction false} FlatDigits(lens: seq<nat>, ie: seq<nat>)
    requires |ie| == |lens| > 0 && forall k :: 1 <= k < |lens| ==> lens[k] > 0
    requires forall k :: 0 <= k < |lens| ==> ie[k] < lens[k]
    ensures Flat(lens, ie) < LengthProduct(lens) && Digits(lens, Flat(lens, ie)) == ie
    decreases |lens|
  {
    var n := |lens|;
    if n == 1 {
      assert lens[..0] == [];
      assert ie == [ie[0]];
    } else {
      var front, l := lens[..n - 1], lens[n - 1];
      var f := Flat(front, ie[..n - 1]);
      FlatDigits(front, ie[..n - 1]);
      DivModUnique(f * l + ie[n - 1], l, f, ie[n - 1]);
      BelowProduct(f, ie[n - 1], l, LengthProduct(front));
      assert ie == ie[..n - 1] + [ie[n - 1]];
    }
  }

  /** The tuple made of item `ie[k]` of each component `k`. */
  function Pick<T>(os: seq<seq<T>>, ie: seq<nat>): seq<T>
    requires |ie| <= |os| && forall k :: 0 <= k < |ie| ==> ie[k] < |os[k]|
  {
    seq(|ie|, k requires 0 <= k < |ie| => os[k][ie[k]])
  }

  /** One more digit picks one more item. */
  lemma PickSnoc<T>(os: seq<seq<T>>, ie: seq<nat>, d: nat)
    requires |ie| < |os| && forall k :: 0 <= k < |ie| ==> ie[k] < |os[k]|
    requires d < |os[|ie|]|
    ensures Pick(os, ie + [d]) == Pick(os, ie) + [os[|ie|][d]]
  {
  }

  /** The digits of position `i` among the first `k + 1` components. */
  function DigitsAt<T>(os: seq<seq<T>>, k: nat, i: nat): (ie: seq<nat>)
    requires k < |os| && forall j :: 1 <= j <= k ==> |os[j]| > 0
    ensures |ie| == k + 1
    decreases k
  {
    if k == 0 then [i] else DigitsAt(os, k - 1, i / |os[k]|) + [i % |os[k]|]
  }

  /** They are the digits `Digits` gives for the first `k + 1` lengths. */
  lemma {:induction false} DigitsAtLengths<T>(os: seq<seq<T>>, k: nat, lens: seq<nat>, i: nat)
    requires k < |os| && forall j :: 1 <= j <= k ==> |os[j]| > 0
    requires lens == Lengths(os)[..k + 1]
    ensures forall j :: 1 <= j < |lens| ==> lens[j] > 0
    ensures DigitsAt(os, k, i) == Digits(lens, i)
    decreases k
  {
    if k > 0 {
      DigitsAtLengths(os, k - 1, lens[..k], i / |os[k]|);
    }
  }

  /** Tuple `i` of the product of the first `k + 1` components is made of
      the items its digits name. */
  lemma {:induction false} ProdAtIndex<T>(os: seq<seq<T>>, k: nat, i: nat)
    requires k < |os| && i < |ProdAt(os, k)|
    ensures forall j :: 0 <= j <= k ==> |os[j]| > 0
    ensures var ie := DigitsAt(os, k, i);
      (forall j :: 0 <= j <= k ==> ie[j] < |os[j]|) && ProdAt(os, k)[i] == Pick(os, ie)
    decreases k
  {
    ProdLength(os, k);
    var ls := Lengths(os)[..k + 1];
    LengthProductPositive(ls);
    assert forall j :: 0 <= j <= k ==> ls[j] == |os[j]|;
    if k == 0 {
      ExtendIndex([], os[0]);
    } else {
      var l := |os[k]|;
      assert i / l < |ProdAt(os, k - 1)| by {
        ProdLength(os, k - 1);
        assert ls[..k] == Lengths(os)[..k - 1 + 1];
        DivBelow(i, l, LengthProduct(ls[..k]));
      }
      ProdAtIndex(os, k - 1, i / l);
      ProdAtIndexStep(os, k, i, DigitsAt(os, k - 1, i / l));
    }
  }

  /** The step of ProdAtIndex: tuple `i` extends the earlier components'
      tuple `i / l` by item `i % l` of component `k`. */
  lemma ProdAtIndexStep<T>(os: seq<seq<T>>, k: nat, i: nat, ie: seq<nat>)
    requires 0 < k < |os| && |os[k]| > 0 && i / |os[k]| < |ProdAt(os, k - 1)|
    requires |ie| == k && forall j :: 0 <= j < k ==> ie[j] < |os[j]|
    requires ProdAt(os, k - 1)[i / |os[k]|] == Pick(os, ie)
    ensures i < |ProdAt(os, k)| && ProdAt(os, k)[i] == Pick(os, ie + [i % |os[k]|])
  {
    var l := |os[k]|;
    DivMod(i, l);
    ExtendAllIndex(ProdAt(os, k - 1), os[k], i / l, i % l);
    PickSnoc(os, ie, i % l);
  }

  /** Tuple `i` of the product is the one `index_each(i)` names. */
  lemma ProdIndex<T>(os: seq<seq<T>>, i: nat)
    requires |os| > 0 && i < |Prod(os)|
    ensures i < LengthProduct(Lengths(os))
    ensures forall j :: 0 <= j < |os| ==> |os[j]| > 0
    ensures var ie := Digits(Lengths(os), i);
      (forall j :: 0 <= j < |os| ==> ie[j] < |os[j]|) && Prod(os)[i] == Pick(os, ie)
  {
    ProdAtIndex(os, |os| - 1, i);
    assert Lengths(os)[..|os|] == Lengths(os);
    DigitsAtLengths(os, |os| - 1, Lengths(os), i);
    ProdSize(os);
  }

  /** The product has `LengthProduct` of the lengths tuples. */
  lemma ProdSize<T>(os: seq<seq<T>>)
    requires |os| > 0
    ensures |Prod(os)| == LengthProduct(Lengths(os))
  {
    ProdLength(os, |os| - 1);
    assert Lengths(os)[..|os|] == Lengths(os);
  }

  // ---------------------------------------------------------------- the positions as written

  /** The two positions of a double-ended product. */
  datatype Indices = Indices(forward: nat, backward: nat)

  /** `len` (and both bounds of `size_hint`) as written:
      `backward_index.checked_sub(forward_index).map_or(0, |d| d + 1)`. */
  function LenAsWritten(s: Indices): nat
  {
    if s.backward >= s.forward then s.backward - s.forward + 1 else 0
  }

  /** The length as written counts one tuple more than there are: a fresh
      product of lengths 2 and 3 reports 7, and an exhausted one 1. */
  lemma LenAsWrittenOverCounts()
    ensures LenAsWritten(Indices(0, LengthProduct([2, 3]))) == 7
    ensures forall i: nat :: LenAsWritten(Indices(i, i)) == 1
  {
    assert [2, 3][..1] == [2] && [2][..0] == [];
  }

  /** `nth(by)` on the positions as written, with the `usize`
      subtractions checked (`Err` where they would underflow): past the end
      `forward_index` becomes `length`, even when that is beyond
      `backward_index`. `Some(p)` is the position of the tuple yielded. */
  function NthAsWritten(l: nat, s: Indices, n: nat): Result<(Option<nat>, Indices), string>
  {
    if s.forward > l then Err("attempt to subtract with overflow")
    else if l - s.forward <= n then Ok((None, s.(forward := l)))
    else if s.backward < s.forward then Err("attempt to subtract with overflow")
    else if s.backward - s.forward <= n then Ok((None, s.(forward := s.backward)))
    else Ok((Some(s.forward + n), s.(forward := s.forward + n + 1)))
  }

  /** `nth_back(by)` as written: past the front `backward_index` becomes
      0, even when that is below `forward_index`. */
  function NthBackAsWritten(s: Indices, n: nat): Result<(Option<nat>, Indices), string>
  {
    if s.backward <= n then Ok((None, s.(backward := 0)))
    else if s.backward < s.forward then Err("attempt to subtract with overflow")
    else if s.backward - s.forward <= n then Ok((None, s.(backward := s.forward)))
    else Ok((Some(s.backward - 1 - n), s.(backward := s.backward - n - 1)))
  }

  /** Four tuples: after `next`, `nth_back(10)` moves `backward_index` to
      0, below `forward_index`, and the following `nth(0)` subtracts 1
      from 0; mirrored, `nth(10)` after `next_back` moves `forward_index`
      past `backward_index`, and `nth_back(0)` subtracts 4 from 3. */
  lemma NthAsWrittenUnderflows()
    ensures NthBackAsWritten(Indices(1, 4), 10) == Ok((None, Indices(1, 0)))
    ensures NthAsWritten(4, Indices(1, 0), 0).Err?
    ensures NthAsWritten(4, Indices(0, 3), 10) == Ok((None, Indices(4, 3)))
    ensures NthBackAsWritten(Indices(4, 3), 0).Err?
  {
  }

  // ---------------------------------------------------------------- the iterator

  /** The double-ended product of two or more components. The component
      iterators and the current values of each direction are not kept: the
      tuple at a position is reached through its digits. */
  class DoubleEndedProduct<T> {
    const originals: seq<seq<T>>
    const lengthEach: seq<nat>
    const length: nat
    var forwardIndex: nat
    var backwardIndex: nat

    ghost predicate Valid()
      reads this
    {
      |originals| >= 2 && lengthEach == Lengths(originals) &&
      length == LengthProduct(lengthEach) == |Prod(originals)| <= USIZE_MAX &&
      forwardIndex <= backwardIndex <= length
    }

    /** The tuples still to come, from either end. */
    ghost function Items(): seq<seq<T>>
      reads this
      requires Valid()
    {
      Prod(originals)[forwardIndex..backwardIndex]
    }

    /** `cartesian_product_double_ended`: the lengths of the components and
        their product, the forward position at 0 and the backward one at
        the length. */
    constructor (iters: seq<seq<T>>)
      requires |iters| >= 2 && CheckedLength(Lengths(iters)).Some?
      ensures Valid() && originals == iters && forwardIndex == 0 && backwardIndex == length
      ensures Items() == Prod(iters)
    {
      var l := Lengths(iters);
      var lm := CheckedLength(l);
      originals := iters;
      lengthEach := l;
      length := lm.value;
      forwardIndex := 0;
      backwardIndex := lm.value;
      new;
      ProdSize(iters);
    }

    /** `index_each(i)`: the digits of position `i`, the last component's
        first. */
    method IndexEach(i: nat) returns (ie: seq<nat>)
      requires Valid() && i < length
      requires forall k :: 1 <= k < |lengthEach| ==> lengthEach[k] > 0
      ensures ie == Digits(lengthEach, i)
    {
      var n := |lengthEach|;
      ie := lengthEach;
      var j := i;
      var k := n - 1;
      assert lengthEach[..k + 1] == lengthEach;
      while k >= 1
        invariant 0 <= k < n && |ie| == n
        invariant Digits(lengthEach, i) == Digits(lengthEach[..k + 1], j) + ie[k + 1..]
      {
        var l := lengthEach[k];
        DigitsSplit(lengthEach, k, j);
        ghost var tail := ie[k + 1..];
        ie := ie[k := j % l];
        assert ie[k..] == [j % l] + tail;
        j := j / l;
        k := k - 1;
      }
      ghost var tail := ie[1..];
      ie := ie[0 := j];
      assert ie == [j] + tail;
    }

    /** The tuple at position `i`: item `index_each(i)[k]` of each
        component `k`. */
    method TupleAt(i: nat) returns (t: seq<T>)
      requires Valid() && i < length
      ensures t == Prod(originals)[i]
    {
      ProdIndex(originals, i);
      var ie := IndexEach(i);
      t := Pick(originals, ie);
    }

    /** `next`: nothing at the end or where the backward position is; else
        the tuple at the forward position, which moves on. */
    method Next() returns (r: Option<seq<T>>)
      requires Valid()
      modifies this
      ensures Valid() && backwardIndex == old(backwardIndex)
      ensures old(Items()) == [] ==> r == None && Items() == []
      ensures old(Items()) != [] ==> r == Some(old(Items())[0]) && Items() == old(Items())[1..]
    {
      if forwardIndex >= length || forwardIndex >= backwardIndex {
        return None;
      }
      var t := TupleAt(forwardIndex);
      forwardIndex := forwardIndex + 1;
      return Some(t);
    }

    /** `next_back`: nothing at the front or where the forward position
        is; else the tuple before the backward position, which moves back. */
    method NextBack() returns (r: Option<seq<T>>)
      requires Valid()
      modifies this
      ensures Valid() && forwardIndex == old(forwardIndex)
      ensures old(Items()) == [] ==> r == None && Items() == []
      ensures old(Items()) != [] ==> r == Some(old(Items())[|old(Items())| - 1]) && Items() == old(Items())[..|old(Items())| - 1]
    {
      if backwardIndex == 0 || backwardIndex <= forwardIndex {
        return None;
      }
      var t := TupleAt(backwardIndex - 1);
      ghost var p := Prod(originals);
      assert p[forwardIndex..backwardIndex - 1] == p[forwardIndex..backwardIndex][..backwardIndex - 1 - forwardIndex];
      backwardIndex := backwardIndex - 1;
      return Some(t);
    }

    /** `nth(by)`, with the forward position never moved past the backward
        one (see NthAsWritten): the tuple `by` places on, or nothing when
        fewer are left. */
    method Nth(n: nat) returns (r: Option<seq<T>>)
      requires Valid()
      modifies this
      ensures Valid() && backwardIndex == old(backwardIndex)
      ensures n >= |old(Items())| ==> r == None && Items() == []
      ensures n < |old(Items())| ==> r == Some(old(Items())[n]) && Items() == old(Items())[n + 1..]
    {
      if length - forwardIndex <= n {
        forwardIndex := backwardIndex;
        return None;
      }
      if backwardIndex - forwardIndex <= n {
        forwardIndex := backwardIndex;
        return None;
      }
      var t := TupleAt(forwardIndex + n);
      SliceFromFront(Prod(originals), forwardIndex, backwardIndex, n);
      forwardIndex := forwardIndex + n + 1;
      return Some(t);
    }

    /** `nth_back(by)`, with the backward position never moved before the
        forward one (see NthBackAsWritten). */
    method NthBack(n: nat) returns (r: Option<seq<T>>)
      requires Valid()
      modifies this
      ensures Valid() && forwardIndex == old(forwardIndex)
      ensures n >= |old(Items())| ==> r == None && Items() == []
      ensures n < |old(Items())| ==> r == Some(old(Items())[|old(Items())| - 1 - n]) && Items() == old(Items())[..|old(Items())| - 1 - n]
    {
      if backwardIndex <= n {
        backwardIndex := forwardIndex;
        return None;
      }
      if backwardIndex - forwardIndex <= n {
        backwardIndex := forwardIndex;
        return None;
      }
      var t := TupleAt(backwardIndex - 1 - n);
      SliceFromBack(Prod(originals), forwardIndex, backwardIndex, n);
      backwardIndex := backwardIndex - n - 1;
      return Some(t);
    }

    /** `len`, counting the tuples between the two positions (see
        LenAsWritten). */
    function Len(): (n: nat)
      reads this
      requires Valid()
      ensures n == |Items()|
    {
      backwardIndex - forwardIndex
    }

    /** `size_hint`: the length, exactly. */
    function Hint(): (h: SizeHint)
      reads this
      requires Valid()
      ensures h == Exact(|Items()|)
    {
      Exact(Len())
    }
  }

  /** The element `n` places into a window, and the window after it. */
  lemma SliceFromFront<X>(p: seq<X>, f: nat, b: nat, n: nat)
    requires f + n < b <= |p|
    ensures p[f..b][n] == p[f + n] && p[f..b][n + 1..] == p[f + n + 1..b]
  {
  }

  /** The element `n` places from the end of a window, and the window before it. */
  lemma SliceFromBack<X>(p: seq<X>, f: nat, b: nat, n: nat)
    requires f + n < b <= |p|
    ensures p[f..b][b - f - 1 - n] == p[b - 1 - n] && p[f..b][..b - f - 1 - n] == p[f..b - 1 - n]
  {
  }

  /** The `expect` of `cartesian_product_double_ended`: `None` when the
      length overflows `usize`. */
  method Make<T>(iters: seq<seq<T>>) returns (r: Option<DoubleEndedProduct<T>>)
    requires |iters| >= 2
    ensures r.None? <==> CheckedLength(Lengths(iters)).None?
    ensures r.Some? ==> fresh(r.value) && r.value.Valid() && r.value.Items() == Prod(iters)
  {
    if CheckedLength(Lengths(iters)).None? {
      return None;
    }
    var p := new DoubleEndedProduct(iters);
    return Some(p);
  }

  /** Draining from the back gives the product's tuples last first. */
  method CollectBack<T>(os: seq<seq<T>>) returns (out: seq<seq<T>>)
    requires |os| >= 2 && CheckedLength(Lengths(os)).Some?
    ensures |out| == |Prod(os)| && forall i :: 0 <= i < |out| ==> out[i] == Prod(os)[|out| - 1 - i]
  {
    var p := new DoubleEndedProduct(os);
    out := [];
    var done := false;
    while !done
      invariant p.Valid() && p.forwardIndex == 0 && p.originals == os
      invariant p.Items() == Prod(os)[..p.backwardIndex]
      invariant |out| + p.backwardIndex == |Prod(os)|
      invariant forall i :: 0 <= i < |out| ==> out[i] == Prod(os)[|Prod(os)| - 1 - i]
      invariant done ==> |out| == |Prod(os)|
      decreases p.backwardIndex, !done
    {
      var r := p.NextBack();
      if r.None? {
        done := true;
      } else {
        out := out + [r.value];
      }
    }
  }
}
