// `min_max_by` and `min_max` (src/iterator/misc.rs, repeated in
// src/iterator.rs): the least and the greatest item of an iterator in one
// pass, by a comparison function.
module MinMaxBy {
  import opened Wrappers

  datatype Ordering = Less | Equal | Greater

  /** `std::cmp::min_by`: the first argument unless it compares greater. */
  function MinBy<T>(a: T, b: T, compare: (T, T) -> Ordering): T
  {
    if compare(a, b) != Greater then a else b
  }

  /** `std::cmp::max_by`: the second argument unless the first compares greater. */
  function MaxBy<T>(a: T, b: T, compare: (T, T) -> Ordering): T
  {
    if compare(a, b) != Greater then b else a
  }

  /** The fold of `min_max_by`, from `(first, first)` over the other items. */
  function MinMaxOf<T>(xs: seq<T>, compare: (T, T) -> Ordering): (T, T)
    requires |xs| > 0
  {
    if |xs| == 1 then (xs[0], xs[0])
    else
      var (lo, hi) := MinMaxOf(xs[..|xs| - 1], compare);
      var x := xs[|xs| - 1];
      (MinBy(lo, x, compare), MaxBy(hi, x, compare))
  }

  /** `min_max_by`: `None` for an empty iterator. */
  function MinMaxByOf<T>(xs: seq<T>, compare: (T, T) -> Ordering): (r: Option<(T, T)>)
    ensures r.None? <==> |xs| == 0
  {
    if |xs| == 0 then None else Some(MinMaxOf(xs, compare))
  }

  /** What `Ord::cmp` promises: the comparison is antisymmetric and `<=` is
      transitive. */
  ghost predicate TotalOrder<T(!new)>(compare: (T, T) -> Ordering)
  {
    (forall a, b {:trigger compare(a, b)} :: compare(a, b) == Less <==> compare(b, a) == Greater) &&
    (forall a, b, c {:trigger compare(a, b), compare(b, c)} ::
      compare(a, b) != Greater && compare(b, c) != Greater ==> compare(a, c) != Greater)
  }

  /** Under a total order the pair is a least and a greatest item; among
      equal items the least is the first one and the greatest the last one. */
  lemma MinMaxOfMeaning<T(!new)>(xs: seq<T>, compare: (T, T) -> Ordering)
    requires |xs| > 0 && TotalOrder(compare)
    ensures var (lo, hi) := MinMaxOf(xs, compare);
      (forall i :: 0 <= i < |xs| ==> compare(lo, xs[i]) != Greater && compare(xs[i], hi) != Greater) &&
      (exists m :: 0 <= m < |xs| && xs[m] == lo && forall i :: 0 <= i < m ==> compare(xs[i], lo) == Greater) &&
      (exists m :: 0 <= m < |xs| && xs[m] == hi && forall i :: m < i < |xs| ==> compare(xs[i], hi) == Less)
  {
    MinOfMeaning(xs, compare);
    MaxOfMeaning(xs, compare);
  }

  /** The first component: a least item, the first of the least ones. */
  lemma {:induction false} MinOfMeaning<T(!new)>(xs: seq<T>, compare: (T, T) -> Ordering)
    requires |xs| > 0 && TotalOrder(compare)
    ensures var lo := MinMaxOf(xs, compare).0;
      (forall i :: 0 <= i < |xs| ==> compare(lo, xs[i]) != Greater) &&
      (exists m :: 0 <= m < |xs| && xs[m] == lo && forall i :: 0 <= i < m ==> compare(xs[i], lo) == Greater)
  {
    var n := |xs|;
    var lo := MinMaxOf(xs, compare).0;
    if n == 1 {
      assert compare(xs[0], xs[0]) != Greater;
      assert xs[0] == lo;
    } else {
      var front := xs[..n - 1];
      var x := xs[n - 1];
      MinOfMeaning(front, compare);
      var lo' := MinMaxOf(front, compare).0;
      assert forall i :: 0 <= i < n - 1 ==> xs[i] == front[i];
      var ml :| 0 <= ml < n - 1 && front[ml] == lo' && forall i :: 0 <= i < ml ==> compare(front[i], lo') == Greater;
      if compare(lo', x) != Greater {
        assert lo == lo';
        assert xs[ml] == lo;
      } else {
        assert lo == x;
        forall i | 0 <= i < n - 1
          ensures compare(xs[i], x) == Greater
        {
          assert compare(lo', front[i]) != Greater;
          assert compare(xs[i], x) != Greater ==> compare(lo', x) != Greater;
        }
        assert xs[n - 1] == lo;
      }
    }
  }

  /** The second component: a greatest item, the last of the greatest ones. */
  lemma {:induction false} MaxOfMeaning<T(!new)>(xs: seq<T>, compare: (T, T) -> Ordering)
    requires |xs| > 0 && TotalOrder(compare)
    ensures var hi := MinMaxOf(xs, compare).1;
      (forall i :: 0 <= i < |xs| ==> compare(xs[i], hi) != Greater) &&
      (exists m :: 0 <= m < |xs| && xs[m] == hi && forall i :: m < i < |xs| ==> compare(xs[i], hi) == Less)
  {
    var n := |xs|;
    var hi := MinMaxOf(xs, compare).1;
    if n == 1 {
      assert compare(xs[0], xs[0]) != Greater;
      assert xs[0] == hi;
    } else {
      var front := xs[..n - 1];
      var x := xs[n - 1];
      MaxOfMeaning(front, compare);
      var hi' := MinMaxOf(front, compare).1;
      assert forall i :: 0 <= i < n - 1 ==> xs[i] == front[i];
      var mh :| 0 <= mh < n - 1 && front[mh] == hi' && forall i :: mh < i < n - 1 ==> compare(front[i], hi') == Less;
      if compare(hi', x) != Greater {
        assert hi == x;
        assert xs[n - 1] == hi;
      } else {
        assert hi == hi';
        assert compare(x, hi') == Less;
        assert xs[mh] == hi;
      }
    }
  }

  /** `Ord::cmp` on integers. */
  function IntCompare(a: int, b: int): Ordering
  {
    if a < b then Less else if a == b then Equal else Greater
  }

  /** `min_max`: `min_max_by(Ord::cmp)`. On integers it gives the least and
      the greatest value. */
  function MinMax(xs: seq<int>): (r: Option<(int, int)>)
    ensures r.None? <==> |xs| == 0
    ensures r.Some? ==> (r.value.0 in xs && r.value.1 in xs &&
      forall i :: 0 <= i < |xs| ==> r.value.0 <= xs[i] <= r.value.1)
  {
    var r := MinMaxByOf(xs, IntCompare);
    if r.Some? then
      MinMaxOfMeaning(xs, IntCompare);
      r
    else r
  }

  /** The fold as a loop, in the order the source folds. */
  method MinMaxByLoop<T>(xs: seq<T>, compare: (T, T) -> Ordering) returns (r: Option<(T, T)>)
    ensures r == MinMaxByOf(xs, compare)
  {
    if |xs| == 0 {
      return None;
    }
    var lo, hi := xs[0], xs[0];
    for i := 1 to |xs|
      invariant (lo, hi) == MinMaxOf(xs[..i], compare)
    {
      assert xs[..i + 1][..i] == xs[..i];
      lo, hi := MinBy(lo, xs[i], compare), MaxBy(hi, xs[i], compare);
    }
    assert xs[..|xs|] == xs;
    return Some((lo, hi));
  }
}
