// The order and boolean helpers of src/numerics.rs and
// src/numerics/basic_operations.rs: compound assignment for `&&`, `||`,
// `min` and `max`, and `minimum`/`maximum` over many values. `Ord` values
// are integers here.
module Numerics {
  import opened Wrappers

  /** `Ord::min`: the receiver unless the argument is smaller. */
  function Min(a: int, b: int): (r: int)
    ensures r <= a && r <= b && (r == a || r == b)
  {
    if b < a then b else a
  }

  /** `Ord::max`: the argument unless it is smaller than the receiver. */
  function Max(a: int, b: int): (r: int)
    ensures r >= a && r >= b && (r == a || r == b)
  {
    if b < a then a else b
  }

  /** A `bool` place that `and_assign`/`or_assign` update. */
  class BoolPlace {
    var value: bool

    constructor (value: bool)
      ensures this.value == value
    {
      this.value := value;
    }

    /** `and_assign`: `*self = *self && rhs`. */
    method AndAssign(rhs: bool)
      modifies this
      ensures value == (old(value) && rhs)
    {
      value := value && rhs;
    }

    /** `or_assign`: `*self = *self || rhs`. */
    method OrAssign(rhs: bool)
      modifies this
      ensures value == (old(value) || rhs)
    {
      value := value || rhs;
    }
  }

  /** An `Ord + Copy` place that `min_assign`/`max_assign` update. */
  class OrdPlace {
    var value: int

    constructor (value: int)
      ensures this.value == value
    {
      this.value := value;
    }

    /** `min_assign`: stores the smaller of the two values. */
    method MinAssign(rhs: int)
      modifies this
      ensures value <= old(value) && value <= rhs && (value == old(value) || value == rhs)
    {
      value := Min(value, rhs);
    }

    /** `max_assign`: stores the larger of the two values. */
    method MaxAssign(rhs: int)
      modifies this
      ensures value >= old(value) && value >= rhs && (value == old(value) || value == rhs)
    {
      value := Max(value, rhs);
    }
  }

  /** `MinMax::minimum` (basic_operations): `reduce(min)`, which panics on an
      empty input (`None` here). */
  function ReduceMinimum(xs: seq<int>): (r: Option<int>)
    ensures r.None? <==> |xs| == 0
    ensures r.Some? ==> r.value in xs && forall i :: 0 <= i < |xs| ==> r.value <= xs[i]
  {
    if |xs| == 0 then None
    else if |xs| == 1 then Some(xs[0])
    else
      var a := ReduceMinimum(xs[..|xs| - 1]);
      assert forall i :: 0 <= i < |xs| - 1 ==> xs[i] == xs[..|xs| - 1][i];
      Some(Min(a.value, xs[|xs| - 1]))
  }

  /** `MinMax::maximum` (basic_operations): `reduce(max)`, which panics on an
      empty input. */
  function ReduceMaximum(xs: seq<int>): (r: Option<int>)
    ensures r.None? <==> |xs| == 0
    ensures r.Some? ==> r.value in xs && forall i :: 0 <= i < |xs| ==> r.value >= xs[i]
  {
    if |xs| == 0 then None
    else if |xs| == 1 then Some(xs[0])
    else
      var a := ReduceMaximum(xs[..|xs| - 1]);
      assert forall i :: 0 <= i < |xs| - 1 ==> xs[i] == xs[..|xs| - 1][i];
      Some(Max(a.value, xs[|xs| - 1]))
  }

  /** `MinMaxFns::minimum` on a slice (and on `[T; N]`, and on `Vec`, which
      calls the slice version): a panic on an empty slice, the element for
      one, `min` of two, and otherwise the head against the tail's minimum. */
  function SliceMinimum(xs: seq<int>): (r: Option<int>)
    ensures r.None? <==> |xs| == 0
  {
    if |xs| == 0 then None
    else if |xs| == 1 then Some(xs[0])
    else if |xs| == 2 then Some(Min(xs[0], xs[1]))
    else Some(Min(xs[0], SliceMinimum(xs[1..]).value))
  }

  /** `MinMaxFns::maximum` on a slice, array or `Vec`. */
  function SliceMaximum(xs: seq<int>): (r: Option<int>)
    ensures r.None? <==> |xs| == 0
  {
    if |xs| == 0 then None
    else if |xs| == 1 then Some(xs[0])
    else if |xs| == 2 then Some(Max(xs[0], xs[1]))
    else Some(Max(xs[0], SliceMaximum(xs[1..]).value))
  }

  /** The slice recursion gives an element no greater (no smaller) than any
      element. */
  lemma {:induction false} SliceMinMaxBounds(xs: seq<int>)
    requires |xs| > 0
    ensures SliceMinimum(xs).value in xs && forall i :: 0 <= i < |xs| ==> SliceMinimum(xs).value <= xs[i]
    ensures SliceMaximum(xs).value in xs && forall i :: 0 <= i < |xs| ==> SliceMaximum(xs).value >= xs[i]
  {
    if |xs| > 2 {
      SliceMinMaxBounds(xs[1..]);
      assert forall i :: 1 <= i < |xs| ==> xs[i] == xs[1..][i - 1];
    }
  }

  /** The least element is unique, so the slice recursion and the reduction
      agree, also on the empty input where both panic. */
  lemma SliceIsReduce(xs: seq<int>)
    ensures SliceMinimum(xs) == ReduceMinimum(xs)
    ensures SliceMaximum(xs) == ReduceMaximum(xs)
  {
    if |xs| > 0 {
      SliceMinMaxBounds(xs);
      LeastUnique(xs, SliceMinimum(xs).value, ReduceMinimum(xs).value);
      GreatestUnique(xs, SliceMaximum(xs).value, ReduceMaximum(xs).value);
    }
  }

  lemma LeastUnique(xs: seq<int>, a: int, b: int)
    requires a in xs && forall i :: 0 <= i < |xs| ==> a <= xs[i]
    requires b in xs && forall i :: 0 <= i < |xs| ==> b <= xs[i]
    ensures a == b
  {
    var i :| 0 <= i < |xs| && xs[i] == a;
    var j :| 0 <= j < |xs| && xs[j] == b;
    assert a <= xs[j] && b <= xs[i];
  }

  lemma GreatestUnique(xs: seq<int>, a: int, b: int)
    requires a in xs && forall i :: 0 <= i < |xs| ==> a >= xs[i]
    requires b in xs && forall i :: 0 <= i < |xs| ==> b >= xs[i]
    ensures a == b
  {
    var i :| 0 <= i < |xs| && xs[i] == a;
    var j :| 0 <= j < |xs| && xs[j] == b;
    assert a >= xs[j] && b >= xs[i];
  }
}
