// `OneOrZero` (src/iterator/misc.rs): an iterator that calls a closure on
// its first `next` or `next_back` and yields what it returned, and
// `TupleToArray` (src/iterator.rs) for homogeneous tuples.
module OneOrZero {
  import opened Wrappers
  import opened IterBase

  /** The pending closure is represented by the value it returns when it is
      called; `func` is `None` once it has been taken. */
  class OneOrZero<T> {
    var func: Option<Option<T>>
    /** How many times the closure has been called. */
    ghost var calls: nat

    ghost predicate Valid()
      reads this
    {
      calls + (if func.Some? then 1 else 0) == 1
    }

    /** The items still to come. */
    function Items(): seq<T>
      reads this
    {
      if func.Some? && func.value.Some? then [func.value.value] else []
    }

    /** `one_or_zero(f)`: the closure is stored, not called. */
    constructor (f: Option<T>)
      ensures Valid() && func == Some(f) && calls == 0
      ensures Items() == (if f.Some? then [f.value] else [])
    {
      func := Some(f);
      calls := 0;
    }

    /** `next`: takes the closure and calls it if it was still there. */
    method Next() returns (r: Option<T>)
      requires Valid()
      modifies this
      ensures Valid() && func == None
      ensures calls == old(if func.Some? then calls + 1 else calls)
      ensures old(Items()) == [] ==> r == None
      ensures old(Items()) != [] ==> r == Some(old(Items())[0])
      ensures Items() == []
    {
      var taken := func;
      func := None;
      if taken.Some? {
        calls := calls + 1;
        r := taken.value;
      } else {
        r := None;
      }
    }

    /** `next_back`: the same as `next`. */
    method NextBack() returns (r: Option<T>)
      requires Valid()
      modifies this
      ensures Valid() && func == None
      ensures calls == old(if func.Some? then calls + 1 else calls)
      ensures old(Items()) == [] ==> r == None
      ensures old(Items()) != [] ==> r == Some(old(Items())[|old(Items())| - 1])
      ensures Items() == []
    {
      var taken := func;
      func := None;
      if taken.Some? {
        calls := calls + 1;
        r := taken.value;
      } else {
        r := None;
      }
    }

    /** `size_hint`: at most one item while the closure is pending. */
    function Hint(): (h: SizeHint)
      reads this
      ensures h.lower == 0 && h.upper.Some?
      ensures h.upper.value == 1 <==> func.Some?
      ensures Bounds(h, |Items()|)
    {
      if func.Some? then SizeHint(0, Some(1)) else Exact(0)
    }
  }

  /** Draining `one_or_zero(f)` calls the closure exactly once and yields its
      value if it returned one. */
  method CollectOneOrZero<T>(f: Option<T>) returns (out: seq<T>, ghost calls: nat)
    ensures out == (if f.Some? then [f.value] else [])
    ensures calls == 1
  {
    var c := new OneOrZero(f);
    out := [];
    var done := false;
    while !done
      invariant c.Valid()
      invariant !done ==> out + c.Items() == (if f.Some? then [f.value] else [])
      invariant done ==> out == (if f.Some? then [f.value] else []) && c.func == None
      decreases (if c.func.Some? then 1 else 0), !done
    {
      ghost var before := c.Items();
      var r := c.Next();
      if r.None? {
        assert out + [] == out;
        done := true;
      } else {
        out := out + [r.value];
      }
    }
    calls := c.calls;
  }

  /** `to_array` on a pair. */
  function PairToArray<T>(t: (T, T)): (a: seq<T>)
    ensures |a| == 2
  {
    [t.0, t.1]
  }

  /** `to_array` on a triple. */
  function TripleToArray<T>(t: (T, T, T)): (a: seq<T>)
    ensures |a| == 3
  {
    [t.0, t.1, t.2]
  }

  /** The array lists the tuple's components in order, so the tuple can be
      read back from it. */
  lemma ToArrayInOrder<T>(p: (T, T), t: (T, T, T))
    ensures var a := PairToArray(p); (a[0], a[1]) == p
    ensures var a := TripleToArray(t); (a[0], a[1], a[2]) == t
  {
  }
}
