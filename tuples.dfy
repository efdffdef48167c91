// Tuple and array helpers of src/tuples.rs: `zip_options`, `ZipIters`,
// `ChainIters`, `with_index` and `ZipArrays`. A tuple whose components have
// one type is a sequence here.
module Tuples {
  import opened Wrappers

  /** `zip_options`: `Some` of every value when every component is `Some`;
      the first `None` short-circuits. */
  function ZipOptions<T>(vs: seq<Option<T>>): (r: Option<seq<T>>)
    ensures r.Some? <==> forall i :: 0 <= i < |vs| ==> vs[i].Some?
    ensures r.Some? ==> |r.value| == |vs| && forall i :: 0 <= i < |vs| ==> r.value[i] == vs[i].value
  {
    if |vs| == 0 then Some([])
    else
      var v :- vs[0];
      var rest :- ZipOptions(vs[1..]);
      assert forall i :: 1 <= i < |vs| ==> vs[i] == vs[1..][i - 1];
      Some([v] + rest)
  }

  /** `zip_options` on `[Option<T>; N]`: a loop that returns at the first
      `None`, then unwraps every element. */
  method ZipOptionsArray<T>(vs: seq<Option<T>>) returns (r: Option<seq<T>>)
    ensures r == ZipOptions(vs)
  {
    for i := 0 to |vs|
      invariant forall j :: 0 <= j < i ==> vs[j].Some?
    {
      if vs[i].None? {
        assert !ZipOptions(vs).Some?;
        return None;
      }
    }
    r := Some(seq(|vs|, j requires 0 <= j < |vs| => vs[j].value));
    assert ZipOptions(vs).Some? && r.value == ZipOptions(vs).value;
  }

  /** `ZipIters::zip` on a pair: the pairs of items at the same position, as
      long as both have one. */
  function ZipPair<A, B>(a: seq<A>, b: seq<B>): (r: seq<(A, B)>)
    ensures |r| == if |a| <= |b| then |a| else |b|
  {
    if |a| == 0 || |b| == 0 then [] else [(a[0], b[0])] + ZipPair(a[1..], b[1..])
  }

  /** Pair `i` holds item `i` of each side. */
  lemma {:induction false} ZipPairIndex<A, B>(a: seq<A>, b: seq<B>, i: nat)
    requires i < |a| && i < |b|
    ensures i < |ZipPair(a, b)| && ZipPair(a, b)[i] == (a[i], b[i])
  {
    if i > 0 {
      ZipPairIndex(a[1..], b[1..], i - 1);
    }
  }

  /** `ChainIters::chain` on a pair: the first side's items, then the second's. */
  function ChainPair<T>(a: seq<T>, b: seq<T>): (r: seq<T>)
    ensures |r| == |a| + |b|
    ensures r[..|a|] == a && r[|a|..] == b
  {
    a + b
  }

  /** `with_index`: the closure given to `map` counts up from zero. */
  method WithIndex<T>(xs: seq<T>) returns (r: seq<(nat, T)>)
    ensures |r| == |xs| && forall i :: 0 <= i < |xs| ==> r[i] == (i, xs[i])
  {
    var index: nat := 0;
    r := [];
    while index < |xs|
      invariant index <= |xs| && |r| == index
      invariant forall i :: 0 <= i < index ==> r[i] == (i, xs[i])
    {
      r := r + [(index, xs[index])];
      index := index + 1;
    }
  }

  /** `try_into` from a `Vec` into `[_; n]`: fails unless the lengths agree. */
  function TryIntoArray<T>(v: seq<T>, n: nat): (r: Result<seq<T>, seq<T>>)
    ensures r.Ok? <==> |v| == n
  {
    if |v| == n then Ok(v) else Err(v)
  }

  /** `ZipArrays::zip` on two arrays of the same length: the pairs collected
      into a vector and converted back into an array, which cannot fail. */
  function ZipArrays<A, B>(a: seq<A>, b: seq<B>): (r: seq<(A, B)>)
    requires |a| == |b|
    ensures |r| == |a|
  {
    var v := ZipPair(a, b);
    var arr := TryIntoArray(v, |a|);
    arr.value
  }

  /** The positional pairs of two arrays give the arrays back. */
  lemma ZipArraysUnzip<A, B>(a: seq<A>, b: seq<B>)
    requires |a| == |b|
    ensures var r := ZipArrays(a, b);
      seq(|r|, i requires 0 <= i < |r| => r[i].0) == a &&
      seq(|r|, i requires 0 <= i < |r| => r[i].1) == b
  {
    var r := ZipArrays(a, b);
    forall i | 0 <= i < |r|
      ensures r[i] == (a[i], b[i])
    {
      ZipPairIndex(a, b, i);
    }
  }
}
