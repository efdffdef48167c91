// `CycleN` (src/iterator/misc.rs, repeated in src/iterator.rs): an
// iterator that runs through a clone of the original `repeat` times.
module CycleN {
  import opened Wrappers
  import opened IterBase

  /** The original's items `n` times over. */
  function Repeat<T>(s: seq<T>, n: nat): (r: seq<T>)
    ensures |r| == |s| * n
  {
    if n == 0 then [] else s + Repeat(s, n - 1)
  }

  /** Item `j` of pass `k` is item `j` of the original. */
  lemma {:induction false} RepeatIndex<T>(s: seq<T>, n: nat, k: nat, j: nat)
    requires k < n && j < |s|
    ensures k * |s| + j < |Repeat(s, n)| && Repeat(s, n)[k * |s| + j] == s[j]
  {
    assert k * |s| + j < (k + 1) * |s| <= n * |s|;
    if k > 0 {
      RepeatIndex(s, n - 1, k - 1, j);
      assert k * |s| + j - |s| == (k - 1) * |s| + j;
    }
  }

  /** The items still to come: the rest of the current pass, then
      `count - 1` more passes; nothing once the count is zero. */
  function Remaining<T>(iter: seq<T>, original: seq<T>, count: nat): seq<T>
  {
    if count == 0 then [] else iter + Repeat(original, count - 1)
  }

  /** `CycleN::next`: the current pass is always advanced first; a zero
      count ends the iteration, and an exhausted pass starts a new one
      while the count is above one. */
  function Step<T>(iter: seq<T>, original: seq<T>, count: nat): (Option<T>, seq<T>, nat)
  {
    var (head, rest) := SeqNext(iter);
    if count == 0 then (None, rest, count)
    else if head.None? && count == 1 then (None, rest, count)
    else if head.None? then
      var (first, restarted) := SeqNext(original);
      (first, restarted, count - 1)
    else (head, rest, count)
  }

  lemma {:induction false} RepeatEmpty<T>(s: seq<T>, n: nat)
    requires |s| == 0
    ensures Repeat(s, n) == []
  {
  }

  /** `next` yields the first item still to come, and leaves the rest; once
      nothing is left it yields `None` and nothing stays left. */
  lemma StepRemaining<T>(iter: seq<T>, original: seq<T>, count: nat)
    ensures var rem := Remaining(iter, original, count);
      var (r, iter', count') := Step(iter, original, count);
      (rem == [] ==> r == None && Remaining(iter', original, count') == []) &&
      (rem != [] ==> r == Some(rem[0]) && Remaining(iter', original, count') == rem[1..])
  {
    var rem := Remaining(iter, original, count);
    if count > 0 && |iter| == 0 && count > 1 {
      if |original| == 0 {
        RepeatEmpty(original, count - 1);
        RepeatEmpty(original, count - 2);
      } else {
        assert rem == original + Repeat(original, count - 2);
        assert rem[1..] == original[1..] + Repeat(original, count - 2);
      }
    } else if count > 0 && |iter| > 0 {
      assert rem[1..] == iter[1..] + Repeat(original, count - 1);
    }
  }

  /** The hint as written: the original's length times the whole count,
      whatever has been consumed already. */
  function SizeHintAsWritten(originalLen: nat, wholeCount: nat): SizeHint
  {
    if originalLen == 0 || wholeCount == 0 then Exact(0)
    else SizeHint(SaturatingMul(originalLen, wholeCount), CheckedMul(originalLen, wholeCount))
  }

  /** The hint counting what is left: the rest of this pass and the passes
      still to come. */
  function SizeHintLeft(iterLen: nat, originalLen: nat, count: nat): SizeHint
  {
    if count == 0 then Exact(0) else Counted(iterLen + originalLen * (count - 1))
  }

  /** The hint bounds the number of items still to come, exactly while that
      number fits in `usize`; on a fresh iterator it is the one the source
      reports. */
  lemma SizeHintLeftSound<T>(iter: seq<T>, original: seq<T>, count: nat)
    ensures var n := |Remaining(iter, original, count)|;
      var h := SizeHintLeft(|iter|, |original|, count);
      Bounds(h, n) && (n <= USIZE_MAX ==> h == Exact(n))
    ensures SizeHintLeft(|original|, |original|, count) == SizeHintAsWritten(|original|, count)
  {
    if count > 0 {
      assert |original| + |original| * (count - 1) == |original| * count;
    }
  }

  /** After three calls on two passes over `[1, 2]` one item is left, but the
      hint as written still claims at least four. */
  lemma SizeHintAsWrittenTooLarge()
    ensures var (r1, it1, c1) := Step([1, 2], [1, 2], 2);
      var (r2, it2, c2) := Step(it1, [1, 2], c1);
      var (r3, it3, c3) := Step(it2, [1, 2], c2);
      r1 == Some(1) && r2 == Some(2) && r3 == Some(1) &&
      Remaining(it3, [1, 2], c3) == [2] &&
      SizeHintAsWritten(2, 2).lower == 4
  {
    var (r1, it1, c1) := Step([1, 2], [1, 2], 2);
    assert it1 == [2] && c1 == 2;
    var (r2, it2, c2) := Step(it1, [1, 2], c1);
    assert it2 == [] && c2 == 2;
    var (r3, it3, c3) := Step(it2, [1, 2], c2);
    assert it3 == [2] && c3 == 1;
  }

  class CycleN<T> {
    const original: seq<T>
    var iter: seq<T>
    const wholeCount: nat
    var currentCount: nat

    /** The items still to come. */
    function Items(): seq<T>
      reads this
    {
      Remaining(iter, original, currentCount)
    }

    /** `cycle_n(repeat)`: both counts start at `repeat`, with a fresh pass. */
    constructor (original: seq<T>, repeat: nat)
      ensures this.original == original && iter == original
      ensures wholeCount == repeat && currentCount == repeat
      ensures Items() == Repeat(original, repeat)
    {
      this.original := original;
      iter := original;
      wholeCount := repeat;
      currentCount := repeat;
      new;
      if repeat > 0 {
        assert Repeat(original, repeat) == original + Repeat(original, repeat - 1);
      }
    }

    method Next() returns (r: Option<T>)
      modifies this
      ensures (r, iter, currentCount) == Step(old(iter), original, old(currentCount))
      ensures old(Items()) == [] ==> r == None && Items() == []
      ensures old(Items()) != [] ==> r == Some(old(Items())[0]) && Items() == old(Items())[1..]
    {
      StepRemaining(iter, original, currentCount);
      var (head, rest) := SeqNext(iter);
      if currentCount == 0 {
        iter := rest;
        r := None;
      } else if head.None? && currentCount == 1 {
        iter := rest;
        r := None;
      } else if head.None? {
        currentCount := currentCount - 1;
        var (first, restarted) := SeqNext(original);
        iter := restarted;
        r := first;
      } else {
        iter := rest;
        r := head;
      }
    }

    /** `size_hint`, counting what is left (see SizeHintAsWritten for the
        source's formula). */
    function Hint(): (h: SizeHint)
      reads this
      ensures Bounds(h, |Items()|)
    {
      SizeHintLeftSound(iter, original, currentCount);
      SizeHintLeft(|iter|, |original|, currentCount)
    }
  }

  /** Draining `original.cycle_n(repeat)` gives the original `repeat` times. */
  method CollectCycleN<T>(original: seq<T>, repeat: nat) returns (out: seq<T>)
    ensures out == Repeat(original, repeat)
  {
    var c := new CycleN(original, repeat);
    out := [];
    var done := false;
    while !done
      invariant c.original == original
      invariant !done ==> out + c.Items() == Repeat(original, repeat)
      invariant done ==> out == Repeat(original, repeat)
      decreases |c.Items()|, !done
    {
      ghost var before := c.Items();
      var r := c.Next();
      if r.None? {
        assert out + [] == out;
        done := true;
      } else {
        assert out + [r.value] + c.Items() == out + before;
        out := out + [r.value];
      }
    }
  }
}
