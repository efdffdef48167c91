// What the iterator adaptors of src/iterator share: a component iterator is
// the sequence of the items it has left, its `size_hint` is a lower bound
// and an optional upper bound, and `usize` arithmetic saturates or fails
// where the source uses `checked_mul`.
module IterBase {
  import opened Wrappers

  /** `usize::MAX` on a 64-bit target. */
  const USIZE_MAX: nat := 0xFFFF_FFFF_FFFF_FFFF

  /** `(usize, Option<usize>)` as returned by `size_hint`. */
  datatype SizeHint = SizeHint(lower: nat, upper: Option<nat>)

  /** The hint of an iterator that knows it has exactly `n` items left. */
  function Exact(n: nat): SizeHint
  {
    SizeHint(n, Some(n))
  }

  /** A hint is sound for an iterator with `n` items left. */
  predicate Bounds(h: SizeHint, n: nat)
  {
    h.lower <= n && (h.upper.Some? ==> n <= h.upper.value)
  }

  /** `a.checked_mul(b)` */
  function CheckedMul(a: nat, b: nat): (r: Option<nat>)
    ensures r.Some? <==> a * b <= USIZE_MAX
    ensures r.Some? ==> r.value == a * b
  {
    if a * b <= USIZE_MAX then Some(a * b) else None
  }

  /** `a.checked_mul(b).unwrap_or(usize::MAX)` */
  function SaturatingMul(a: nat, b: nat): (r: nat)
    ensures r <= USIZE_MAX && r <= a * b
    ensures a * b <= USIZE_MAX ==> r == a * b
  {
    if a * b <= USIZE_MAX then a * b else USIZE_MAX
  }

  /** The hint reported for `n` items when the count may not fit in `usize`. */
  function Counted(n: nat): (h: SizeHint)
    ensures Bounds(h, n)
    ensures n <= USIZE_MAX ==> h == Exact(n)
  {
    if n <= USIZE_MAX then Exact(n) else SizeHint(USIZE_MAX, None)
  }

  /** `Iterator::next` on a component: its first item, and what is left. */
  function SeqNext<T>(s: seq<T>): (r: (Option<T>, seq<T>))
    ensures |s| == 0 ==> r == (None, [])
    ensures |s| > 0 ==> r == (Some(s[0]), s[1..])
  {
    if |s| == 0 then (None, []) else (Some(s[0]), s[1..])
  }

  /** `DoubleEndedIterator::next_back` on a component. */
  function SeqNextBack<T>(s: seq<T>): (r: (Option<T>, seq<T>))
    ensures |s| == 0 ==> r == (None, [])
    ensures |s| > 0 ==> r == (Some(s[|s| - 1]), s[..|s| - 1])
  {
    if |s| == 0 then (None, []) else (Some(s[|s| - 1]), s[..|s| - 1])
  }

  /** `Iterator::nth`: skips `n` items and takes the next one; past the
      end the component is left empty. */
  function SeqNth<T>(s: seq<T>, n: nat): (r: (Option<T>, seq<T>))
    ensures n < |s| ==> r == (Some(s[n]), s[n + 1..])
    ensures n >= |s| ==> r == (None, [])
  {
    if n < |s| then (Some(s[n]), s[n + 1..]) else (None, [])
  }

  /** `DoubleEndedIterator::nth_back`: skips `n` items from the back and
      takes the next one; past the front the component is left empty. */
  function SeqNthBack<T>(s: seq<T>, n: nat): (r: (Option<T>, seq<T>))
    ensures n < |s| ==> r == (Some(s[|s| - 1 - n]), s[..|s| - 1 - n])
    ensures n >= |s| ==> r == (None, [])
  {
    if n < |s| then (Some(s[|s| - 1 - n]), s[..|s| - 1 - n]) else (None, [])
  }

  /** The items of a sequence in the opposite order. */
  function Reverse<T>(s: seq<T>): (r: seq<T>)
    ensures |r| == |s| && forall i :: 0 <= i < |s| ==> r[i] == s[|s| - 1 - i]
  {
    seq(|s|, i requires 0 <= i < |s| => s[|s| - 1 - i])
  }

  /** `next` on a component is its `nth(0)`. */
  lemma NextIsNth<T>(s: seq<T>)
    ensures SeqNext(s) == SeqNth(s, 0)
  {
  }

  /** `next_back` on a component is its `nth_back(0)`. */
  lemma NextBackIsNthBack<T>(s: seq<T>)
    ensures SeqNextBack(s) == SeqNthBack(s, 0)
  {
  }

  /** The smallest of some naturals. */
  function MinOf(ns: seq<nat>): (m: nat)
    requires |ns| > 0
    ensures m in ns && forall i :: 0 <= i < |ns| ==> m <= ns[i]
  {
    if |ns| == 1 then ns[0]
    else
      var r := MinOf(ns[1..]);
      assert forall i :: 1 <= i < |ns| ==> ns[i] == ns[1..][i - 1];
      if ns[0] <= r then ns[0] else r
  }

  /** The lengths of some components. */
  function Lengths<T>(ss: seq<seq<T>>): (ls: seq<nat>)
    ensures |ls| == |ss| && forall k :: 0 <= k < |ss| ==> ls[k] == |ss[k]|
  {
    seq(|ss|, k requires 0 <= k < |ss| => |ss[k]|)
  }
}
