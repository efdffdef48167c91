// The token utilities of macros/src/for_each.rs (module `utils` and the
// free functions of module `input`): `try_map_collect`, the `Join` trait
// on lists of token streams, `split_ts`, `check_mut_flag` and
// `FnParse::parse`. `smart_for_each!` has its own copies of `split_ts`
// and `check_mut_flag` (macros/src/smart_for_each.rs), which do the same.
module ForEachUtils {
  import opened Wrappers
  import opened Tokens

  const COMMA := Punct(',')

  predicate CommaFree(ts: seq<Token>)
  {
    forall i :: 0 <= i < |ts| ==> ts[i] != COMMA
  }

  // ---------------------------------------------------------------- try_map_collect

  /** `try_map_collect`: every element mapped, or `None` as soon as one maps to `None`. */
  function TryMapCollect<T, U>(xs: seq<T>, f: T -> Option<U>): (r: Option<seq<U>>)
    ensures r.Some? <==> forall i :: 0 <= i < |xs| ==> f(xs[i]).Some?
    ensures r.Some? ==> |r.value| == |xs| && forall i :: 0 <= i < |xs| ==> r.value[i] == f(xs[i]).value
  {
    if |xs| == 0 then Some([])
    else
      var init := TryMapCollect(xs[..|xs| - 1], f);
      var last := f(xs[|xs| - 1]);
      assert forall i :: 0 <= i < |xs| - 1 ==> xs[..|xs| - 1][i] == xs[i];
      if init.None? then None
      else if last.None? then None
      else Some(init.value + [last.value])
  }

  /** The `map_while` loop with its `failure` flag. */
  method TryMapCollectLoop<T, U>(xs: seq<T>, f: T -> Option<U>) returns (r: Option<seq<U>>)
    ensures r == TryMapCollect(xs, f)
  {
    var v: seq<U> := [];
    var failure := false;
    var i := 0;
    while i < |xs| && !failure
      invariant 0 <= i <= |xs|
      invariant !failure ==> TryMapCollect(xs[..i], f) == Some(v)
      invariant failure ==> TryMapCollect(xs, f).None?
      decreases |xs| - i, !failure
    {
      assert xs[..i + 1][..i] == xs[..i];
      match f(xs[i]) {
        case Some(y) =>
          v := v + [y];
          i := i + 1;
        case None =>
          failure := true;
      }
    }
    if failure {
      return None;
    }
    assert xs[..i] == xs;
    return Some(v);
  }

  // ---------------------------------------------------------------- Join

  /** `comma_join`: the items with a comma between neighbours. */
  function CommaJoin(items: seq<seq<Token>>): seq<Token>
  {
    if |items| == 0 then []
    else if |items| == 1 then items[0]
    else CommaJoin(items[..|items| - 1]) + [COMMA] + items[|items| - 1]
  }

  /** Joining one more item: a comma then the item, unless it is the first. */
  lemma CommaJoinPrefix(items: seq<seq<Token>>, i: nat)
    requires i < |items|
    ensures CommaJoin(items[..i + 1]) == if i == 0 then items[0] else CommaJoin(items[..i]) + [COMMA] + items[i]
  {
    assert items[..i + 1][..i] == items[..i];
  }

  /** `nested_tuple`: `((a, b), c)`, every tuple of two elements. */
  function NestedTuple(items: seq<seq<Token>>): seq<Token>
  {
    if |items| == 0 then []
    else if |items| == 1 then items[0]
    else [Group(Paren, NestedTuple(items[..|items| - 1]) + [COMMA] + items[|items| - 1])]
  }

  /** The inside of `tuple`: every item followed by a comma. */
  function TupleBody(items: seq<seq<Token>>, prefix: seq<Token>): seq<Token>
  {
    if |items| == 0 then []
    else TupleBody(items[..|items| - 1], prefix) + prefix + items[|items| - 1] + [COMMA]
  }

  /** `tuple` (`prefix` empty) and `tuple_mut` (`prefix` is `mut`): `(a, b, )`. */
  function Tuple(items: seq<seq<Token>>, prefix: seq<Token>): seq<Token>
  {
    [Group(Paren, TupleBody(items, prefix))]
  }

  const MUT: seq<Token> := [Ident("mut")]

  method CommaJoinLoop(items: seq<seq<Token>>) returns (joined: seq<Token>)
    ensures joined == CommaJoin(items)
  {
    if |items| == 0 {
      return [];
    }
    joined := items[0];
    for i := 1 to |items|
      invariant joined == CommaJoin(items[..i])
    {
      assert items[..i + 1][..i] == items[..i];
      joined := joined + [COMMA] + items[i];
    }
    assert items[..|items|] == items;
  }

  method NestedTupleLoop(items: seq<seq<Token>>) returns (joined: seq<Token>)
    ensures joined == NestedTuple(items)
  {
    if |items| == 0 {
      return [];
    }
    joined := items[0];
    for i := 1 to |items|
      invariant joined == NestedTuple(items[..i])
    {
      assert items[..i + 1][..i] == items[..i];
      joined := [Group(Paren, joined + [COMMA] + items[i])];
    }
    assert items[..|items|] == items;
  }

  method TupleLoop(items: seq<seq<Token>>, prefix: seq<Token>) returns (r: seq<Token>)
    ensures r == Tuple(items, prefix)
  {
    var joined: seq<Token> := [];
    for i := 0 to |items|
      invariant joined == TupleBody(items[..i], prefix)
    {
      assert items[..i + 1][..i] == items[..i];
      joined := joined + prefix + items[i] + [COMMA];
    }
    assert items[..|items|] == items;
    return [Group(Paren, joined)];
  }

  // ---------------------------------------------------------------- split_ts

  /** The `for tt in ts` loop of `split_ts` from the segment `current` on. */
  function SplitFrom(current: seq<Token>, ts: seq<Token>): seq<seq<Token>>
    decreases |ts|
  {
    if |ts| == 0 then (if |current| > 0 then [current] else [])
    else if ts[0] == COMMA then [current] + SplitFrom([], ts[1..])
    else SplitFrom(current + [ts[0]], ts[1..])
  }

  /** `split_ts`: the segments between commas; a trailing empty segment is dropped. */
  function SplitTs(ts: seq<Token>): seq<seq<Token>>
  {
    SplitFrom([], ts)
  }

  method SplitTsLoop(ts: seq<Token>) returns (whole: seq<seq<Token>>)
    ensures whole == SplitTs(ts)
  {
    whole := [];
    var current: seq<Token> := [];
    for i := 0 to |ts|
      invariant whole + SplitFrom(current, ts[i..]) == SplitTs(ts)
    {
      assert ts[i..][0] == ts[i] && ts[i..][1..] == ts[i + 1..];
      if ts[i] == COMMA {
        whole := whole + [current];
        current := [];
      } else {
        current := current + [ts[i]];
      }
    }
    if |current| > 0 {
      whole := whole + [current];
    }
    assert ts[|ts|..] == [];
  }

  /** Every segment of `split_ts` is free of commas. */
  lemma {:induction false} SplitFromCommaFree(current: seq<Token>, ts: seq<Token>)
    requires CommaFree(current)
    ensures forall k :: 0 <= k < |SplitFrom(current, ts)| ==> CommaFree(SplitFrom(current, ts)[k])
    decreases |ts|
  {
    if |ts| > 0 {
      if ts[0] == COMMA {
        SplitFromCommaFree([], ts[1..]);
      } else {
        SplitFromCommaFree(current + [ts[0]], ts[1..]);
      }
    }
  }

  lemma {:induction false} SplitFromEmpty(current: seq<Token>, ts: seq<Token>)
    ensures SplitFrom(current, ts) == [] <==> current == [] && ts == []
    decreases |ts|
  {
    if |ts| > 0 && ts[0] != COMMA {
      SplitFromEmpty(current + [ts[0]], ts[1..]);
    }
  }

  /** Reading a comma-free run extends the current segment. */
  lemma {:induction false} SplitFromRun(current: seq<Token>, a: seq<Token>, b: seq<Token>)
    requires CommaFree(a)
    ensures SplitFrom(current, a + b) == SplitFrom(current + a, b)
    decreases |a|
  {
    if |a| > 0 {
      assert (a + b)[0] == a[0] && (a + b)[1..] == a[1..] + b;
      SplitFromRun(current + [a[0]], a[1..], b);
      assert current + [a[0]] + a[1..] == current + a;
    } else {
      assert a + b == b && current + a == current;
    }
  }

  /** `comma_join` taken apart from the front. */
  lemma {:induction false} CommaJoinFront(items: seq<seq<Token>>)
    requires |items| >= 2
    ensures CommaJoin(items) == items[0] + [COMMA] + CommaJoin(items[1..])
    decreases |items|
  {
    var n := |items|;
    if n > 2 {
      CommaJoinFront(items[..n - 1]);
      assert items[..n - 1][1..] == items[1..][..n - 2];
      assert items[1..][n - 2] == items[n - 1];
    } else {
      assert items[..1] == [items[0]] && items[1..] == [items[1]];
    }
  }

  /** `split_ts` undoes `comma_join` when no item holds a comma and the last is not empty. */
  lemma {:induction false} SplitCommaJoin(items: seq<seq<Token>>)
    requires |items| > 0 && |items[|items| - 1]| > 0
    requires forall k :: 0 <= k < |items| ==> CommaFree(items[k])
    ensures SplitTs(CommaJoin(items)) == items
    decreases |items|
  {
    if |items| == 1 {
      SplitFromRun([], items[0], []);
      assert items[0] + [] == items[0] && [] + items[0] == items[0];
    } else {
      CommaJoinFront(items);
      var rest := CommaJoin(items[1..]);
      SplitFromRun([], items[0], [COMMA] + rest);
      assert items[0] + [COMMA] + rest == items[0] + ([COMMA] + rest);
      assert ([COMMA] + rest)[1..] == rest;
      assert [] + items[0] == items[0];
      SplitCommaJoin(items[1..]);
      assert items == [items[0]] + items[1..];
    }
  }

  predicate EndsWithComma(ts: seq<Token>) { |ts| > 0 && ts[|ts| - 1] == COMMA }

  /** The comma `split_ts` drops at the end, if there is one. */
  function Trailer(ts: seq<Token>): seq<Token>
  {
    if EndsWithComma(ts) then [COMMA] else []
  }

  lemma TrailerTail(ts: seq<Token>)
    requires |ts| > 1
    ensures Trailer(ts) == Trailer(ts[1..])
  {
    assert ts[|ts| - 1] == ts[1..][|ts| - 2];
  }

  lemma {:induction false} CommaJoinSplitFrom(current: seq<Token>, ts: seq<Token>)
    ensures CommaJoin(SplitFrom(current, ts)) + Trailer(ts) == current + ts
    decreases |ts|
  {
    if |ts| == 0 {
      assert current + ts == current;
    } else if ts[0] == COMMA {
      SplitFromEmpty([], ts[1..]);
      if ts[1..] == [] {
        assert ts == [COMMA];
      } else {
        CommaJoinSplitFrom([], ts[1..]);
        JoinAfterComma(current, ts);
      }
    } else {
      CommaJoinSplitFrom(current + [ts[0]], ts[1..]);
      if |ts| > 1 {
        TrailerTail(ts);
      }
      assert current + [ts[0]] + ts[1..] == current + ts;
    }
  }

  lemma JoinAfterComma(current: seq<Token>, ts: seq<Token>)
    requires |ts| > 1 && ts[0] == COMMA && SplitFrom([], ts[1..]) != []
    requires CommaJoin(SplitFrom([], ts[1..])) + Trailer(ts[1..]) == [] + ts[1..]
    ensures CommaJoin(SplitFrom(current, ts)) + Trailer(ts) == current + ts
  {
    var tail := ts[1..];
    var s := SplitFrom([], tail);
    var items := [current] + s;
    assert SplitFrom(current, ts) == items;
    assert items[0] == current && items[1..] == s;
    CommaJoinFront(items);
    var js := CommaJoin(s);
    var tr := Trailer(tail);
    TrailerTail(ts);
    assert js + tr == tail;
    var cj := CommaJoin(items);
    assert cj == current + [COMMA] + js;
    Assoc4(current, [COMMA], js, tr);
    assert cj + tr == current + ([COMMA] + tail);
    assert ts == [COMMA] + tail;
  }

  lemma Assoc4<T>(a: seq<T>, b: seq<T>, c: seq<T>, d: seq<T>)
    ensures a + b + c + d == a + (b + (c + d))
  {
  }

  /** Joining the segments of `split_ts` with commas gives back the stream,
      less a trailing comma. */
  lemma CommaJoinSplit(ts: seq<Token>)
    ensures CommaJoin(SplitTs(ts)) + Trailer(ts) == ts
  {
    CommaJoinSplitFrom([], ts);
  }

  /** `tuple` lists its items, each followed by a comma, so `split_ts` of its
      inside gives them back. */
  lemma {:induction false} TupleBodySplit(items: seq<seq<Token>>)
    requires forall k :: 0 <= k < |items| ==> CommaFree(items[k])
    ensures SplitTs(TupleBody(items, [])) == items
    decreases |items|
  {
    if |items| > 0 {
      var n := |items|;
      var init := TupleBody(items[..n - 1], []);
      assert forall k :: 0 <= k < n - 1 ==> items[..n - 1][k] == items[k];
      TupleBodySplit(items[..n - 1]);
      TupleBodyShape(items[..n - 1]);
      assert TupleBody(items, []) == init + (items[n - 1] + [COMMA]);
      SplitAppendSegment(init, items[n - 1]);
      assert items[..n - 1] + [items[n - 1]] == items;
    }
  }

  /** A tuple body ends with a comma unless it is empty. */
  lemma TupleBodyShape(items: seq<seq<Token>>)
    ensures |items| > 0 ==> EndsWithComma(TupleBody(items, []))
    ensures |items| == 0 ==> TupleBody(items, []) == []
  {
  }

  /** Appending `seg ,` to a stream that is empty or ends with a comma adds one segment. */
  lemma {:induction false} SplitAppendSegment(ts: seq<Token>, seg: seq<Token>)
    requires ts == [] || EndsWithComma(ts)
    requires CommaFree(seg)
    ensures SplitTs(ts + (seg + [COMMA])) == SplitTs(ts) + [seg]
  {
    SplitAfterCommaFrom([], ts, seg);
  }

  lemma {:induction false} SplitAfterCommaFrom(current: seq<Token>, ts: seq<Token>, seg: seq<Token>)
    requires (ts == [] && current == []) || EndsWithComma(ts)
    requires CommaFree(seg)
    ensures SplitFrom(current, ts + (seg + [COMMA])) == SplitFrom(current, ts) + [seg]
    decreases |ts|
  {
    if |ts| == 0 {
      assert ts + (seg + [COMMA]) == seg + [COMMA];
      SplitFromRun([], seg, [COMMA]);
      assert [COMMA][1..] == [];
      assert [] + seg == seg;
    } else {
      assert (ts + (seg + [COMMA]))[0] == ts[0];
      assert (ts + (seg + [COMMA]))[1..] == ts[1..] + (seg + [COMMA]);
      if |ts| == 1 {
        assert ts == [COMMA];
        SplitAfterCommaFrom([], [], seg);
      } else if ts[0] == COMMA {
        SplitAfterCommaFrom([], ts[1..], seg);
      } else {
        SplitAfterCommaFrom(current + [ts[0]], ts[1..], seg);
      }
    }
  }

  /** Reads a `nested_tuple` of `n` items back, splitting each pair at its comma. */
  function Unnest(ts: seq<Token>, n: nat): seq<seq<Token>>
    requires n >= 1
    decreases n
  {
    if n == 1 then [ts]
    else if |ts| == 1 && ts[0].Group? && |SplitTs(ts[0].inner)| == 2 then
      var parts := SplitTs(ts[0].inner);
      Unnest(parts[0], n - 1) + [parts[1]]
    else []
  }

  lemma NestedTupleCommaFree(items: seq<seq<Token>>)
    requires forall k :: 0 <= k < |items| ==> CommaFree(items[k])
    ensures CommaFree(NestedTuple(items))
  {
  }

  /** `nested_tuple` keeps every item: reading the pairs back gives the list. */
  lemma {:induction false} UnnestNestedTuple(items: seq<seq<Token>>)
    requires |items| >= 1
    requires forall k :: 0 <= k < |items| ==> |items[k]| > 0 && CommaFree(items[k])
    ensures Unnest(NestedTuple(items), |items|) == items
    decreases |items|
  {
    var n := |items|;
    if n > 1 {
      var init := items[..n - 1];
      assert forall k :: 0 <= k < n - 1 ==> init[k] == items[k];
      var nt := NestedTuple(init);
      NestedTupleCommaFree(init);
      var pair := [nt, items[n - 1]];
      assert CommaJoin(pair) == nt + [COMMA] + items[n - 1] by {
        assert pair[..1] == [nt];
      }
      SplitCommaJoin(pair);
      UnnestNestedTuple(init);
      assert init + [items[n - 1]] == items;
    }
  }

  // ---------------------------------------------------------------- check_mut_flag

  /** `check_mut_flag`: whether the stream starts with `mut`, and the stream without it. */
  function CheckMutFlag(ts: seq<Token>): (r: (bool, seq<Token>))
    ensures r.0 <==> |ts| > 0 && ts[0] == Ident("mut")
    ensures r.0 ==> [Ident("mut")] + r.1 == ts
    ensures !r.0 ==> r.1 == ts
  {
    if |ts| == 0 then (false, [])
    else if ts[0].Ident? && ts[0].name == "mut" then (true, ts[1..])
    else (false, ts)
  }

  // ---------------------------------------------------------------- FnParse

  /** `vars = name(args)`, one option of `for_each!`. */
  datatype FnCall = FnCall(vars: seq<Token>, name: string, args: seq<Token>)

  /** `position` of the first `=`. */
  function FirstEqual(prefix: seq<Token>): (r: Option<nat>)
    ensures r.Some? ==> r.value < |prefix| && prefix[r.value] == Punct('=')
    ensures r.Some? ==> forall i :: 0 <= i < r.value ==> prefix[i] != Punct('=')
    ensures r.None? ==> forall i :: 0 <= i < |prefix| ==> prefix[i] != Punct('=')
  {
    if |prefix| == 0 then None
    else if prefix[0] == Punct('=') then Some(0)
    else match FirstEqual(prefix[1..])
      case None => None
      case Some(p) => Some(p + 1)
  }

  predicate AllIdents(ts: seq<Token>) { forall i :: 0 <= i < |ts| ==> ts[i].Ident? }

  function IdentNames(ts: seq<Token>): (r: seq<string>)
    requires AllIdents(ts)
    ensures |r| == |ts| && forall i :: 0 <= i < |ts| ==> r[i] == ts[i].name
  {
    if |ts| == 0 then [] else [ts[0].name] + IdentNames(ts[1..])
  }

  /** `FnParse::parse`: `vars` before the first `=`, the identifiers after it
      joined by spaces as `name`; `None` if anything else follows. */
  function FnParse(prefix: seq<Token>, args: seq<Token>): (r: Option<FnCall>)
    ensures var eq := FirstEqual(prefix);
      var start := if eq.None? then 0 else eq.value + 1;
      (r.Some? <==> AllIdents(prefix[start..])) &&
      (r.Some? ==>
        r.value.vars == (if eq.None? then [] else prefix[..eq.value]) &&
        r.value.name == Join(IdentNames(prefix[start..]), " ") &&
        r.value.args == args)
  {
    var (varLen, namePos) := match FirstEqual(prefix) case None => (0, 0) case Some(p) => (p, p + 1);
    var nameTs := prefix[namePos..];
    if AllIdents(nameTs) then Some(FnCall(prefix[..varLen], Join(IdentNames(nameTs), " "), args))
    else None
  }

  function Idents(names: seq<string>): (ts: seq<Token>)
    ensures |ts| == |names| && forall i :: 0 <= i < |names| ==> ts[i] == Ident(names[i])
  {
    if |names| == 0 then [] else [Ident(names[0])] + Idents(names[1..])
  }

  /** An option written `vars = n1 n2 (args)` is read back as written. */
  lemma FnParseRoundTrip(vars: seq<Token>, names: seq<string>, args: seq<Token>)
    requires |vars| > 0 && forall i :: 0 <= i < |vars| ==> vars[i] != Punct('=')
    ensures FnParse(vars + [Punct('=')] + Idents(names), args) == Some(FnCall(vars, Join(names, " "), args))
  {
    var ts := Idents(names);
    var prefix := vars + [Punct('=')] + ts;
    IdentNamesOfIdents(names);
    FirstEqualAfter(vars, ts);
    assert prefix[|vars| + 1..] == ts;
    assert prefix[..|vars|] == vars;
  }

  /** An option written `n1 n2 (args)`, with no variables, is read back as written. */
  lemma FnParseNamesRoundTrip(names: seq<string>, args: seq<Token>)
    ensures FnParse(Idents(names), args) == Some(FnCall([], Join(names, " "), args))
  {
    var ts := Idents(names);
    IdentNamesOfIdents(names);
    assert ts[0..] == ts;
  }

  lemma IdentNamesOfIdents(names: seq<string>)
    ensures AllIdents(Idents(names)) && IdentNames(Idents(names)) == names
  {
  }

  lemma FirstEqualAfter(vars: seq<Token>, rest: seq<Token>)
    requires forall i :: 0 <= i < |vars| ==> vars[i] != Punct('=')
    ensures FirstEqual(vars + [Punct('=')] + rest) == Some(|vars|)
  {
    var p := vars + [Punct('=')] + rest;
    assert p[|vars|] == Punct('=');
    assert forall i :: 0 <= i < |vars| ==> p[i] == vars[i];
  }
}
