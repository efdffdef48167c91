// The serial `ExtendedMap` iterator of src/iterator/extended_map.rs and the
// map functions behind `map_ok`, `map_err`, `map_some` and `map_into`.
// `ExtendedMapFn::call_mut` takes `&mut self`, so a map function may update
// state it captured: it is modelled as a function from the state and an
// input to the new state and an output.
module ExtendedMap {
  import opened Wrappers
  import opened IterBase

  /** Mapping `xs` one by one from state `s`: the final state and the
      outputs, in order. */
  function MapAll<S, A, B>(call: (S, A) -> (S, B), s: S, xs: seq<A>): (r: (S, seq<B>))
    ensures |r.1| == |xs|
    decreases |xs|
  {
    if |xs| == 0 then (s, [])
    else
      var (s1, y) := call(s, xs[0]);
      var (s2, ys) := MapAll(call, s1, xs[1..]);
      (s2, [y] + ys)
  }

  /** The state in which the map function meets `xs[i]`. */
  function StateBefore<S, A, B>(call: (S, A) -> (S, B), s: S, xs: seq<A>, i: nat): S
    requires i <= |xs|
  {
    MapAll(call, s, xs[..i]).0
  }

  /** Output `i` is the map function applied to `xs[i]` in the state left
      by the items before it. */
  lemma {:induction false} MapAllAt<S, A, B>(call: (S, A) -> (S, B), s: S, xs: seq<A>, i: nat)
    requires i < |xs|
    ensures MapAll(call, s, xs).1[i] == call(StateBefore(call, s, xs, i), xs[i]).1
  {
    if i > 0 {
      var s1 := call(s, xs[0]).0;
      MapAllAt(call, s1, xs[1..], i - 1);
      assert xs[..i][0] == xs[0] && xs[..i][1..] == xs[1..][..i - 1];
    } else {
      assert xs[..0] == [];
    }
  }

  /** A map function that never changes its state (every map function
      built from a plain `Fn`, and `map_into`). */
  ghost predicate KeepsState<S(!new), A(!new), B>(call: (S, A) -> (S, B))
  {
    forall s, a :: call(s, a).0 == s
  }

  /** With such a function, every output is computed in the initial state
      and the state is left as it was. */
  lemma {:induction false} MapAllKeepsState<S(!new), A(!new), B>(call: (S, A) -> (S, B), s: S, xs: seq<A>)
    requires KeepsState(call)
    ensures MapAll(call, s, xs).0 == s
    ensures forall i :: 0 <= i < |xs| ==> MapAll(call, s, xs).1[i] == call(s, xs[i]).1
  {
    if |xs| > 0 {
      MapAllKeepsState(call, s, xs[1..]);
      forall i | 0 <= i < |xs|
        ensures MapAll(call, s, xs).1[i] == call(s, xs[i]).1
      {
        if i > 0 {
          assert xs[1..][i - 1] == xs[i];
        }
      }
    }
  }

  /** `Iterator::fold` on plain items, left to right. */
  function FoldLeft<C, B>(g: (C, B) -> C, init: C, ys: seq<B>): C
    decreases |ys|
  {
    if |ys| == 0 then init else FoldLeft(g, g(init, ys[0]), ys[1..])
  }

  /** Folding a sequence of items is folding its first part and then the
      rest from there. */
  lemma {:induction false} FoldLeftAppend<C, B>(g: (C, B) -> C, init: C, ys: seq<B>, zs: seq<B>)
    ensures FoldLeft(g, init, ys + zs) == FoldLeft(g, FoldLeft(g, init, ys), zs)
    decreases |ys|
  {
    if |ys| > 0 {
      assert (ys + zs)[0] == ys[0] && (ys + zs)[1..] == ys[1..] + zs;
      FoldLeftAppend(g, g(init, ys[0]), ys[1..], zs);
    } else {
      assert ys + zs == zs;
    }
  }

  class ExtendedMap<S(!new), A(!new), B> {
    /** The inner iterator's remaining items. */
    var iter: seq<A>
    /** What the map function has captured mutably. */
    var state: S
    const call: (S, A) -> (S, B)

    /** The items `next` would still produce. */
    function Items(): (ys: seq<B>)
      reads this
      ensures |ys| == |iter|
    {
      MapAll(call, state, iter).1
    }

    /** `Map { iter, map_fn }`, as built by `map_ok`, `map_err`, `map_some`
        and `map_into`. */
    constructor (iter: seq<A>, state: S, call: (S, A) -> (S, B))
      ensures this.iter == iter && this.state == state && this.call == call
    {
      this.iter := iter;
      this.state := state;
      this.call := call;
    }

    /** `next`: the inner iterator's next item, passed through the map
        function; nothing is called once the inner iterator is empty. */
    method Next() returns (r: Option<B>)
      modifies this
      ensures old(iter) == [] ==> r == None && iter == [] && state == old(state)
      ensures old(iter) != [] ==> (var (s, y) := call(old(state), old(iter)[0]);
        r == Some(y) && state == s && iter == old(iter)[1..])
      ensures old(Items()) == [] ==> r == None && Items() == []
      ensures old(Items()) != [] ==> r == Some(old(Items())[0]) && Items() == old(Items())[1..]
    {
      var (v, rest) := SeqNext(iter);
      iter := rest;
      if v.Some? {
        var (s, y) := call(state, v.value);
        state := s;
        r := Some(y);
      } else {
        r := None;
      }
    }

    /** `nth`: the inner iterator skips `n` items without the map function
        seeing them, and only the selected item is mapped. */
    method Nth(n: nat) returns (r: Option<B>)
      modifies this
      ensures n >= |old(iter)| ==> r == None && iter == [] && state == old(state)
      ensures n < |old(iter)| ==> (var (s, y) := call(old(state), old(iter)[n]);
        r == Some(y) && state == s && iter == old(iter)[n + 1..])
      ensures KeepsState(call) ==> (n < |old(Items())| ==> r == Some(old(Items())[n]) && Items() == old(Items())[n + 1..])
    {
      var (v, rest) := SeqNth(iter, n);
      ghost var before := iter;
      iter := rest;
      if v.Some? {
        var (s, y) := call(state, v.value);
        state := s;
        r := Some(y);
      } else {
        r := None;
      }
      if KeepsState(call) && n < |before| {
        MapAllKeepsState(call, old(state), before);
        MapAllKeepsState(call, state, iter);
      }
    }

    /** `next_back`: the inner iterator's last item, passed through the map
        function. */
    method NextBack() returns (r: Option<B>)
      modifies this
      ensures old(iter) == [] ==> r == None && iter == [] && state == old(state)
      ensures old(iter) != [] ==> (var (s, y) := call(old(state), old(iter)[|old(iter)| - 1]);
        r == Some(y) && state == s && iter == old(iter)[..|old(iter)| - 1])
      ensures KeepsState(call) ==> (old(Items()) != [] ==>
        r == Some(old(Items())[|old(Items())| - 1]) && Items() == old(Items())[..|old(Items())| - 1])
    {
      var (v, front) := SeqNextBack(iter);
      ghost var before := iter;
      iter := front;
      if v.Some? {
        var (s, y) := call(state, v.value);
        state := s;
        r := Some(y);
      } else {
        r := None;
      }
      if KeepsState(call) && before != [] {
        MapAllKeepsState(call, old(state), before);
        MapAllKeepsState(call, state, iter);
      }
    }

    /** `nth_back`: the inner iterator skips `n` items from the back and
        only the selected one is mapped. */
    method NthBack(n: nat) returns (r: Option<B>)
      modifies this
      ensures n >= |old(iter)| ==> r == None && iter == [] && state == old(state)
      ensures n < |old(iter)| ==> (var e := |old(iter)| - 1 - n; var (s, y) := call(old(state), old(iter)[e]);
        r == Some(y) && state == s && iter == old(iter)[..e])
      ensures KeepsState(call) ==> (n < |old(Items())| ==>
        r == Some(old(Items())[|old(Items())| - 1 - n]) && Items() == old(Items())[..|old(Items())| - 1 - n])
    {
      ghost var before := iter;
      if n < |iter| {
        var e := |iter| - 1 - n;
        var (s, y) := call(state, iter[e]);
        iter := iter[..e];
        state := s;
        r := Some(y);
      } else {
        iter := [];
        r := None;
      }
      if KeepsState(call) && n < |before| {
        MapAllKeepsState(call, old(state), before);
        MapAllKeepsState(call, state, iter);
      }
    }

    /** `size_hint`: exactly the inner iterator's. */
    function Hint(): (h: SizeHint)
      reads this
      ensures h == Exact(|Items()|)
    {
      Exact(|iter|)
    }

    /** `len`: the inner iterator's. */
    function Len(): (l: nat)
      reads this
      ensures l == |Items()|
    {
      |iter|
    }

    /** `fold`: the inner iterator is folded, each item passed through the
        map function first; the result is the fold of the mapped items. */
    method Fold<C>(init: C, g: (C, B) -> C) returns (acc: C)
      modifies this
      ensures acc == FoldLeft(g, init, old(Items()))
      ensures iter == [] && state == MapAll(call, old(state), old(iter)).0
    {
      acc := init;
      var i := 0;
      while i < |iter|
        invariant 0 <= i <= |iter| && iter == old(iter)
        invariant FoldLeft(g, acc, MapAll(call, state, iter[i..]).1) == FoldLeft(g, init, old(Items()))
        invariant MapAll(call, state, iter[i..]).0 == MapAll(call, old(state), old(iter)).0
      {
        assert iter[i..][0] == iter[i] && iter[i..][1..] == iter[i + 1..];
        var (s, y) := call(state, iter[i]);
        acc := g(acc, y);
        state := s;
        i := i + 1;
      }
      assert iter[i..] == [];
      iter := [];
    }
  }

  /** Draining the map with `next` yields exactly its items. */
  method CollectMapped<S(!new), A(!new), B>(iter: seq<A>, state: S, call: (S, A) -> (S, B)) returns (out: seq<B>)
    ensures out == MapAll(call, state, iter).1
  {
    var m := new ExtendedMap(iter, state, call);
    out := [];
    var done := false;
    while !done
      invariant !done ==> out + m.Items() == MapAll(call, state, iter).1
      invariant done ==> out == MapAll(call, state, iter).1
      decreases |m.iter|, !done
    {
      ghost var before := m.Items();
      var r := m.Next();
      if r.None? {
        assert out + [] == out;
        done := true;
      } else {
        assert out + [r.value] + m.Items() == out + before;
        out := out + [r.value];
      }
    }
  }

  // ---- the map functions of `map_ok`, `map_err`, `map_some`, `map_into`

  /** `MapOkFn`: an `Ok` value goes through `f`, an `Err` is passed on
      without calling `f`. */
  function MapOkCall<S, T, U, E>(f: (S, T) -> (S, U), s: S, x: Result<T, E>): (r: (S, Result<U, E>))
    ensures x.Ok? ==> r == (f(s, x.value).0, Ok(f(s, x.value).1))
    ensures x.Err? ==> r == (s, Err(x.error))
  {
    match x
    case Ok(t) => var (s1, u) := f(s, t); (s1, Ok(u))
    case Err(e) => (s, Err(e))
  }

  /** `MapErrFn`: an `Err` value goes through `f`, an `Ok` is passed on. */
  function MapErrCall<S, T, E, G>(f: (S, E) -> (S, G), s: S, x: Result<T, E>): (r: (S, Result<T, G>))
    ensures x.Err? ==> r == (f(s, x.error).0, Err(f(s, x.error).1))
    ensures x.Ok? ==> r == (s, Ok(x.value))
  {
    match x
    case Ok(t) => (s, Ok(t))
    case Err(e) => var (s1, g) := f(s, e); (s1, Err(g))
  }

  /** `MapSomeFn`: a `Some` value goes through `f`, `None` is passed on. */
  function MapSomeCall<S, T, U>(f: (S, T) -> (S, U), s: S, x: Option<T>): (r: (S, Option<U>))
    ensures x.Some? ==> r == (f(s, x.value).0, Some(f(s, x.value).1))
    ensures x.None? ==> r == (s, None)
  {
    match x
    case Some(t) => var (s1, u) := f(s, t); (s1, Some(u))
    case None => (s, None)
  }

  function MapOkFn<S, T, U, E>(f: (S, T) -> (S, U)): (S, Result<T, E>) -> (S, Result<U, E>)
  {
    (s, x) => MapOkCall(f, s, x)
  }

  function MapErrFn<S, T, E, G>(f: (S, E) -> (S, G)): (S, Result<T, E>) -> (S, Result<T, G>)
  {
    (s, x) => MapErrCall(f, s, x)
  }

  function MapSomeFn<S, T, U>(f: (S, T) -> (S, U)): (S, Option<T>) -> (S, Option<U>)
  {
    (s, x) => MapSomeCall(f, s, x)
  }

  /** `MapIntoFn`: the conversion `Into::into`, which has no state. */
  function MapIntoFn<S, T, U>(into: T -> U): (S, T) -> (S, U)
  {
    (s, x) => (s, into(x))
  }

  /** `MapExtension::map_ok`: the map over `iter` with `MapOkFn(f)`. */
  method MapOk<S(!new), T(!new), U, E(!new)>(iter: seq<Result<T, E>>, state: S, f: (S, T) -> (S, U))
    returns (m: ExtendedMap<S, Result<T, E>, Result<U, E>>)
    ensures fresh(m) && m.iter == iter && m.state == state && m.call == MapOkFn(f)
  {
    m := new ExtendedMap(iter, state, MapOkFn(f));
  }

  /** `MapExtension::map_err`: the map over `iter` with `MapErrFn(f)`. */
  method MapErr<S(!new), T(!new), E(!new), G>(iter: seq<Result<T, E>>, state: S, f: (S, E) -> (S, G))
    returns (m: ExtendedMap<S, Result<T, E>, Result<T, G>>)
    ensures fresh(m) && m.iter == iter && m.state == state && m.call == MapErrFn(f)
  {
    m := new ExtendedMap(iter, state, MapErrFn(f));
  }

  /** `MapExtension::map_some`: the map over `iter` with `MapSomeFn(f)`. */
  method MapSome<S(!new), T(!new), U>(iter: seq<Option<T>>, state: S, f: (S, T) -> (S, U))
    returns (m: ExtendedMap<S, Option<T>, Option<U>>)
    ensures fresh(m) && m.iter == iter && m.state == state && m.call == MapSomeFn(f)
  {
    m := new ExtendedMap(iter, state, MapSomeFn(f));
  }

  /** `MapExtension::map_into`: the map over `iter` with `MapIntoFn`. */
  method MapInto<S(!new), T(!new), U>(iter: seq<T>, state: S, into: T -> U)
    returns (m: ExtendedMap<S, T, U>)
    ensures fresh(m) && m.iter == iter && m.state == state && m.call == MapIntoFn(into)
  {
    m := new ExtendedMap(iter, state, MapIntoFn(into));
  }

  /** `map_into` keeps its state and converts item by item. */
  lemma MapIntoItems<S(!new), T(!new), U>(into: T -> U, s: S, xs: seq<T>)
    ensures KeepsState(MapIntoFn<S, T, U>(into))
    ensures MapAll(MapIntoFn(into), s, xs).0 == s
    ensures forall i :: 0 <= i < |xs| ==> MapAll(MapIntoFn(into), s, xs).1[i] == into(xs[i])
  {
    var call := MapIntoFn<S, T, U>(into);
    MapAllKeepsState(call, s, xs);
    var ys := MapAll(call, s, xs).1;
    forall i | 0 <= i < |xs|
      ensures ys[i] == into(xs[i])
    {
      assert ys[i] == call(s, xs[i]).1;
    }
  }

  /** `map_ok` over a whole iterator: every `Err` comes out unchanged at
      its place, and every `Ok` stays an `Ok`. */
  lemma MapOkKeepsErrors<S, T, U, E>(f: (S, T) -> (S, U), s: S, xs: seq<Result<T, E>>)
    ensures var ys := MapAll(MapOkFn(f), s, xs).1;
      forall i :: 0 <= i < |xs| ==> (ys[i].Err? <==> xs[i].Err?) && (xs[i].Err? ==> ys[i].error == xs[i].error)
  {
    var ys := MapAll(MapOkFn(f), s, xs).1;
    forall i | 0 <= i < |xs|
      ensures (ys[i].Err? <==> xs[i].Err?) && (xs[i].Err? ==> ys[i].error == xs[i].error)
    {
      MapAllAt(MapOkFn(f), s, xs, i);
    }
  }

  /** `map_err` over a whole iterator: every `Ok` comes out unchanged at its
      place, and every `Err` stays an `Err`. */
  lemma MapErrKeepsOks<S, T, E, G>(f: (S, E) -> (S, G), s: S, xs: seq<Result<T, E>>)
    ensures var ys := MapAll(MapErrFn(f), s, xs).1;
      forall i :: 0 <= i < |xs| ==> (ys[i].Ok? <==> xs[i].Ok?) && (xs[i].Ok? ==> ys[i].value == xs[i].value)
  {
    var ys := MapAll(MapErrFn(f), s, xs).1;
    forall i | 0 <= i < |xs|
      ensures (ys[i].Ok? <==> xs[i].Ok?) && (xs[i].Ok? ==> ys[i].value == xs[i].value)
    {
      MapAllAt(MapErrFn(f), s, xs, i);
    }
  }

  /** `map_some` over a whole iterator: the `None`s stay where they are. */
  lemma MapSomeKeepsNones<S, T, U>(f: (S, T) -> (S, U), s: S, xs: seq<Option<T>>)
    ensures var ys := MapAll(MapSomeFn(f), s, xs).1;
      forall i :: 0 <= i < |xs| ==> (ys[i].None? <==> xs[i].None?)
  {
    var ys := MapAll(MapSomeFn(f), s, xs).1;
    forall i | 0 <= i < |xs|
      ensures ys[i].None? <==> xs[i].None?
    {
      MapAllAt(MapSomeFn(f), s, xs, i);
    }
  }

  /** A map function without state, built from a plain function. */
  function Plain<S, T, U>(f: T -> U): (S, T) -> (S, U)
  {
    (s, x) => (s, f(x))
  }

  function Id<T>(x: T): T
  {
    x
  }

  function Compose<T, U, V>(f: T -> U, g: U -> V): T -> V
  {
    x => g(f(x))
  }

  /** `map_ok` with the identity leaves every item as it was. */
  lemma MapOkIdentity<S(!new), T(!new), E(!new)>(s: S, xs: seq<Result<T, E>>)
    ensures MapAll(MapOkFn(Plain<S, T, T>(Id)), s, xs) == (s, xs)
  {
    var call := MapOkFn<S, T, T, E>(Plain(Id));
    MapAllKeepsState(call, s, xs);
    var ys := MapAll(call, s, xs).1;
    forall i | 0 <= i < |xs|
      ensures ys[i] == xs[i]
    {
      assert ys[i] == call(s, xs[i]).1;
      if xs[i].Ok? {
        assert call(s, xs[i]).1 == Ok(Id(xs[i].value));
      }
    }
    assert ys == xs;
  }

  /** `map_ok(f)` followed by `map_ok(g)` is `map_ok` of their composition. */
  lemma MapOkCompose<S(!new), T(!new), U(!new), V, E(!new)>(f: T -> U, g: U -> V, s: S, xs: seq<Result<T, E>>)
    ensures MapAll(MapOkFn(Plain<S, U, V>(g)), s, MapAll(MapOkFn(Plain<S, T, U>(f)), s, xs).1).1
         == MapAll(MapOkFn(Plain<S, T, V>(Compose(f, g))), s, xs).1
  {
    var c1 := MapOkFn<S, T, U, E>(Plain(f));
    var c2 := MapOkFn<S, U, V, E>(Plain(g));
    var c3 := MapOkFn<S, T, V, E>(Plain(Compose(f, g)));
    var ys := MapAll(c1, s, xs).1;
    MapAllKeepsState(c1, s, xs);
    MapAllKeepsState(c2, s, ys);
    MapAllKeepsState(c3, s, xs);
  }

  /** `map_err` with the identity leaves every item as it was. */
  lemma MapErrIdentity<S(!new), T(!new), E(!new)>(s: S, xs: seq<Result<T, E>>)
    ensures MapAll(MapErrFn(Plain<S, E, E>(Id)), s, xs) == (s, xs)
  {
    var call := MapErrFn<S, T, E, E>(Plain(Id));
    MapAllKeepsState(call, s, xs);
    var ys := MapAll(call, s, xs).1;
    forall i | 0 <= i < |xs|
      ensures ys[i] == xs[i]
    {
      assert ys[i] == call(s, xs[i]).1;
      if xs[i].Err? {
        assert call(s, xs[i]).1 == Err(Id(xs[i].error));
      }
    }
    assert ys == xs;
  }

  /** `map_some` with the identity leaves every item as it was. */
  lemma MapSomeIdentity<S(!new), T(!new)>(s: S, xs: seq<Option<T>>)
    ensures MapAll(MapSomeFn(Plain<S, T, T>(Id)), s, xs) == (s, xs)
  {
    var call := MapSomeFn<S, T, T>(Plain(Id));
    MapAllKeepsState(call, s, xs);
    var ys := MapAll(call, s, xs).1;
    forall i | 0 <= i < |xs|
      ensures ys[i] == xs[i]
    {
      assert ys[i] == call(s, xs[i]).1;
      if xs[i].Some? {
        assert call(s, xs[i]).1 == Some(Id(xs[i].value));
      }
    }
    assert ys == xs;
  }
}
