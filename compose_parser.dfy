// The parser of `compose_struct!` (macros/src/compose_struct.rs, module
// `parser`). Every parser of the source is a loop that takes one token
// tree at a time from an iterator and updates a `phase` variable and the
// values collected so far. Here each loop body is a step function over a
// state record, each loop is a run function that folds the step over the
// remaining tokens, and each loop is also written as a method whose result
// is proved equal to its run function. A parser that the source hands the
// inner tokens of a group, or the tokens it collected, recurses; the
// recursion is measured by `TsSize`, the number of token trees.
module ComposeParser {
  import opened Wrappers
  import opened Tokens
  import opened ComposeData

  /** What one turn of a parsing loop does: go on with the next token,
      leave the loop (`break`), or stop with an error (`error()`). */
  datatype Step<S> = Next(s: S) | Stop(s: S) | Fail(msg: string)

  /** The phases of the three phase machines; each machine uses the
      names its own `ParsingPhase` declares. */
  datatype Phase =
    | Beginning
    | GotAttrHash | GotAttrExclamation | GotAttrBody
    | GotPub | GotVisibility
    | GotType | GotName | GotColon
    | GotGenericsBegin | GotGenerics | GotGenericsEnd
    | GotWhere | GotWhereItem | GotBody
    | GotEqual | GotArtifact | GotDefault | GotDefaultVal
    | GotFieldName | GotFieldValue
    | GotSubValType | GotSubValHeader | GotSubValBody
    | GotEnclosedType | GotEnclosedHeader | GotEnclosedBody
    | GotComma | GotSemicolon

  /** `GroupItem`: one entry of a brace or parenthesis body. */
  datatype GroupItem<I> = Item(item: I) | DataItem(data: Data) | InnerAttr(attr: Attr) | NoItem

  /** `FieldsWithAttr`: the items of a body, with the inner attributes found in it. */
  datatype Items<I> = Items(items: seq<I>, enclosed: seq<Data>, attrs: seq<Attr>)

  /** `tt.to_string() == s` */
  predicate Is(t: Token, s: string) { TokenString(t) == s }

  function Last(attrs: seq<Attr>): Attr
    requires |attrs| > 0
  {
    attrs[|attrs| - 1]
  }

  const OVERFLOW := "attempt to subtract with overflow"
  const UNEXPECTED_TOKEN := "unexpected token"
  const UNEXPECTED_BRACKET := "unexpected bracket"
  const BAD_END := "unexpected end of input"

  // ---------------------------------------------------------------- Vec<Ident>

  /** The identifiers of `ts`, separated by single commas, one trailing comma allowed. */
  predicate CommaSeparated(ts: seq<Token>, names: seq<string>)
    decreases |ts|
  {
    if |ts| == 0 then |names| == 0
    else
      |names| > 0 && ts[0] == Ident(names[0]) &&
      (|ts| == 1 ==> |names| == 1) &&
      (|ts| > 1 ==> Is(ts[1], ",") && CommaSeparated(ts[2..], names[1..]))
  }

  /** `a, b, c` */
  function CommaList(names: seq<string>): (ts: seq<Token>)
  {
    if |names| == 0 then []
    else if |names| == 1 then [Ident(names[0])]
    else [Ident(names[0]), Punct(',')] + CommaList(names[1..])
  }

  /** The loop of `Vec<Ident>::parse_from`; `None` is its early `return None`. */
  function IdentsRun(afterName: bool, items: seq<string>, ts: seq<Token>): Option<seq<string>>
    decreases |ts|
  {
    if |ts| == 0 then Some(items)
    else if !afterName && ts[0].Ident? then IdentsRun(true, items + [ts[0].name], ts[1..])
    else if afterName && Is(ts[0], ",") then IdentsRun(false, items, ts[1..])
    else None
  }

  function ParseIdents(ts: seq<Token>): Option<seq<string>>
  {
    IdentsRun(false, [], ts)
  }

  method ParseIdentsLoop(ts: seq<Token>) returns (r: Option<seq<string>>)
    ensures r == ParseIdents(ts)
  {
    var items: seq<string> := [];
    var afterName := false;
    for i := 0 to |ts|
      invariant IdentsRun(afterName, items, ts[i..]) == ParseIdents(ts)
    {
      assert ts[i..][0] == ts[i] && ts[i..][1..] == ts[i + 1..];
      var t := ts[i];
      if !afterName && t.Ident? {
        items := items + [t.name];
        afterName := true;
      } else if afterName && Is(t, ",") {
        afterName := false;
      } else {
        return None;
      }
    }
    assert ts[|ts|..] == [];
    return Some(items);
  }

  lemma {:induction false} IdentsRunExtends(afterName: bool, items: seq<string>, ts: seq<Token>)
    ensures IdentsRun(afterName, items, ts).Some? ==>
      |IdentsRun(afterName, items, ts).value| >= |items| &&
      IdentsRun(afterName, items, ts).value[..|items|] == items
    decreases |ts|
  {
    if |ts| > 0 {
      if !afterName && ts[0].Ident? {
        IdentsRunExtends(true, items + [ts[0].name], ts[1..]);
      } else if afterName && Is(ts[0], ",") {
        IdentsRunExtends(false, items, ts[1..]);
      }
    }
  }

  lemma {:induction false} IdentsRunSpec(items: seq<string>, ts: seq<Token>, names: seq<string>)
    ensures IdentsRun(false, items, ts) == Some(items + names) <==> CommaSeparated(ts, names)
    decreases |ts|
  {
    if |ts| == 0 {
      assert items + names == items <==> |names| == 0 by {
        if items + names == items { assert |items + names| == |items|; }
      }
    } else if ts[0].Ident? {
      var n := ts[0].name;
      var items' := items + [n];
      if |ts| == 1 {
        assert IdentsRun(false, items, ts) == Some(items');
        assert items' == items + names <==> names == [n] by {
          if items' == items + names {
            assert |names| == 1;
            assert names[0] == (items + names)[|items|] == n;
          }
        }
      } else if Is(ts[1], ",") {
        assert ts[1..][0] == ts[1] && ts[1..][1..] == ts[2..];
        assert IdentsRun(false, items, ts) == IdentsRun(false, items', ts[2..]);
        if CommaSeparated(ts, names) {
          IdentsRunSpec(items', ts[2..], names[1..]);
          assert items' + names[1..] == items + names;
        }
        if IdentsRun(false, items, ts) == Some(items + names) {
          IdentsRunExtends(false, items', ts[2..]);
          var rest := (items + names)[|items'|..];
          assert items + names == items' + rest;
          assert |names| > 0 && names[0] == (items + names)[|items|] == n;
          assert names[1..] == rest;
          IdentsRunSpec(items', ts[2..], rest);
        }
      } else {
        assert ts[1..][0] == ts[1];
        assert IdentsRun(false, items, ts) == None;
      }
    }
  }

  /** `Vec<Ident>::parse_from` accepts exactly comma-separated identifiers. */
  lemma ParseIdentsSpec(ts: seq<Token>, names: seq<string>)
    ensures ParseIdents(ts) == Some(names) <==> CommaSeparated(ts, names)
  {
    IdentsRunSpec([], ts, names);
    assert [] + names == names;
  }

  lemma {:induction false} CommaListSeparated(names: seq<string>)
    ensures CommaSeparated(CommaList(names), names)
    decreases |names|
  {
    if |names| > 1 {
      var ts := CommaList(names);
      assert ts[2..] == CommaList(names[1..]);
      CommaListSeparated(names[1..]);
    }
  }

  /** Identifiers written with commas between them, with or without a
      trailing comma, parse back to themselves. */
  lemma ParseIdentsRoundTrip(names: seq<string>)
    ensures ParseIdents(CommaList(names)) == Some(names)
    ensures |names| > 0 ==> ParseIdents(CommaList(names) + [Punct(',')]) == Some(names)
  {
    CommaListSeparated(names);
    ParseIdentsSpec(CommaList(names), names);
    if |names| > 0 {
      TrailingComma(names);
      ParseIdentsSpec(CommaList(names) + [Punct(',')], names);
    }
  }

  lemma {:induction false} TrailingComma(names: seq<string>)
    requires |names| > 0
    ensures CommaSeparated(CommaList(names) + [Punct(',')], names)
    decreases |names|
  {
    var ts := CommaList(names) + [Punct(',')];
    if |names| == 1 {
      assert ts == [Ident(names[0]), Punct(',')];
      assert ts[2..] == [];
    } else {
      assert ts[2..] == CommaList(names[1..]) + [Punct(',')];
      TrailingComma(names[1..]);
    }
  }

  // ---------------------------------------------------------------- Attr

  datatype AttrPhase = AttrBeginning | AttrGotEqual | AttrGotGroup | AttrGotLiteral

  /** One turn of the `for tt in iter` loop of `Attr::parse_from`; `whole`
      is the attribute's whole token stream. */
  function AttrStep(phase: AttrPhase, kind: string, a: Attr, whole: seq<Token>, t: Token): (AttrPhase, Attr)
  {
    if phase.AttrBeginning? && kind == "derive" && a.Other? && t.Group? then
      (AttrGotGroup, match ParseIdents(t.inner) case Some(v) => Derive(v) case None => a)
    else if phase.AttrBeginning? && kind == "allow" && a.Other? && t.Group? then
      (AttrGotGroup, match ParseIdents(t.inner) case Some(v) => Allow(v) case None => a)
    else if phase.AttrBeginning? && kind == "cfg" && a.Other? && t.Group? then
      (AttrGotGroup, Cfg(t.inner))
    else if phase.AttrBeginning? && kind == "doc" && a.Other? && Is(t, "=") then
      (AttrGotEqual, a)
    else if phase.AttrGotEqual? && kind == "doc" && a.Other? && t.Lit? then
      (AttrGotLiteral, Doc(t.text))
    else if phase.AttrBeginning? && a.Other? then
      (phase, a)
    else
      (phase, Other(whole))
  }

  function AttrRun(phase: AttrPhase, kind: string, a: Attr, whole: seq<Token>, ts: seq<Token>): Attr
    decreases |ts|
  {
    if |ts| == 0 then a
    else
      var next := AttrStep(phase, kind, a, whole, ts[0]);
      AttrRun(next.0, kind, next.1, whole, ts[1..])
  }

  /** The attribute before any argument is read: the marker attributes by name, anything else as is. */
  function AttrHead(kind: string, whole: seq<Token>): Attr
  {
    if kind == "default" then Default else if kind == "pub_all" then PubAll else Other(whole)
  }

  /** `Attr::parse_from`: the body of `#[...]`. */
  function ParseAttr(ts: seq<Token>): (r: Result<Attr, string>)
    ensures r.Err? <==> |ts| == 0 || !ts[0].Ident?
  {
    if |ts| == 0 then Err("empty attribute")
    else if !ts[0].Ident? then Err(UNEXPECTED_TOKEN)
    else Ok(AttrRun(AttrBeginning, ts[0].name, AttrHead(ts[0].name, ts), ts, ts[1..]))
  }

  method ParseAttrLoop(ts: seq<Token>) returns (r: Result<Attr, string>)
    ensures r == ParseAttr(ts)
  {
    if |ts| == 0 {
      return Err("empty attribute");
    }
    if !ts[0].Ident? {
      return Err(UNEXPECTED_TOKEN);
    }
    var kind := ts[0].name;
    var a := AttrHead(kind, ts);
    var phase := AttrBeginning;
    for i := 1 to |ts|
      invariant AttrRun(phase, kind, a, ts, ts[i..]) == AttrRun(AttrBeginning, kind, AttrHead(kind, ts), ts, ts[1..])
    {
      assert ts[i..][0] == ts[i] && ts[i..][1..] == ts[i + 1..];
      var next := AttrStep(phase, kind, a, ts, ts[i]);
      phase, a := next.0, next.1;
    }
    assert ts[|ts|..] == [];
    return Ok(a);
  }

  /** The recognised forms: `derive(..)` and `allow(..)` over comma-separated
      identifiers, `cfg(..)`, `doc = "..."`, and the bare markers `default`
      and `pub_all`. */
  lemma ParseAttrForms(names: seq<string>, d: Delim, cond: seq<Token>, text: string)
    ensures ParseAttr([Ident("derive"), Group(d, CommaList(names))]) == Ok(Derive(names))
    ensures ParseAttr([Ident("allow"), Group(d, CommaList(names))]) == Ok(Allow(names))
    ensures ParseAttr([Ident("cfg"), Group(d, cond)]) == Ok(Cfg(cond))
    ensures ParseAttr([Ident("doc"), Punct('='), Lit(text)]) == Ok(Doc(text))
    ensures ParseAttr([Ident("default")]) == Ok(Default)
    ensures ParseAttr([Ident("pub_all")]) == Ok(PubAll)
  {
    ParseIdentsRoundTrip(names);
    var g := Group(d, CommaList(names));
    AttrRunOne(AttrBeginning, "derive", Other([Ident("derive"), g]), [Ident("derive"), g], g);
    assert [Ident("derive"), g][1..] == [g];
    AttrRunOne(AttrBeginning, "allow", Other([Ident("allow"), g]), [Ident("allow"), g], g);
    assert [Ident("allow"), g][1..] == [g];
    var c := Group(d, cond);
    AttrRunOne(AttrBeginning, "cfg", Other([Ident("cfg"), c]), [Ident("cfg"), c], c);
    assert [Ident("cfg"), c][1..] == [c];
    var doc := [Ident("doc"), Punct('='), Lit(text)];
    assert doc[1..] == [Punct('=')] + [Lit(text)];
    assert doc[1..][1..] == [Lit(text)];
    AttrRunOne(AttrGotEqual, "doc", Other(doc), doc, Lit(text));
    assert [Ident("default")][1..] == [];
    assert [Ident("pub_all")][1..] == [];
  }

  lemma AttrRunOne(phase: AttrPhase, kind: string, a: Attr, whole: seq<Token>, t: Token)
    ensures AttrRun(phase, kind, a, whole, [t]) == AttrStep(phase, kind, a, whole, t).1
  {
    assert [t][1..] == [];
  }

  /** A marker followed by anything, and an argument list that is not a
      comma-separated list of identifiers, leave the attribute uninterpreted. */
  lemma ParseAttrFallsBack(t: Token, d: Delim, inner: seq<Token>)
    ensures ParseAttr([Ident("default"), t]) == Ok(Other([Ident("default"), t]))
    ensures ParseAttr([Ident("pub_all"), t]) == Ok(Other([Ident("pub_all"), t]))
    ensures ParseIdents(inner).None? ==>
      ParseAttr([Ident("derive"), Group(d, inner)]) == Ok(Other([Ident("derive"), Group(d, inner)]))
  {
    AttrRunOne(AttrBeginning, "default", Default, [Ident("default"), t], t);
    assert [Ident("default"), t][1..] == [t];
    AttrRunOne(AttrBeginning, "pub_all", PubAll, [Ident("pub_all"), t], t);
    assert [Ident("pub_all"), t][1..] == [t];
    var g := Group(d, inner);
    AttrRunOne(AttrBeginning, "derive", Other([Ident("derive"), g]), [Ident("derive"), g], g);
    assert [Ident("derive"), g][1..] == [g];
  }

  lemma {:induction false} AttrRunOther(phase: AttrPhase, kind: string, whole: seq<Token>, ts: seq<Token>)
    requires kind !in {"derive", "allow", "cfg", "doc"}
    ensures AttrRun(phase, kind, Other(whole), whole, ts) == Other(whole)
    decreases |ts|
  {
    if |ts| > 0 {
      AttrRunOther(AttrStep(phase, kind, Other(whole), whole, ts[0]).0, kind, whole, ts[1..]);
    }
  }

  /** Any other attribute is kept as its whole token stream. */
  lemma ParseAttrOther(ts: seq<Token>)
    requires |ts| > 0 && ts[0].Ident?
    requires ts[0].name !in {"derive", "allow", "cfg", "doc", "default", "pub_all"}
    ensures ParseAttr(ts) == Ok(Other(ts))
  {
    AttrRunOther(AttrBeginning, ts[0].name, ts, ts[1..]);
  }

  // ---------------------------------------------------------------- Option<Data>

  datatype Kind =
    | StructUnitKind | StructUnnamedKind | StructNamedKind | EnumKind
    | TypeAliasKind | TraitAliasKind | DebugKind | UnknownKind

  /** The variables of the loop of `Option<Data>::parse_from`; after the
      loop they are the source's `ParsingResult`. `count` is the `u8`
      `generics_enclosure_count`. */
  datatype DataState = DataState(
    phase: Phase,
    attr: seq<Attr>,
    vis: seq<Token>,
    kind: Kind,
    name: Option<string>,
    generics: seq<Token>,
    count: nat,
    wh: seq<Token>,
    body: seq<Token>)

  const DataStart := DataState(Beginning, [], [], UnknownKind, None, [], 0, [], [])

  function KeywordKind(s: string): Kind
  {
    if s == "struct" then StructUnitKind
    else if s == "enum" then EnumKind
    else if s == "type" then TypeAliasKind
    else if s == "trait" then TraitAliasKind
    else UnknownKind
  }

  predicate IsAlias(k: Kind) { k.TypeAliasKind? || k.TraitAliasKind? }

  /** Every phase reached after the name has been read. */
  predicate AfterName(p: Phase)
  {
    p.GotName? || p.GotGenericsBegin? || p.GotGenerics? || p.GotGenericsEnd? ||
    p.GotWhere? || p.GotWhereItem? || p.GotBody? || p.GotEqual? ||
    p.GotArtifact? || p.GotSemicolon?
  }

  /** What makes the source's `name.unwrap()` safe. */
  predicate DataInv(st: DataState)
  {
    AfterName(st.phase) ==> st.name.Some?
  }

  /** One turn of the loop, for every token but the leading `debug` (see
      `DataRun`). `keepWhereBody` selects the corrected handling of a
      struct body after a `where` clause (see `WhereStructRejectedAsWritten`). */
  function DataStep(st: DataState, t: Token, keepWhereBody: bool): (r: Step<DataState>)
    ensures r.Next? || r.Stop? ==> TsSize(r.s.body) <= TsSize(st.body) + TokSize(t)
  {
    var s := TokenString(t);
    var p := st.phase;
    var k := st.kind;
    if (p.Beginning? || p.GotAttrBody?) && s == "#" && k.UnknownKind? then
      Next(st.(phase := GotAttrHash))
    else if p.GotAttrHash? && t.Group? && k.UnknownKind? then
      match ParseAttr(t.inner)
      case Err(m) => Fail(m)
      case Ok(a) => Next(st.(attr := st.attr + [a], phase := GotAttrBody))
    else if (p.Beginning? || p.GotAttrBody?) && s == "pub" && k.UnknownKind? then
      Next(st.(vis := PUB, phase := GotPub))
    else if p.GotPub? && t.Group? && k.UnknownKind? then
      if t.delim.Paren? then Next(st.(vis := st.vis + [t], phase := GotVisibility))
      else Fail(UNEXPECTED_BRACKET)
    else if (p.Beginning? || p.GotAttrBody? || p.GotPub? || p.GotVisibility?) && k.UnknownKind?
      && !KeywordKind(s).UnknownKind? then
      Next(st.(kind := KeywordKind(s), phase := GotType))
    else if p.GotType? && t.Ident? then
      Next(st.(name := Some(t.name), phase := GotName))
    else if p.GotName? && s == "<" then
      Next(st.(count := st.count + 1, phase := GotGenericsBegin))
    else if (p.GotGenericsBegin? || p.GotGenerics?) && s == "<" then
      Next(st.(generics := st.generics + [t], count := st.count + 1, phase := GotGenerics))
    else if (p.GotGenericsBegin? || p.GotGenerics?) && s == ">" then
      if st.count == 0 then Fail(OVERFLOW)
      else if st.count - 1 > 0 then
        Next(st.(count := st.count - 1, generics := st.generics + [t], phase := GotGenerics))
      else Next(st.(count := 0, phase := GotGenericsEnd))
    else if p.GotGenericsBegin? || p.GotGenerics? then
      Next(st.(generics := st.generics + [t], phase := GotGenerics))
    else if (p.GotName? || p.GotGenericsEnd?) && s == "where" && (k.StructUnitKind? || k.EnumKind?) then
      if st.count != 0 then Fail(UNEXPECTED_TOKEN) else Next(st.(phase := GotWhere))
    else if (p.GotName? || p.GotGenericsEnd?) && t.Group? && k.EnumKind? then
      if t.delim.Brace? then Stop(st.(body := t.inner, phase := GotBody))
      else Fail(UNEXPECTED_BRACKET)
    else if (p.GotName? || p.GotGenericsEnd?) && t.Group? && k.StructUnitKind? then
      if t.delim.Brace? then Stop(st.(kind := StructNamedKind, body := t.inner, phase := GotBody))
      else if t.delim.Paren? then Next(st.(kind := StructUnnamedKind, body := t.inner, phase := GotBody))
      else Fail(UNEXPECTED_BRACKET)
    else if (p.GotName? || p.GotGenericsEnd?) && s == ";" && k.StructUnitKind? then
      Stop(st.(phase := GotSemicolon))
    else if p.GotWhereItem? && t.Group? && k.EnumKind? then
      if st.count == 0 && t.delim.Brace? then Stop(st.(body := t.inner, phase := GotBody))
      else Next(st.(wh := st.wh + [t]))
    else if p.GotWhereItem? && t.Group? && k.StructUnitKind? then
      var body := if keepWhereBody then t.inner else st.body;
      if st.count == 0 && t.delim.Brace? then
        Stop(st.(kind := StructNamedKind, body := body, phase := GotBody))
      else if st.count == 0 && t.delim.Paren? then
        Next(st.(kind := StructUnnamedKind, body := body, phase := GotBody))
      else Next(st.(wh := st.wh + [t]))
    else if p.GotBody? && s == ";" && k.StructUnnamedKind? then
      Stop(st.(phase := GotSemicolon))
    else if (p.GotName? || p.GotGenericsEnd?) && s == "=" && IsAlias(k) then
      Next(st.(phase := GotEqual))
    else if (p.GotArtifact? || p.GotWhereItem?) && s == ";" && IsAlias(k) then
      if st.count == 0 then Stop(st.(phase := GotSemicolon))
      else Next(st.(wh := st.wh + [t]))
    else if p.GotArtifact? && s == "where" && k.TraitAliasKind? then
      Next(st.(phase := GotWhere))
    else if (p.GotEqual? || p.GotArtifact?) && IsAlias(k) then
      TsSizeAppend(st.body, [t]);
      Next(st.(body := st.body + [t], phase := GotArtifact))
    else if (p.GotWhere? || p.GotWhereItem?) && s == "<" then
      Next(st.(count := st.count + 1, wh := st.wh + [t]))
    else if (p.GotWhere? || p.GotWhereItem?) && s == ">" then
      if st.count == 0 then Fail(OVERFLOW)
      else Next(st.(count := st.count - 1, wh := st.wh + [t]))
    else if p.GotWhere? || p.GotWhereItem? then
      Next(st.(wh := st.wh + [t], phase := GotWhereItem))
    else
      Fail(UNEXPECTED_TOKEN)
  }

  /** No step returns to the starting phase. */
  lemma DataStepLeavesBeginning(st: DataState, t: Token, keepWhereBody: bool)
    ensures var r := DataStep(st, t, keepWhereBody); r.Next? || r.Stop? ==> !r.s.phase.Beginning?
  {
  }

  /** The step that settles the kind of item keeps the body as it was. */
  lemma DataStepKindKeepsBody(st: DataState, t: Token, keepWhereBody: bool)
    ensures var r := DataStep(st, t, keepWhereBody);
      (r.Next? || r.Stop?) && st.kind.UnknownKind? && !r.s.kind.UnknownKind? ==> r.s.body == st.body
  {
  }

  /** Every phase after the name has the name. */
  lemma DataStepKeepsInv(st: DataState, t: Token, keepWhereBody: bool)
    ensures var r := DataStep(st, t, keepWhereBody); (r.Next? || r.Stop?) && DataInv(st) ==> DataInv(r.s)
  {
  }

  /** The state after a leading `debug`; a `;` right after it is consumed too. */
  function DebugState(st: DataState): DataState
  {
    st.(phase := GotType, kind := DebugKind)
  }

  predicate IsDebugStart(st: DataState, t: Token)
  {
    st.phase.Beginning? && Is(t, "debug") && st.kind.UnknownKind?
  }

  /** The loop of `Option<Data>::parse_from`: the final state and the tokens left. */
  function DataRun(st: DataState, ts: seq<Token>, keepWhereBody: bool): (r: Result<(DataState, seq<Token>), string>)
    decreases |ts|
    ensures r.Ok? ==> Suffix(r.value.1, ts)
    ensures r.Ok? ==> (r.value.1 == ts && r.value.0 == st) || |r.value.1| < |ts|
    ensures r.Ok? && DataInv(st) ==> DataInv(r.value.0)
    ensures r.Ok? ==> TsSize(r.value.0.body) + TsSize(r.value.1) <= TsSize(st.body) + TsSize(ts)
    ensures (r.Ok? && st.kind.UnknownKind? && !r.value.0.kind.UnknownKind? ==>
      TsSize(r.value.0.body) + TsSize(r.value.1) < TsSize(st.body) + TsSize(ts))
    ensures r.Ok? && |ts| > 0 ==> !r.value.0.phase.Beginning?
  {
    if |ts| == 0 then Ok((st, ts))
    else if IsDebugStart(st, ts[0]) then
      if |ts| > 1 && Is(ts[1], ";") then
        assert ts[1..][1..] == ts[2..];
        SuffixSize(ts[2..], ts[1..]);
        Ok((DebugState(st), ts[2..]))
      else Ok((DebugState(st), ts[1..]))
    else
      DataStepLeavesBeginning(st, ts[0], keepWhereBody);
      DataStepKindKeepsBody(st, ts[0], keepWhereBody);
      DataStepKeepsInv(st, ts[0], keepWhereBody);
      match DataStep(st, ts[0], keepWhereBody)
      case Fail(m) => Err(m)
      case Stop(s) => Ok((s, ts[1..]))
      case Next(s) => DataRun(s, ts[1..], keepWhereBody)
  }

  method ParseDataLoop(ts: seq<Token>) returns (r: Result<(DataState, seq<Token>), string>)
    ensures r == DataRun(DataStart, ts, true)
  {
    var st := DataStart;
    var i := 0;
    while i < |ts|
      invariant 0 <= i <= |ts|
      invariant DataRun(st, ts[i..], true) == DataRun(DataStart, ts, true)
      decreases |ts| - i
    {
      assert ts[i..][0] == ts[i] && ts[i..][1..] == ts[i + 1..];
      if IsDebugStart(st, ts[i]) {
        if i + 1 < |ts| && Is(ts[i + 1], ";") {
          assert ts[i..][1] == ts[i + 1] && ts[i..][2..] == ts[i + 2..];
          return Ok((DebugState(st), ts[i + 2..]));
        }
        return Ok((DebugState(st), ts[i + 1..]));
      }
      match DataStep(st, ts[i], true) {
        case Fail(m) =>
          return Err(m);
        case Stop(s) =>
          return Ok((s, ts[i + 1..]));
        case Next(s) =>
          st := s;
          i := i + 1;
      }
    }
    assert ts[i..] == [];
    return Ok((st, []));
  }

  /** The end check after the loop: the kinds and phases a complete item ends in. */
  predicate Complete(st: DataState)
  {
    ((st.kind.StructNamedKind? || st.kind.EnumKind?) && st.phase.GotBody?) ||
    ((st.kind.StructUnnamedKind? || st.kind.StructUnitKind? || IsAlias(st.kind)) && st.phase.GotSemicolon?)
  }

  /** The type alias's name: `name` or `name<generics>`. */
  function AliasName(name: string, generics: seq<Token>): seq<Token>
  {
    [Ident(name)] + (if |generics| == 0 then [] else [Punct('<')] + generics + [Punct('>')])
  }

  /** `Option<Data>::parse_from`: one item from the front of `ts`, and what
      is left. Items nested inside fields and variants are always parsed
      with the corrected `where` handling. */
  function ParseOptionData(ts: seq<Token>, keepWhereBody: bool): (r: Result<(Option<Data>, seq<Token>), string>)
    decreases TsSize(ts), 0
    ensures r.Ok? ==> Suffix(r.value.1, ts)
    ensures r.Ok? && r.value.0.Some? ==> |r.value.1| < |ts|
  {
    var run :- DataRun(DataStart, ts, keepWhereBody);
    var st := run.0;
    if st.kind.DebugKind? && st.phase.GotType? then Ok((Some(DebugFlag), run.1))
    else if st.kind.UnknownKind? && st.phase.Beginning? then Ok((None, run.1))
    else if Complete(st) then
      var d :- Build(st);
      Ok((Some(d), run.1))
    else Err(BAD_END)
  }

  /** `Struct::parse_from`, `Enum::parse_from`, `TypeAlias::parse_from` and
      `TraitAlias::parse_from` on a complete `ParsingResult`. */
  function Build(pr: DataState): (r: Result<Data, string>)
    requires pr.name.Some?
    decreases TsSize(pr.body), 5
  {
    var name := pr.name.value;
    match pr.kind
    case StructUnitKind =>
      Ok(StructData(Struct(name, pr.generics, pr.attr, pr.vis, pr.wh, Unit)))
    case StructUnnamedKind =>
      var f :- UnnamedFieldsParse(pr.body);
      Ok(StructData(Struct(name, pr.generics, pr.attr + f.attrs, pr.vis, pr.wh, Unnamed(f.items, f.enclosed))))
    case StructNamedKind =>
      var f :- NamedFieldsParse(pr.body);
      Ok(StructData(Struct(name, pr.generics, pr.attr + f.attrs, pr.vis, pr.wh, Named(f.items, f.enclosed))))
    case EnumKind =>
      var v :- VariantItems(pr.body);
      if |v.items| == 0 then Err("zero variants")
      else Ok(EnumData(Enum(name, pr.generics, pr.attr + v.attrs, pr.vis, pr.wh, v.items, v.enclosed)))
    case TypeAliasKind =>
      Ok(TypeData(TypeAlias(AliasName(name, pr.generics), pr.body, pr.attr, pr.vis)))
    case TraitAliasKind =>
      Ok(TraitData(TraitAlias(name, pr.generics, pr.body, pr.attr, pr.vis, pr.wh)))
    // the source's `unreachable!()`: `Complete` leaves no other kind here
    case _ => Err("unreachable")
  }

  /** `Data::parse_from`: exactly one item. */
  function ParseData(ts: seq<Token>): (r: Result<Data, string>)
    decreases TsSize(ts), 1
  {
    var first :- ParseOptionData(ts, true);
    SuffixSize(first.1, ts);
    var second :- ParseOptionData(first.1, true);
    match (first.0, second.0)
    case (Some(d), None) => Ok(d)
    case (None, None) => Err("no data")
    case (Some(_), Some(_)) => Err("multiple data")
    // the source's `unreachable!()`: nothing follows an exhausted stream
    case (None, Some(_)) => Err("unreachable")
  }

  // ---------------------------------------------------------------- fields

  datatype FieldItemKind = PlainField | SubtypeField | EnclosedField | InnerAttrField

  /** The variables of the loops of `UnnamedField::parse_from` and
      `NamedField::parse_from` (the unnamed one has no `name`, the named
      one no `can_be_enclosed`). */
  datatype FieldState = FieldState(
    phase: Phase,
    pt: FieldItemKind,
    canBeEnclosed: bool,
    attr: seq<Attr>,
    vis: seq<Token>,
    name: Option<string>,
    ty: seq<Token>,
    count: nat,
    default: seq<Token>,
    whole: seq<Token>)

  const FieldStart := FieldState(Beginning, PlainField, false, [], [], None, [], 0, [], [])

  /** What makes `attr.pop().unwrap()` and, for named fields, `name.unwrap()` safe. */
  predicate FieldInv(st: FieldState, named: bool)
  {
    (st.phase.GotAttrBody? ==> |st.attr| > 0) &&
    ((named && (st.phase.GotName? || st.phase.GotColon? || st.phase.GotType? || st.phase.GotEqual? ||
                st.phase.GotDefaultVal? || st.phase.GotSubValType? || st.phase.GotSubValHeader? ||
                st.phase.GotSubValBody? || st.phase.GotComma?)) ==> st.name.Some?)
  }

  /** Accumulated token streams grow by at most the token read. */
  predicate FieldGrowth(st: FieldState, r: FieldState, t: Token)
  {
    TsSize(r.default) <= TsSize(st.default) + TokSize(t) &&
    TsSize(r.whole) <= TsSize(st.whole) + TokSize(t)
  }

  /** What every arm of the field parsers keeps: `default` grows by at most
      the token read, `whole` is left to the loop (or takes the token on a
      `break`), and the invariant holds on. */
  predicate ArmOk(st: FieldState, r: Step<FieldState>, t: Token, named: bool)
  {
    !r.Fail? ==>
      TsSize(r.s.default) <= TsSize(st.default) + TokSize(t) &&
      (r.s.whole == st.whole || (r.Stop? && r.s.whole == st.whole + [t])) &&
      (FieldInv(st, named) ==> FieldInv(r.s, named))
  }

  predicate Opening(p: Phase)
  {
    p.Beginning? || p.GotPub? || p.GotVisibility? || p.GotAttrBody?
  }

  predicate HeadPhase(p: Phase)
  {
    Opening(p) || p.GotAttrHash? || p.GotAttrExclamation? || p.GotComma?
  }

  predicate ValuePhase(p: Phase)
  {
    p.GotName? || p.GotColon? || p.GotType? || p.GotEqual? || p.GotDefaultVal? ||
    p.GotSubValType? || p.GotSubValHeader? || p.GotSubValBody?
  }

  /** The arms before the field's type (unnamed) or name (named): attributes,
      visibility, and the keyword or identifier that starts the field. */
  function HeadArm(st: FieldState, t: Token, named: bool): (r: Step<FieldState>)
    requires HeadPhase(st.phase)
    ensures ArmOk(st, r, t, named)
  {
    var s := TokenString(t);
    var p := st.phase;
    if (p.Beginning? || p.GotAttrBody? || p.GotComma?) && s == "#" then
      Next(st.(phase := GotAttrHash))
    else if p.GotAttrHash? && s == "!" then
      Next(st.(pt := InnerAttrField, phase := GotAttrExclamation))
    else if (p.GotAttrHash? || p.GotAttrExclamation?) && t.Group? then
      match ParseAttr(t.inner)
      case Err(m) => Fail(m)
      case Ok(a) =>
        var st' := st.(attr := st.attr + [a], phase := GotAttrBody);
        if st.pt.InnerAttrField? then Stop(st') else Next(st')
    else if (p.Beginning? || p.GotAttrBody?) && s == "pub" then
      Next(st.(vis := PUB, phase := GotPub))
    else if p.GotPub? && t.Group? then
      if t.delim.Paren? then Next(st.(vis := st.vis + [t], phase := GotVisibility))
      else Fail(UNEXPECTED_BRACKET)
    else if !named && Opening(p) && s in {"struct", "enum"} then
      assert [t][1..] == [];
      Next(st.(pt := SubtypeField, canBeEnclosed := true, default := [t], phase := GotSubValType))
    else if !named && Opening(p) && s in {"type", "trait"} then
      Next(st.(pt := EnclosedField, phase := GotEnclosedType))
    else if named && Opening(p) && s in {"struct", "enum", "type", "trait"} then
      Next(st.(pt := EnclosedField, phase := GotEnclosedType))
    else if named && Opening(p) && t.Ident? then
      Next(st.(name := Some(t.name), phase := GotName))
    else if !named && (Opening(p) || p.GotComma?) && t.Ident? then
      Next(st.(ty := [t], phase := GotType))
    else Fail(UNEXPECTED_TOKEN)
  }

  /** The arms on the type (`<`, `>`, `=` and `,` count the generics nesting). */
  function TypeArm(st: FieldState, t: Token, named: bool): (r: Step<FieldState>)
    requires st.phase.GotType?
    ensures ArmOk(st, r, t, named)
  {
    var s := TokenString(t);
    if s == "<" then Next(st.(count := st.count + 1, ty := st.ty + [t]))
    else if s == ">" then
      if st.count == 0 then Fail(OVERFLOW) else Next(st.(count := st.count - 1, ty := st.ty + [t]))
    else if s == "=" then
      if st.count != 0 then Next(st.(ty := st.ty + [t])) else Next(st.(phase := GotEqual))
    else if s == "," then
      if st.count != 0 then Next(st.(ty := st.ty + [t])) else Stop(st.(phase := GotComma))
    else Next(st.(ty := st.ty + [t]))
  }

  /** The arms after the field's name: its type, its default value, or the
      inline data type given as its value. */
  function ValueArm(st: FieldState, t: Token, named: bool): (r: Step<FieldState>)
    requires ValuePhase(st.phase)
    ensures ArmOk(st, r, t, named)
  {
    var s := TokenString(t);
    var p := st.phase;
    TsSizeAppend(st.default, [t]);
    if p.GotName? then
      if s == ":" then Next(st.(phase := GotColon))
      else if s == "=" then Next(st.(phase := GotEqual))
      else Fail(UNEXPECTED_TOKEN)
    else if p.GotType? then TypeArm(st, t, named)
    else if p.GotColon? then Next(st.(ty := st.ty + [t], phase := GotType))
    else if p.GotEqual? && s in {"struct", "enum"} then
      assert [t][1..] == [];
      Next(st.(pt := SubtypeField, default := [t], phase := GotSubValType))
    else if p.GotSubValHeader? && t.Group? then
      Next(st.(phase := if t.delim.Brace? then GotSubValBody else p, default := st.default + [t]))
    else if p.GotSubValType? || p.GotSubValHeader? then
      Next(st.(default := st.default + [t], phase := GotSubValHeader))
    else if (p.GotSubValBody? || p.GotDefaultVal?) && s == "," then
      Stop(st.(phase := GotComma))
    else if p.GotEqual? || p.GotDefaultVal? then
      Next(st.(default := st.default + [t], phase := GotDefaultVal))
    else if !named && p.GotSubValBody? && s == ";" then
      if !st.canBeEnclosed then Fail(UNEXPECTED_TOKEN)
      else Stop(st.(pt := EnclosedField, phase := GotSemicolon))
    else Fail(UNEXPECTED_TOKEN)
  }

  /** The arms of a field that is a data type written inside the list. */
  function EnclosedArm(st: FieldState, t: Token, named: bool): (r: Step<FieldState>)
    ensures ArmOk(st, r, t, named)
  {
    var s := TokenString(t);
    var p := st.phase;
    if named && p.GotEnclosedHeader? && t.Group? then
      if t.delim.Brace? then Stop(st.(phase := GotEnclosedBody, whole := st.whole + [t]))
      else Next(st)
    else if p.GotEnclosedHeader? && s == ";" then
      Stop(st.(phase := GotSemicolon, whole := st.whole + [t]))
    else if p.GotEnclosedType? || p.GotEnclosedHeader? then
      Next(st.(phase := GotEnclosedHeader))
    else Fail(UNEXPECTED_TOKEN)
  }

  /** One turn of the loop of `UnnamedField::parse_from` (`named` false) or
      `NamedField::parse_from` (`named` true). */
  function FieldStep(st: FieldState, t: Token, named: bool): (r: Step<FieldState>)
    ensures !r.Fail? ==> FieldGrowth(st, r.s, t)
    ensures !r.Fail? && FieldInv(st, named) ==> FieldInv(r.s, named)
  {
    var p := st.phase;
    var r :=
      if HeadPhase(p) then HeadArm(st, t, named)
      else if ValuePhase(p) then ValueArm(st, t, named)
      else EnclosedArm(st, t, named);
    TsSizeAppend(st.whole, [t]);
    match r
    case Next(n) => Next(n.(whole := n.whole + [t]))
    case _ => r
  }

  /** The loop of a field parser: the final state and the tokens left. */
  function FieldRun(st: FieldState, ts: seq<Token>, named: bool): (r: Result<(FieldState, seq<Token>), string>)
    decreases |ts|
    ensures r.Ok? ==> Suffix(r.value.1, ts)
    ensures r.Ok? ==> (r.value.1 == ts && r.value.0 == st) || |r.value.1| < |ts|
    ensures r.Ok? && FieldInv(st, named) ==> FieldInv(r.value.0, named)
    ensures r.Ok? ==> TsSize(r.value.0.default) + TsSize(r.value.1) <= TsSize(st.default) + TsSize(ts)
    ensures r.Ok? ==> TsSize(r.value.0.whole) + TsSize(r.value.1) <= TsSize(st.whole) + TsSize(ts)
  {
    if |ts| == 0 then Ok((st, ts))
    else
      match FieldStep(st, ts[0], named)
      case Fail(m) => Err(m)
      case Stop(s) => Ok((s, ts[1..]))
      case Next(s) => FieldRun(s, ts[1..], named)
  }

  method ParseFieldLoop(ts: seq<Token>, named: bool) returns (r: Result<(FieldState, seq<Token>), string>)
    ensures r == FieldRun(FieldStart, ts, named)
  {
    var st := FieldStart;
    for i := 0 to |ts|
      invariant FieldRun(st, ts[i..], named) == FieldRun(FieldStart, ts, named)
    {
      assert ts[i..][0] == ts[i] && ts[i..][1..] == ts[i + 1..];
      match FieldStep(st, ts[i], named) {
        case Fail(m) =>
          return Err(m);
        case Stop(s) =>
          return Ok((s, ts[i + 1..]));
        case Next(s) =>
          st := s;
      }
    }
    assert ts[|ts|..] == [];
    return Ok((st, []));
  }

  predicate FieldEnd(p: Phase)
  {
    p.GotComma? || p.GotType? || p.GotDefaultVal? || p.GotSubValBody?
  }

  function TypeValueOf(st: FieldState): FieldValue
  {
    TypeValue(st.ty, if |st.default| == 0 then None else Some(st.default))
  }

  function ExplicitType(st: FieldState): Option<seq<Token>>
  {
    if |st.ty| == 0 then None else Some(st.ty)
  }

  lemma FieldRunFacts(ts: seq<Token>, named: bool)
    requires FieldRun(FieldStart, ts, named).Ok?
    ensures var run := FieldRun(FieldStart, ts, named).value;
      FieldInv(run.0, named) &&
      TsSize(run.0.default) <= TsSize(ts) && TsSize(run.0.whole) <= TsSize(ts) &&
      (run.0.phase.Beginning? || TsSize(run.1) < TsSize(ts))
  {
    var run := FieldRun(FieldStart, ts, named).value;
    assert FieldInv(FieldStart, named);
    SuffixSize(run.1, ts);
  }

  /** `UnnamedField::parse_from` */
  function UnnamedFieldParse(ts: seq<Token>): (r: Result<(GroupItem<UnnamedField>, seq<Token>), string>)
    decreases TsSize(ts), 2
    ensures r.Ok? && !r.value.0.NoItem? ==> TsSize(r.value.1) < TsSize(ts)
  {
    match FieldRun(FieldStart, ts, false)
    case Err(m) => Err(m)
    case Ok(run) =>
      FieldRunFacts(ts, false);
      var st := run.0;
      if st.phase.Beginning? then Ok((NoItem, run.1))
      else if FieldEnd(st.phase) && st.pt.PlainField? then
        Ok((Item(UnnamedField(st.attr, st.vis, TypeValueOf(st))), run.1))
      else if FieldEnd(st.phase) && st.pt.SubtypeField? then
        match ParseData(st.default)
        case Err(m) => Err(m)
        case Ok(d) => Ok((Item(UnnamedField(st.attr, st.vis, DataValue(ExplicitType(st), d))), run.1))
      else if st.phase.GotSemicolon? && st.pt.EnclosedField? then
        match ParseData(st.whole)
        case Err(m) => Err(m)
        case Ok(d) => Ok((DataItem(d), run.1))
      else if st.phase.GotAttrBody? && st.pt.InnerAttrField? then
        Ok((InnerAttr(Last(st.attr)), run.1))
      else Err(BAD_END)
  }

  /** `NamedField::parse_from` */
  function NamedFieldParse(ts: seq<Token>): (r: Result<(GroupItem<NamedField>, seq<Token>), string>)
    decreases TsSize(ts), 2
    ensures r.Ok? && !r.value.0.NoItem? ==> TsSize(r.value.1) < TsSize(ts)
  {
    match FieldRun(FieldStart, ts, true)
    case Err(m) => Err(m)
    case Ok(run) =>
      FieldRunFacts(ts, true);
      var st := run.0;
      if st.phase.Beginning? then Ok((NoItem, run.1))
      else if FieldEnd(st.phase) && st.pt.PlainField? then
        Ok((Item(NamedField(st.attr, st.vis, st.name.value, TypeValueOf(st))), run.1))
      else if FieldEnd(st.phase) && st.pt.SubtypeField? then
        match ParseData(st.default)
        case Err(m) => Err(m)
        case Ok(d) => Ok((Item(NamedField(st.attr, st.vis, st.name.value, DataValue(ExplicitType(st), d))), run.1))
      else if (st.phase.GotSemicolon? || st.phase.GotEnclosedBody?) && st.pt.EnclosedField? then
        match ParseData(st.whole)
        case Err(m) => Err(m)
        case Ok(d) => Ok((DataItem(d), run.1))
      else if st.phase.GotAttrBody? && st.pt.InnerAttrField? then
        Ok((InnerAttr(Last(st.attr)), run.1))
      else Err(BAD_END)
  }

  /** The loop of `UnnamedFields::parse_from` */
  function UnnamedItems(ts: seq<Token>): (r: Result<Items<UnnamedField>, string>)
    decreases TsSize(ts), 3
  {
    var p :- UnnamedFieldParse(ts);
    match p.0
    case NoItem => Ok(Items([], [], []))
    case Item(f) => var rest :- UnnamedItems(p.1); Ok(rest.(items := [f] + rest.items))
    case DataItem(d) => var rest :- UnnamedItems(p.1); Ok(rest.(enclosed := [d] + rest.enclosed))
    case InnerAttr(a) => var rest :- UnnamedItems(p.1); Ok(rest.(attrs := [a] + rest.attrs))
  }

  /** `UnnamedFields::parse_from`: a parenthesised field list, which may not be empty. */
  function UnnamedFieldsParse(ts: seq<Token>): (r: Result<Items<UnnamedField>, string>)
    decreases TsSize(ts), 4
    ensures r.Ok? ==> |r.value.items| > 0
  {
    var f :- UnnamedItems(ts);
    if |f.items| == 0 then Err("zero fields") else Ok(f)
  }

  /** The loop of `NamedFields::parse_from` */
  function NamedItems(ts: seq<Token>): (r: Result<Items<NamedField>, string>)
    decreases TsSize(ts), 3
  {
    var p :- NamedFieldParse(ts);
    match p.0
    case NoItem => Ok(Items([], [], []))
    case Item(f) => var rest :- NamedItems(p.1); Ok(rest.(items := [f] + rest.items))
    case DataItem(d) => var rest :- NamedItems(p.1); Ok(rest.(enclosed := [d] + rest.enclosed))
    case InnerAttr(a) => var rest :- NamedItems(p.1); Ok(rest.(attrs := [a] + rest.attrs))
  }

  /** `NamedFields::parse_from`: a braced field list, which may not be empty. */
  function NamedFieldsParse(ts: seq<Token>): (r: Result<Items<NamedField>, string>)
    decreases TsSize(ts), 4
    ensures r.Ok? ==> |r.value.items| > 0
  {
    var f :- NamedItems(ts);
    if |f.items| == 0 then Err("zero fields") else Ok(f)
  }

  // ---------------------------------------------------------------- enum variants

  datatype VariantItemKind = PlainVariant | EnclosedVariant | InnerAttrVariant

  /** The variables of the loop of `EnumVariant::parse_from`. */
  datatype VariantState = VariantState(
    phase: Phase,
    pt: VariantItemKind,
    attr: seq<Attr>,
    name: Option<string>,
    fields: Fields,
    isDefault: bool,
    whole: seq<Token>)

  const VariantStart := VariantState(Beginning, PlainVariant, [], None, Unit, false, [])

  predicate VariantInv(st: VariantState)
  {
    (st.phase.GotAttrBody? ==> |st.attr| > 0) &&
    ((st.phase.GotFieldName? || st.phase.GotFieldValue? || st.phase.GotEqual? ||
      st.phase.GotDefault? || st.phase.GotComma?) ==> st.name.Some?)
  }

  /** One turn of the loop of `EnumVariant::parse_from`; a variant's field
      list is handed to the field-list parsers. */
  function VariantStep(st: VariantState, t: Token): (r: Step<VariantState>)
    decreases TokSize(t), 0
    ensures !r.Fail? && VariantInv(st) ==> VariantInv(r.s)
    ensures !r.Fail? ==> TsSize(r.s.whole) <= TsSize(st.whole) + TokSize(t)
  {
    var s := TokenString(t);
    var p := st.phase;
    var next := st.(whole := st.whole + [t]);
    TsSizeAppend(st.whole, [t]);
    if (p.Beginning? || p.GotAttrBody?) && s == "#" then
      Next(next.(phase := GotAttrHash))
    else if p.GotAttrHash? && s == "!" then
      Next(next.(pt := InnerAttrVariant, phase := GotAttrExclamation))
    else if (p.GotAttrHash? || p.GotAttrExclamation?) && t.Group? then
      match ParseAttr(t.inner)
      case Err(m) => Fail(m)
      case Ok(a) =>
        if st.pt.InnerAttrVariant? then Stop(st.(attr := st.attr + [a], phase := GotAttrBody))
        else Next(next.(attr := st.attr + [a], phase := GotAttrBody))
    else if (p.Beginning? || p.GotAttrBody?) && s in {"struct", "enum", "type", "trait"} then
      Next(next.(pt := EnclosedVariant, phase := GotEnclosedType))
    else if (p.Beginning? || p.GotAttrBody?) && t.Ident? then
      Next(next.(name := Some(t.name), phase := GotFieldName))
    else if p.GotFieldName? && t.Group? then
      if t.delim.Paren? then
        match UnnamedFieldsParse(t.inner)
        case Err(m) => Fail(m)
        case Ok(f) =>
          Next(next.(fields := Unnamed(f.items, f.enclosed), attr := st.attr + f.attrs, phase := GotFieldValue))
      else if t.delim.Brace? then
        match NamedFieldsParse(t.inner)
        case Err(m) => Fail(m)
        case Ok(f) =>
          Next(next.(fields := Named(f.items, f.enclosed), attr := st.attr + f.attrs, phase := GotFieldValue))
      else Fail(UNEXPECTED_BRACKET)
    else if (p.GotFieldName? || p.GotFieldValue?) && s == "=" then
      Next(next.(phase := GotEqual))
    else if p.GotEqual? && s == "default" then
      Next(next.(isDefault := true, phase := GotDefault))
    else if (p.GotFieldName? || p.GotDefault? || p.GotFieldValue?) && s == "," then
      Stop(st.(phase := GotComma))
    else if p.GotEnclosedHeader? && t.Group? then
      if t.delim.Brace? then Stop(next.(phase := GotEnclosedBody)) else Next(next)
    else if p.GotEnclosedHeader? && s == ";" then
      Stop(next.(phase := GotSemicolon))
    else if p.GotEnclosedType? || p.GotEnclosedHeader? then
      Next(next.(phase := GotEnclosedHeader))
    else Fail(UNEXPECTED_TOKEN)
  }

  /** The loop of `EnumVariant::parse_from`. */
  function VariantRun(st: VariantState, ts: seq<Token>): (r: Result<(VariantState, seq<Token>), string>)
    decreases TsSize(ts), 1
    ensures r.Ok? ==> Suffix(r.value.1, ts)
    ensures r.Ok? ==> (r.value.1 == ts && r.value.0 == st) || |r.value.1| < |ts|
    ensures r.Ok? && VariantInv(st) ==> VariantInv(r.value.0)
    ensures r.Ok? ==> TsSize(r.value.0.whole) + TsSize(r.value.1) <= TsSize(st.whole) + TsSize(ts)
  {
    if |ts| == 0 then Ok((st, ts))
    else
      match VariantStep(st, ts[0])
      case Fail(m) => Err(m)
      case Stop(s) => Ok((s, ts[1..]))
      case Next(s) => VariantRun(s, ts[1..])
  }

  method ParseVariantLoop(ts: seq<Token>) returns (r: Result<(VariantState, seq<Token>), string>)
    ensures r == VariantRun(VariantStart, ts)
  {
    var st := VariantStart;
    for i := 0 to |ts|
      invariant VariantRun(st, ts[i..]) == VariantRun(VariantStart, ts)
    {
      assert ts[i..][0] == ts[i] && ts[i..][1..] == ts[i + 1..];
      match VariantStep(st, ts[i]) {
        case Fail(m) =>
          return Err(m);
        case Stop(s) =>
          return Ok((s, ts[i + 1..]));
        case Next(s) =>
          st := s;
      }
    }
    assert ts[|ts|..] == [];
    return Ok((st, []));
  }

  /** `EnumVariant::parse_from` */
  function EnumVariantParse(ts: seq<Token>): (r: Result<(GroupItem<EnumVariant>, seq<Token>), string>)
    decreases TsSize(ts), 2
    ensures r.Ok? && !r.value.0.NoItem? ==> TsSize(r.value.1) < TsSize(ts)
  {
    match VariantRun(VariantStart, ts)
    case Err(m) => Err(m)
    case Ok(run) =>
      var st := run.0;
      var p := st.phase;
      assert VariantInv(VariantStart) && TsSize(VariantStart.whole) == 0;
      SuffixSize(run.1, ts);
      if p.Beginning? then Ok((NoItem, run.1))
      else if (p.GotFieldName? || p.GotDefault? || p.GotFieldValue? || p.GotComma?) && st.pt.PlainVariant? then
        Ok((Item(EnumVariant(st.attr, st.name.value, st.fields, st.isDefault)), run.1))
      else if (p.GotEnclosedBody? || p.GotSemicolon?) && st.pt.EnclosedVariant? then
        match ParseData(st.whole)
        case Err(m) => Err(m)
        case Ok(d) => Ok((DataItem(d), run.1))
      else if p.GotAttrBody? && st.pt.InnerAttrVariant? then
        Ok((InnerAttr(Last(st.attr)), run.1))
      else Err(BAD_END)
  }

  /** The loop of `Enum::parse_from` */
  function VariantItems(ts: seq<Token>): (r: Result<Items<EnumVariant>, string>)
    decreases TsSize(ts), 3
  {
    var p :- EnumVariantParse(ts);
    match p.0
    case NoItem => Ok(Items([], [], []))
    case Item(v) => var rest :- VariantItems(p.1); Ok(rest.(items := [v] + rest.items))
    case DataItem(d) => var rest :- VariantItems(p.1); Ok(rest.(enclosed := [d] + rest.enclosed))
    case InnerAttr(a) => var rest :- VariantItems(p.1); Ok(rest.(attrs := [a] + rest.attrs))
  }

  // ---------------------------------------------------------------- Root

  const NO_DATA := "no data type found"

  /** The `while let` loop of `Root::parse_from`: every item up to the first `None`. */
  function RootItems(ts: seq<Token>): (r: Result<seq<Data>, string>)
    decreases |ts|
  {
    match ParseOptionData(ts, true)
    case Err(m) => Err(m)
    case Ok(p) =>
      if p.0.None? then Ok([])
      else
        match RootItems(p.1)
        case Err(m) => Err(m)
        case Ok(ds) => Ok([p.0.value] + ds)
  }

  /** The items that are not the `debug` marker, in order. */
  function NonDebug(ds: seq<Data>): (r: seq<Data>)
    ensures forall d :: d in r <==> d in ds && !d.DebugFlag?
    ensures |r| <= |ds|
  {
    if |ds| == 0 then []
    else
      var last := ds[|ds| - 1];
      assert ds == ds[..|ds| - 1] + [last];
      NonDebug(ds[..|ds| - 1]) + (if last.DebugFlag? then [] else [last])
  }

  /** The end of `Root::parse_from`: the `debug` marker is taken out and
      recorded, and at least one data type must remain. */
  function FilterDebug(ds: seq<Data>): (r: Result<Root, string>)
    ensures r.Ok? ==> |r.value.datum| > 0
    ensures r.Ok? ==> forall d :: d in r.value.datum <==> d in ds && !d.DebugFlag?
    ensures r.Ok? ==> (r.value.debug <==> DebugFlag in ds)
    ensures r.Err? <==> forall d :: d in ds ==> d.DebugFlag?
  {
    var datum := NonDebug(ds);
    if |datum| == 0 then Err(NO_DATA)
    else
      assert datum[0] in datum;
      Ok(Root(DebugFlag in ds, datum))
  }

  /** `Root::parse_from` */
  function ParseRoot(ts: seq<Token>): Result<Root, string>
  {
    match RootItems(ts)
    case Err(m) => Err(m)
    case Ok(ds) => FilterDebug(ds)
  }

  function Prepended(items: seq<Data>, r: Result<seq<Data>, string>): Result<seq<Data>, string>
  {
    match r
    case Err(m) => Err(m)
    case Ok(v) => Ok(items + v)
  }

  lemma PrependedAppend(items: seq<Data>, d: Data, r: Result<seq<Data>, string>)
    ensures Prepended(items, Prepended([d], r)) == Prepended(items + [d], r)
  {
    if r.Ok? {
      assert items + ([d] + r.value) == (items + [d]) + r.value;
    }
  }

  lemma RootItemsUnfold(ts: seq<Token>)
    ensures var p := ParseOptionData(ts, true);
      RootItems(ts) ==
        if p.Err? then Err(p.error)
        else if p.value.0.None? then Ok([])
        else Prepended([p.value.0.value], RootItems(p.value.1))
  {
  }

  /** The `while let` loop of `Root::parse_from`. */
  method CollectItems(ts: seq<Token>) returns (r: Result<seq<Data>, string>)
    ensures r == RootItems(ts)
  {
    var items: seq<Data> := [];
    var rest := ts;
    if RootItems(ts).Ok? {
      assert [] + RootItems(ts).value == RootItems(ts).value;
    }
    while true
      invariant RootItems(ts) == Prepended(items, RootItems(rest))
      decreases |rest|
    {
      var p := ParseOptionData(rest, true);
      RootItemsUnfold(rest);
      if p.Err? {
        return Err(p.error);
      }
      if p.value.0.None? {
        assert items + [] == items;
        break;
      }
      PrependedAppend(items, p.value.0.value, RootItems(p.value.1));
      items := items + [p.value.0.value];
      rest := p.value.1;
    }
    return Ok(items);
  }

  /** The `filter` over the collected items, whose closure sets `debug`. */
  method FilterDebugLoop(items: seq<Data>) returns (r: Result<Root, string>)
    ensures r == FilterDebug(items)
  {
    var datum: seq<Data> := [];
    var debug := false;
    for i := 0 to |items|
      invariant datum == NonDebug(items[..i])
      invariant debug <==> DebugFlag in items[..i]
    {
      assert items[..i + 1] == items[..i] + [items[i]];
      assert items[..i + 1][..i] == items[..i];
      if items[i].DebugFlag? {
        debug := true;
      } else {
        datum := datum + [items[i]];
      }
    }
    assert items[..|items|] == items;
    if |datum| == 0 {
      return Err(NO_DATA);
    }
    return Ok(Root(debug, datum));
  }

  method ParseRootLoop(ts: seq<Token>) returns (r: Result<Root, string>)
    ensures r == ParseRoot(ts)
  {
    var items := CollectItems(ts);
    if items.Err? {
      return Err(items.error);
    }
    r := FilterDebugLoop(items.value);
  }

  // ---------------------------------------------------------------- properties

  /** The item parser reports no item exactly on an exhausted stream. */
  lemma ParseOptionDataNone(ts: seq<Token>, keepWhereBody: bool)
    ensures ParseOptionData(ts, keepWhereBody).Ok? && ParseOptionData(ts, keepWhereBody).value.0.None? <==> ts == []
    ensures ts == [] ==> ParseOptionData(ts, keepWhereBody) == Ok((None, []))
  {
  }

  /** A root parse succeeds only on a non-empty stream. */
  lemma ParseRootNonEmpty(ts: seq<Token>)
    ensures ParseRoot(ts).Ok? ==> |ts| > 0
  {
    if ts == [] {
      ParseOptionDataNone(ts, true);
    }
  }

  /** `struct Name;` parses to a unit struct and leaves the rest. */
  lemma UnitStructParses(n: string, rest: seq<Token>)
    ensures ParseOptionData([Ident("struct"), Ident(n), Punct(';')] + rest, true) ==
      Ok((Some(StructData(Struct(n, [], [], [], [], Unit))), rest))
  {
    var ts := [Ident("struct"), Ident(n), Punct(';')] + rest;
    var st1 := DataStart.(kind := StructUnitKind, phase := GotType);
    var st2 := st1.(name := Some(n), phase := GotName);
    var st3 := st2.(phase := GotSemicolon);
    assert ts[1..] == [Ident(n), Punct(';')] + rest;
    assert ts[1..][1..] == [Punct(';')] + rest;
    assert ts[1..][1..][1..] == rest;
    assert DataStep(st2, Punct(';'), true) == Stop(st3);
    assert DataRun(st2, ts[1..][1..], true) == Ok((st3, rest));
    assert DataStep(st1, Ident(n), true) == Next(st2);
    assert DataRun(st1, ts[1..], true) == Ok((st3, rest));
    assert DataStep(DataStart, Ident("struct"), true) == Next(st1);
    assert DataRun(DataStart, ts, true) == Ok((st3, rest));
  }

  /** `struct S where T { x: T }`, the stream of the counterexample below. */
  function WhereStruct(): seq<Token>
  {
    [Ident("struct"), Ident("S"), Ident("where"), Ident("T"),
     Group(Brace, [Ident("x"), Punct(':'), Ident("T")])]
  }

  /** The steps of a struct header: keyword, name, `where`, a bound, the body. */
  lemma StructKeywordStep(k: bool)
    ensures DataStep(DataStart, Ident("struct"), k) == Next(DataStart.(kind := StructUnitKind, phase := GotType))
  {
  }

  lemma NameStep(st: DataState, n: string, k: bool)
    requires st.phase.GotType? && !st.kind.UnknownKind?
    ensures DataStep(st, Ident(n), k) == Next(st.(name := Some(n), phase := GotName))
  {
  }

  lemma WhereKeywordStep(st: DataState, k: bool)
    requires st.phase.GotName? && st.kind.StructUnitKind? && st.count == 0
    ensures DataStep(st, Ident("where"), k) == Next(st.(phase := GotWhere))
  {
  }

  lemma WhereItemStep(st: DataState, n: string, k: bool)
    requires st.phase.GotWhere? && st.kind.StructUnitKind? && n != "<" && n != ">"
    ensures DataStep(st, Ident(n), k) == Next(st.(wh := st.wh + [Ident(n)], phase := GotWhereItem))
  {
  }

  lemma WhereBodyStep(st: DataState, inner: seq<Token>, k: bool)
    requires st.phase.GotWhereItem? && st.kind.StructUnitKind? && st.count == 0
    ensures DataStep(st, Group(Brace, inner), k) ==
      Stop(st.(kind := StructNamedKind, body := if k then inner else st.body, phase := GotBody))
  {
  }

  lemma WhereStructRun(keepWhereBody: bool)
    ensures DataRun(DataStart, WhereStruct(), keepWhereBody) ==
      Ok((DataStart.(kind := StructNamedKind, name := Some("S"), wh := [Ident("T")], phase := GotBody,
                     body := if keepWhereBody then [Ident("x"), Punct(':'), Ident("T")] else []), []))
  {
    var k := keepWhereBody;
    var g := Group(Brace, [Ident("x"), Punct(':'), Ident("T")]);
    var st1 := DataStart.(kind := StructUnitKind, phase := GotType);
    var st2 := st1.(name := Some("S"), phase := GotName);
    WhereClauseRun(st2, k);
    NameStep(st1, "S", k);
    DataRunNext(st1, Ident("S"), [Ident("where"), Ident("T"), g], k, st2);
    StructKeywordStep(k);
    DataRunNext(DataStart, Ident("struct"), [Ident("S"), Ident("where"), Ident("T"), g], k, st1);
  }

  /** After the name: `where T { x: T }` ends the run with a braced body,
      kept or dropped. */
  lemma WhereClauseRun(st2: DataState, k: bool)
    requires st2 == DataStart.(kind := StructUnitKind, name := Some("S"), phase := GotName)
    ensures DataRun(st2, [Ident("where"), Ident("T"), Group(Brace, [Ident("x"), Punct(':'), Ident("T")])], k) ==
      Ok((st2.(kind := StructNamedKind, wh := [Ident("T")], phase := GotBody,
               body := if k then [Ident("x"), Punct(':'), Ident("T")] else []), []))
  {
    var g := Group(Brace, [Ident("x"), Punct(':'), Ident("T")]);
    var st3 := st2.(phase := GotWhere);
    var st4 := st3.(wh := [Ident("T")], phase := GotWhereItem);
    var st5 := st4.(kind := StructNamedKind, phase := GotBody, body := if k then g.inner else []);
    WhereBodyStep(st4, g.inner, k);
    DataRunStop(st4, g, [], k, st5);
    WhereItemStep(st3, "T", k);
    assert st3.wh + [Ident("T")] == [Ident("T")];
    DataRunNext(st3, Ident("T"), [g], k, st4);
    WhereKeywordStep(st2, k);
    DataRunNext(st2, Ident("where"), [Ident("T"), g], k, st3);
  }

  /** A step that goes on: the run continues from the new state. */
  lemma DataRunNext(st: DataState, t: Token, rest: seq<Token>, k: bool, s: DataState)
    requires !IsDebugStart(st, t) && DataStep(st, t, k) == Next(s)
    ensures DataRun(st, [t] + rest, k) == DataRun(s, rest, k)
  {
    assert ([t] + rest)[0] == t && ([t] + rest)[1..] == rest;
  }

  /** A step that stops: the run ends in its state, the rest left over. */
  lemma DataRunStop(st: DataState, t: Token, rest: seq<Token>, k: bool, s: DataState)
    requires !IsDebugStart(st, t) && DataStep(st, t, k) == Stop(s)
    ensures DataRun(st, [t] + rest, k) == Ok((s, rest))
  {
    assert ([t] + rest)[0] == t && ([t] + rest)[1..] == rest;
  }

  /** An empty braced field list is rejected. */
  lemma EmptyNamedItems()
    ensures NamedItems([]) == Ok(Items([], [], []))
  {
    assert FieldRun(FieldStart, [], true) == Ok((FieldStart, []));
    assert NamedFieldParse([]) == Ok((NoItem, []));
  }

  lemma EmptyNamedFieldsRejected()
    ensures NamedFieldsParse([]) == Err("zero fields")
  {
    EmptyNamedItems();
  }

  /** As written, the body of a struct with a `where` clause is dropped and
      the struct is rejected for having no fields. */
  lemma WhereStructRejectedAsWritten()
    ensures ParseOptionData(WhereStruct(), false) == Err("zero fields")
  {
    WhereStructRun(false);
    EmptyNamedFieldsRejected();
    var st := DataStart.(kind := StructNamedKind, name := Some("S"), wh := [Ident("T")], phase := GotBody, body := []);
    assert Build(st) == Err("zero fields");
    ParseOptionDataBuilt(WhereStruct(), false, st, []);
  }

  /** A run that ends in a complete named struct or enum gives what `Build` gives. */
  lemma ParseOptionDataBuilt(ts: seq<Token>, k: bool, st: DataState, rest: seq<Token>)
    requires DataRun(DataStart, ts, k) == Ok((st, rest))
    requires (st.kind.StructNamedKind? || st.kind.EnumKind?) && st.phase.GotBody? && st.name.Some?
    ensures Build(st).Ok? ==> ParseOptionData(ts, k) == Ok((Some(Build(st).value), rest))
    ensures Build(st).Err? ==> ParseOptionData(ts, k) == Err(Build(st).error)
  {
    assert Complete(st);
  }

  /** The steps of a named field `name: Type`. */
  lemma FieldNameStep(n: string)
    requires n !in {"#", "pub", "struct", "enum", "type", "trait"}
    ensures FieldStep(FieldStart, Ident(n), true) ==
      Next(FieldStart.(name := Some(n), phase := GotName, whole := [Ident(n)]))
  {
    assert [] + [Ident(n)] == [Ident(n)];
  }

  lemma FieldColonStep(st: FieldState)
    requires st.phase.GotName?
    ensures FieldStep(st, Punct(':'), true) == Next(st.(phase := GotColon, whole := st.whole + [Punct(':')]))
  {
  }

  lemma FieldTypeStep(st: FieldState, t: Token, named: bool)
    requires st.phase.GotColon?
    ensures FieldStep(st, t, named) == Next(st.(ty := st.ty + [t], phase := GotType, whole := st.whole + [t]))
  {
  }

  /** One named field `x: T`. */
  lemma OneNamedFieldRun()
    ensures FieldRun(FieldStart, [Ident("x"), Punct(':'), Ident("T")], true) ==
      Ok((FieldStart.(name := Some("x"), ty := [Ident("T")], phase := GotType,
                      whole := [Ident("x"), Punct(':'), Ident("T")]), []))
  {
    var f1 := FieldStart.(name := Some("x"), phase := GotName, whole := [Ident("x")]);
    FieldTypeRun(f1);
    FieldNameStep("x");
    FieldRunNext(FieldStart, Ident("x"), [Punct(':'), Ident("T")], true, f1);
  }

  /** After the field name: `: T` completes the field. */
  lemma FieldTypeRun(f1: FieldState)
    requires f1 == FieldStart.(name := Some("x"), phase := GotName, whole := [Ident("x")])
    ensures FieldRun(f1, [Punct(':'), Ident("T")], true) ==
      Ok((f1.(ty := [Ident("T")], phase := GotType, whole := [Ident("x"), Punct(':'), Ident("T")]), []))
  {
    ColonTypeRun(f1, Ident("T"));
    assert f1.ty + [Ident("T")] == [Ident("T")];
    assert f1.whole + [Punct(':'), Ident("T")] == [Ident("x"), Punct(':'), Ident("T")];
  }

  /** A colon then one type token, after a name, end the field's tokens. */
  lemma ColonTypeRun(st: FieldState, t: Token)
    requires st.phase.GotName?
    ensures FieldRun(st, [Punct(':'), t], true) ==
      Ok((st.(ty := st.ty + [t], phase := GotType, whole := st.whole + [Punct(':'), t]), []))
  {
    var s2 := st.(phase := GotColon, whole := st.whole + [Punct(':')]);
    var s3 := s2.(ty := s2.ty + [t], phase := GotType, whole := s2.whole + [t]);
    FieldColonStep(st);
    FieldRunNext(st, Punct(':'), [t], true, s2);
    FieldTypeStep(s2, t, true);
    FieldRunNext(s2, t, [], true, s3);
    assert s2.whole + [t] == st.whole + [Punct(':'), t];
  }

  /** A field step that goes on: the run continues from the new state. */
  lemma FieldRunNext(st: FieldState, t: Token, rest: seq<Token>, named: bool, s: FieldState)
    requires FieldStep(st, t, named) == Next(s)
    ensures FieldRun(st, [t] + rest, named) == FieldRun(s, rest, named)
  {
    assert ([t] + rest)[0] == t && ([t] + rest)[1..] == rest;
  }

  lemma OneNamedFieldParse()
    ensures NamedFieldParse([Ident("x"), Punct(':'), Ident("T")]) ==
      Ok((Item(NamedField([], [], "x", TypeValue([Ident("T")], None))), []))
  {
    OneNamedFieldRun();
  }

  lemma OneNamedField()
    ensures NamedFieldsParse([Ident("x"), Punct(':'), Ident("T")]) ==
      Ok(Items([NamedField([], [], "x", TypeValue([Ident("T")], None))], [], []))
  {
    var f := NamedField([], [], "x", TypeValue([Ident("T")], None));
    OneNamedFieldParse();
    EmptyNamedItems();
    assert [f] + [] == [f];
    assert NamedItems([Ident("x"), Punct(':'), Ident("T")]) == Ok(Items([f], [], []));
  }

  /** With the body kept, the same struct parses with its one field. */
  lemma WhereStructParsed()
    ensures ParseOptionData(WhereStruct(), true) ==
      Ok((Some(StructData(Struct("S", [], [], [], [Ident("T")],
        Named([NamedField([], [], "x", TypeValue([Ident("T")], None))], [])))), []))
  {
    WhereStructRun(true);
    var st := DataStart.(kind := StructNamedKind, name := Some("S"), wh := [Ident("T")], phase := GotBody,
                         body := [Ident("x"), Punct(':'), Ident("T")]);
    WhereStructBuild(st);
    ParseOptionDataBuilt(WhereStruct(), true, st, []);
  }

  lemma WhereStructBuild(st: DataState)
    requires st == DataStart.(kind := StructNamedKind, name := Some("S"), wh := [Ident("T")], phase := GotBody,
                              body := [Ident("x"), Punct(':'), Ident("T")])
    ensures Complete(st)
    ensures Build(st) == Ok(StructData(Struct("S", [], [], [], [Ident("T")],
      Named([NamedField([], [], "x", TypeValue([Ident("T")], None))], []))))
  {
    OneNamedField();
    assert st.attr + [] == [];
  }
}
