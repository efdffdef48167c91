// The surface syntax that `compose_struct!` reads, written out as token
// streams for the plain part of the language (no attributes, generics,
// `where` clauses or types nested in fields), and the round trips that
// tie the parsers of compose_parser.dfy to it: parsing what is rendered
// gives back the item that was rendered, followed by the untouched rest.
module ComposeSyntax {
  import opened Wrappers
  import opened Tokens
  import opened ComposeData
  import opened ComposeParser

  // ---------------------------------------------------------------- plain items

  /** A token the type parser copies without counting generics or ending the type. */
  predicate PlainTypeToken(t: Token)
  {
    TokenString(t) !in {"<", ">", "=", ","}
  }

  /** An identifier that starts a field or variant rather than an attribute,
      a visibility or an enclosed item. */
  predicate PlainName(n: string)
  {
    n !in {"#", "pub", "struct", "enum", "type", "trait"}
  }

  predicate PlainVisibility(vis: seq<Token>)
  {
    vis == [] || vis == PUB
  }

  /** `: T` or `: T = expr` with neither part holding a top-level `,`. */
  predicate PlainValue(v: FieldValue)
  {
    v.TypeValue? && |v.ty| > 0 && (forall i :: 0 <= i < |v.ty| ==> PlainTypeToken(v.ty[i])) &&
    (v.default.Some? ==>
       |v.default.value| > 0 && TokenString(v.default.value[0]) !in {"struct", "enum"} &&
       forall i :: 0 <= i < |v.default.value| ==> TokenString(v.default.value[i]) != ",")
  }

  predicate PlainNamedField(f: NamedField)
  {
    f.attributes == [] && PlainVisibility(f.visibility) && PlainName(f.name) && PlainValue(f.value)
  }

  /** An unnamed field's type must start with an identifier. */
  predicate PlainUnnamedField(f: UnnamedField)
  {
    f.attributes == [] && PlainVisibility(f.visibility) && PlainValue(f.value) &&
    f.value.ty[0].Ident? && PlainName(f.value.ty[0].name)
  }

  // ---------------------------------------------------------------- rendering

  function DefaultTokens(d: Option<seq<Token>>): seq<Token>
  {
    if d.Some? then [Punct('=')] + d.value else []
  }

  /** `T = expr`; an inline data type is outside the plain part and renders as nothing. */
  function ValueTokens(v: FieldValue): seq<Token>
  {
    if v.TypeValue? then v.ty + DefaultTokens(v.default) else []
  }

  /** `vis name: T = expr,` */
  function RenderNamedField(f: NamedField): seq<Token>
  {
    f.visibility + [Ident(f.name), Punct(':')] + ValueTokens(f.value) + [Punct(',')]
  }

  /** `vis T = expr,` */
  function RenderUnnamedField(f: UnnamedField): seq<Token>
  {
    f.visibility + ValueTokens(f.value) + [Punct(',')]
  }

  function RenderNamed(fs: seq<NamedField>): seq<Token>
  {
    if |fs| == 0 then [] else RenderNamedField(fs[0]) + RenderNamed(fs[1..])
  }

  function RenderUnnamed(fs: seq<UnnamedField>): seq<Token>
  {
    if |fs| == 0 then [] else RenderUnnamedField(fs[0]) + RenderUnnamed(fs[1..])
  }

  // ---------------------------------------------------------------- field steps

  lemma FieldPubStep(st: FieldState, named: bool)
    requires st.phase.Beginning?
    ensures FieldStep(st, Ident("pub"), named) ==
      Next(st.(vis := PUB, phase := GotPub, whole := st.whole + [Ident("pub")]))
  {
  }

  lemma FieldNamedStep(st: FieldState, n: string)
    requires st.phase.Beginning? || st.phase.GotPub?
    requires PlainName(n)
    ensures FieldStep(st, Ident(n), true) ==
      Next(st.(name := Some(n), phase := GotName, whole := st.whole + [Ident(n)]))
  {
  }

  lemma FieldFirstTypeStep(st: FieldState, t: Token)
    requires st.phase.Beginning? || st.phase.GotPub?
    requires t.Ident? && PlainName(t.name)
    ensures FieldStep(st, t, false) == Next(st.(ty := [t], phase := GotType, whole := st.whole + [t]))
  {
  }

  lemma FieldPlainTypeStep(st: FieldState, t: Token, named: bool)
    requires st.phase.GotType? && PlainTypeToken(t)
    ensures FieldStep(st, t, named) == Next(st.(ty := st.ty + [t], whole := st.whole + [t]))
  {
  }

  lemma FieldEqualStep(st: FieldState, named: bool)
    requires st.phase.GotType? && st.count == 0
    ensures FieldStep(st, Punct('='), named) == Next(st.(phase := GotEqual, whole := st.whole + [Punct('=')]))
  {
    assert TokenString(Punct('=')) == "=";
  }

  lemma FieldTypeCommaStep(st: FieldState, named: bool)
    requires st.phase.GotType? && st.count == 0
    ensures FieldStep(st, Punct(','), named) == Stop(st.(phase := GotComma))
  {
    assert TokenString(Punct(',')) == ",";
  }

  lemma FieldDefaultStep(st: FieldState, t: Token, named: bool)
    requires (st.phase.GotEqual? && TokenString(t) !in {"struct", "enum"}) ||
             (st.phase.GotDefaultVal? && TokenString(t) != ",")
    ensures FieldStep(st, t, named) ==
      Next(st.(default := st.default + [t], phase := GotDefaultVal, whole := st.whole + [t]))
  {
  }

  lemma FieldDefaultCommaStep(st: FieldState, named: bool)
    requires st.phase.GotDefaultVal?
    ensures FieldStep(st, Punct(','), named) == Stop(st.(phase := GotComma))
  {
    assert TokenString(Punct(',')) == ",";
  }

  lemma FieldRunStop(st: FieldState, t: Token, rest: seq<Token>, named: bool, s: FieldState)
    requires FieldStep(st, t, named) == Stop(s)
    ensures FieldRun(st, [t] + rest, named) == Ok((s, rest))
  {
    assert ([t] + rest)[0] == t && ([t] + rest)[1..] == rest;
  }

  // ---------------------------------------------------------------- field runs

  /** The state after the type tokens `tys` were copied. */
  function WithType(st: FieldState, tys: seq<Token>): FieldState
  {
    st.(ty := st.ty + tys, whole := st.whole + tys)
  }

  /** The state after the default tokens `dv` were copied. */
  function WithDefault(st: FieldState, dv: seq<Token>): FieldState
  {
    st.(default := st.default + dv, phase := GotDefaultVal, whole := st.whole + dv)
  }

  lemma WithTypeCons(st: FieldState, tys: seq<Token>)
    requires |tys| > 0
    ensures WithType(WithType(st, [tys[0]]), tys[1..]) == WithType(st, tys)
  {
    assert (st.ty + [tys[0]]) + tys[1..] == st.ty + tys;
    assert (st.whole + [tys[0]]) + tys[1..] == st.whole + tys;
  }

  lemma WithDefaultCons(st: FieldState, dv: seq<Token>)
    requires |dv| > 0
    ensures WithDefault(WithDefault(st, [dv[0]]), dv[1..]) == WithDefault(st, dv)
  {
    assert (st.default + [dv[0]]) + dv[1..] == st.default + dv;
    assert (st.whole + [dv[0]]) + dv[1..] == st.whole + dv;
  }

  /** One plain type token, read by the run. */
  lemma PlainTypeRunStep(st: FieldState, t: Token, rest: seq<Token>, named: bool)
    requires st.phase.GotType? && PlainTypeToken(t)
    ensures FieldRun(st, [t] + rest, named) == FieldRun(WithType(st, [t]), rest, named)
  {
    FieldPlainTypeStep(st, t, named);
    FieldRunNext(st, t, rest, named, WithType(st, [t]));
  }

  /** The rest of a plain type is copied token by token. */
  lemma {:induction false} TypeTailRun(st: FieldState, tys: seq<Token>, tail: seq<Token>, named: bool)
    requires st.phase.GotType?
    requires forall i :: 0 <= i < |tys| ==> PlainTypeToken(tys[i])
    ensures FieldRun(st, tys + tail, named) == FieldRun(WithType(st, tys), tail, named)
    decreases |tys|
  {
    if |tys| == 0 {
      assert tys + tail == tail;
      assert WithType(st, tys) == st;
    } else {
      assert tys + tail == [tys[0]] + (tys[1..] + tail);
      PlainTypeRunStep(st, tys[0], tys[1..] + tail, named);
      TypeTailRun(WithType(st, [tys[0]]), tys[1..], tail, named);
      WithTypeCons(st, tys);
    }
  }

  /** One token of a default expression, read by the run. */
  lemma DefaultRunStep(st: FieldState, t: Token, rest: seq<Token>, named: bool)
    requires (st.phase.GotEqual? && TokenString(t) !in {"struct", "enum"}) ||
             (st.phase.GotDefaultVal? && TokenString(t) != ",")
    ensures FieldRun(st, [t] + rest, named) == FieldRun(WithDefault(st, [t]), rest, named)
  {
    FieldDefaultStep(st, t, named);
    FieldRunNext(st, t, rest, named, WithDefault(st, [t]));
  }

  /** The rest of a default expression is copied token by token. */
  lemma {:induction false} DefaultTailRun(st: FieldState, dv: seq<Token>, tail: seq<Token>, named: bool)
    requires st.phase.GotDefaultVal?
    requires forall i :: 0 <= i < |dv| ==> TokenString(dv[i]) != ","
    ensures FieldRun(st, dv + tail, named) == FieldRun(WithDefault(st, dv), tail, named)
    decreases |dv|
  {
    if |dv| == 0 {
      assert dv + tail == tail;
      assert WithDefault(st, dv) == st;
    } else {
      assert dv + tail == [dv[0]] + (dv[1..] + tail);
      DefaultRunStep(st, dv[0], dv[1..] + tail, named);
      DefaultTailRun(WithDefault(st, [dv[0]]), dv[1..], tail, named);
      WithDefaultCons(st, dv);
    }
  }

  /** A type after a colon: the first token and the rest are copied. */
  lemma TypeRun(st: FieldState, ty: seq<Token>, tail: seq<Token>, named: bool)
    requires st.phase.GotColon? && |ty| > 0
    requires forall i :: 0 <= i < |ty| ==> PlainTypeToken(ty[i])
    ensures FieldRun(st, ty + tail, named) == FieldRun(WithType(st.(phase := GotType), ty), tail, named)
  {
    assert ty + tail == [ty[0]] + (ty[1..] + tail);
    FieldTypeStep(st, ty[0], named);
    FieldRunNext(st, ty[0], ty[1..] + tail, named, WithType(st.(phase := GotType), [ty[0]]));
    TypeTailRun(WithType(st.(phase := GotType), [ty[0]]), ty[1..], tail, named);
    WithTypeCons(st.(phase := GotType), ty);
  }

  /** The state in which a plain field ends: the comma was read, and the
      default expression, if any, was collected. */
  function FieldDone(st: FieldState, d: Option<seq<Token>>): FieldState
  {
    if d.None? then st.(phase := GotComma)
    else WithDefault(st.(phase := GotEqual, whole := st.whole + [Punct('=')]), d.value).(phase := GotComma)
  }

  lemma EqualRun(st: FieldState, tail: seq<Token>, named: bool)
    requires st.phase.GotType? && st.count == 0
    ensures FieldRun(st, [Punct('=')] + tail, named) ==
      FieldRun(st.(phase := GotEqual, whole := st.whole + [Punct('=')]), tail, named)
  {
    FieldEqualStep(st, named);
    FieldRunNext(st, Punct('='), tail, named, st.(phase := GotEqual, whole := st.whole + [Punct('=')]));
  }

  /** A default expression after `=` is copied whole. */
  lemma DefaultBodyRun(st: FieldState, dv: seq<Token>, tail: seq<Token>, named: bool)
    requires st.phase.GotEqual?
    requires |dv| > 0 && TokenString(dv[0]) !in {"struct", "enum"}
    requires forall i :: 0 <= i < |dv| ==> TokenString(dv[i]) != ","
    ensures FieldRun(st, dv + tail, named) == FieldRun(WithDefault(st, dv), tail, named)
  {
    assert dv + tail == [dv[0]] + (dv[1..] + tail);
    DefaultRunStep(st, dv[0], dv[1..] + tail, named);
    DefaultTailRun(WithDefault(st, [dv[0]]), dv[1..], tail, named);
    WithDefaultCons(st, dv);
  }

  lemma DefaultSomeRun(st: FieldState, dv: seq<Token>, rest: seq<Token>, named: bool)
    requires st.phase.GotType? && st.count == 0
    requires |dv| > 0 && TokenString(dv[0]) !in {"struct", "enum"}
    requires forall i :: 0 <= i < |dv| ==> TokenString(dv[i]) != ","
    ensures FieldRun(st, DefaultTokens(Some(dv)) + ([Punct(',')] + rest), named) == Ok((FieldDone(st, Some(dv)), rest))
  {
    var s1 := st.(phase := GotEqual, whole := st.whole + [Punct('=')]);
    assert DefaultTokens(Some(dv)) + ([Punct(',')] + rest) == [Punct('=')] + (dv + ([Punct(',')] + rest));
    EqualRun(st, dv + ([Punct(',')] + rest), named);
    DefaultBodyRun(s1, dv, [Punct(',')] + rest, named);
    FieldDefaultCommaStep(WithDefault(s1, dv), named);
    FieldRunStop(WithDefault(s1, dv), Punct(','), rest, named, FieldDone(st, Some(dv)));
  }

  /** After a plain type: the optional default and the closing comma end the field. */
  lemma DefaultRun(st: FieldState, v: FieldValue, rest: seq<Token>, named: bool)
    requires st.phase.GotType? && st.count == 0
    requires PlainValue(v)
    ensures FieldRun(st, DefaultTokens(v.default) + ([Punct(',')] + rest), named) == Ok((FieldDone(st, v.default), rest))
  {
    if v.default.None? {
      assert DefaultTokens(v.default) + ([Punct(',')] + rest) == [Punct(',')] + rest;
      FieldTypeCommaStep(st, named);
      FieldRunStop(st, Punct(','), rest, named, st.(phase := GotComma));
    } else {
      DefaultSomeRun(st, v.default.value, rest, named);
    }
  }

  /** The field that the parser builds from its end state is the plain type
      and default that were read. */
  lemma FieldDoneValue(st: FieldState, d: Option<seq<Token>>)
    requires st.default == [] && (d.Some? ==> |d.value| > 0)
    ensures var e := FieldDone(st, d);
      e.phase.GotComma? && e.pt == st.pt && e.attr == st.attr && e.vis == st.vis && e.name == st.name &&
      TypeValueOf(e) == TypeValue(st.ty, d)
  {
    if d.Some? {
      assert [] + d.value == d.value;
    }
  }

  /** The state once the visibility has been read. */
  function AfterVisibility(vis: seq<Token>): FieldState
  {
    if vis == PUB then FieldStart.(vis := PUB, phase := GotPub, whole := PUB) else FieldStart
  }

  lemma VisibilityRun(vis: seq<Token>, tail: seq<Token>, named: bool)
    requires PlainVisibility(vis)
    ensures FieldRun(FieldStart, vis + tail, named) == FieldRun(AfterVisibility(vis), tail, named)
  {
    if vis == PUB {
      FieldPubStep(FieldStart, named);
      assert [] + [Ident("pub")] == PUB;
      FieldRunNext(FieldStart, Ident("pub"), tail, named, AfterVisibility(vis));
    } else {
      assert vis + tail == tail;
    }
  }

  // ---------------------------------------------------------------- field round trips

  /** The state after `vis name`. */
  function AfterName(vis: seq<Token>, n: string): FieldState
  {
    var s0 := AfterVisibility(vis);
    s0.(name := Some(n), phase := GotName, whole := s0.whole + [Ident(n)])
  }

  /** The state after `vis name:`. */
  function AfterColon(vis: seq<Token>, n: string): FieldState
  {
    var s1 := AfterName(vis, n);
    s1.(phase := GotColon, whole := s1.whole + [Punct(':')])
  }

  lemma NameRun(vis: seq<Token>, n: string, tail: seq<Token>)
    requires PlainVisibility(vis) && PlainName(n)
    ensures FieldRun(AfterVisibility(vis), [Ident(n)] + tail, true) == FieldRun(AfterName(vis, n), tail, true)
  {
    FieldNamedStep(AfterVisibility(vis), n);
    FieldRunNext(AfterVisibility(vis), Ident(n), tail, true, AfterName(vis, n));
  }

  lemma ColonRun(vis: seq<Token>, n: string, tail: seq<Token>)
    ensures FieldRun(AfterName(vis, n), [Punct(':')] + tail, true) == FieldRun(AfterColon(vis, n), tail, true)
  {
    FieldColonStep(AfterName(vis, n));
    FieldRunNext(AfterName(vis, n), Punct(':'), tail, true, AfterColon(vis, n));
  }

  lemma NamedHeadRun(vis: seq<Token>, n: string, tail: seq<Token>)
    requires PlainVisibility(vis) && PlainName(n)
    ensures FieldRun(FieldStart, vis + ([Ident(n)] + ([Punct(':')] + tail)), true) == FieldRun(AfterColon(vis, n), tail, true)
  {
    VisibilityRun(vis, [Ident(n)] + ([Punct(':')] + tail), true);
    NameRun(vis, n, [Punct(':')] + tail);
    ColonRun(vis, n, tail);
  }

  /** The end state of a plain named field. */
  function NamedDone(f: NamedField): FieldState
    requires f.value.TypeValue?
  {
    FieldDone(NamedTyped(f), f.value.default)
  }

  /** The rendering of a field followed by more tokens, regrouped the way the parser reads it. */
  lemma NamedFieldTokens(f: NamedField, rest: seq<Token>)
    requires f.value.TypeValue?
    ensures RenderNamedField(f) + rest ==
      f.visibility + ([Ident(f.name)] + ([Punct(':')] + (f.value.ty + (DefaultTokens(f.value.default) + ([Punct(',')] + rest)))))
  {
  }

  /** The state after the type of a plain named field. */
  function NamedTyped(f: NamedField): FieldState
    requires f.value.TypeValue?
  {
    WithType(AfterColon(f.visibility, f.name).(phase := GotType), f.value.ty)
  }

  lemma NamedTypedRun(f: NamedField, tail: seq<Token>)
    requires PlainNamedField(f)
    ensures FieldRun(FieldStart, f.visibility + ([Ident(f.name)] + ([Punct(':')] + (f.value.ty + tail))), true) ==
      FieldRun(NamedTyped(f), tail, true)
  {
    NamedHeadRun(f.visibility, f.name, f.value.ty + tail);
    TypeRun(AfterColon(f.visibility, f.name), f.value.ty, tail, true);
  }

  lemma NamedFieldRun(f: NamedField, rest: seq<Token>)
    requires PlainNamedField(f)
    ensures FieldRun(FieldStart, RenderNamedField(f) + rest, true) == Ok((NamedDone(f), rest))
  {
    NamedFieldTokens(f, rest);
    NamedTypedRun(f, DefaultTokens(f.value.default) + ([Punct(',')] + rest));
    DefaultRun(NamedTyped(f), f.value, rest, true);
  }

  lemma NamedDoneFacts(f: NamedField)
    requires PlainNamedField(f)
    ensures var e := NamedDone(f);
      e.phase.GotComma? && e.pt.PlainField? && e.attr == [] && e.vis == f.visibility && e.name == Some(f.name) &&
      TypeValueOf(e) == f.value
  {
    var st := WithType(AfterColon(f.visibility, f.name).(phase := GotType), f.value.ty);
    assert st.ty == f.value.ty;
    FieldDoneValue(st, f.value.default);
  }

  /** A plain named field is parsed back from its rendering; the tokens
      after it are left as they were. */
  lemma NamedFieldRoundTrip(f: NamedField, rest: seq<Token>)
    requires PlainNamedField(f)
    ensures NamedFieldParse(RenderNamedField(f) + rest) == Ok((Item(f), rest))
  {
    NamedFieldRun(f, rest);
    NamedDoneFacts(f);
  }

  /** The state after `vis T0`, the first token of an unnamed field's type. */
  function AfterFirstType(vis: seq<Token>, t: Token): FieldState
  {
    WithType(AfterVisibility(vis).(phase := GotType), [t])
  }

  lemma UnnamedHeadRun(vis: seq<Token>, t: Token, tail: seq<Token>)
    requires PlainVisibility(vis) && t.Ident? && PlainName(t.name)
    ensures FieldRun(FieldStart, vis + ([t] + tail), false) == FieldRun(AfterFirstType(vis, t), tail, false)
  {
    VisibilityRun(vis, [t] + tail, false);
    FieldFirstTypeStep(AfterVisibility(vis), t);
    assert [] + [t] == [t];
    FieldRunNext(AfterVisibility(vis), t, tail, false, AfterFirstType(vis, t));
  }

  /** The end state of a plain unnamed field. */
  function UnnamedDone(f: UnnamedField): FieldState
    requires f.value.TypeValue? && |f.value.ty| > 0
  {
    FieldDone(UnnamedTyped(f), f.value.default)
  }

  lemma UnnamedFieldTokens(f: UnnamedField, rest: seq<Token>)
    requires f.value.TypeValue? && |f.value.ty| > 0
    ensures RenderUnnamedField(f) + rest ==
      f.visibility + ([f.value.ty[0]] + (f.value.ty[1..] + (DefaultTokens(f.value.default) + ([Punct(',')] + rest))))
  {
    assert f.value.ty == [f.value.ty[0]] + f.value.ty[1..];
  }

  /** The state after the type of a plain unnamed field. */
  function UnnamedTyped(f: UnnamedField): FieldState
    requires f.value.TypeValue? && |f.value.ty| > 0
  {
    WithType(AfterFirstType(f.visibility, f.value.ty[0]), f.value.ty[1..])
  }

  lemma UnnamedTypedRun(f: UnnamedField, tail: seq<Token>)
    requires PlainUnnamedField(f)
    ensures FieldRun(FieldStart, f.visibility + ([f.value.ty[0]] + (f.value.ty[1..] + tail)), false) ==
      FieldRun(UnnamedTyped(f), tail, false)
  {
    UnnamedHeadRun(f.visibility, f.value.ty[0], f.value.ty[1..] + tail);
    TypeTailRun(AfterFirstType(f.visibility, f.value.ty[0]), f.value.ty[1..], tail, false);
  }

  lemma UnnamedFieldRun(f: UnnamedField, rest: seq<Token>)
    requires PlainUnnamedField(f)
    ensures FieldRun(FieldStart, RenderUnnamedField(f) + rest, false) == Ok((UnnamedDone(f), rest))
  {
    UnnamedFieldTokens(f, rest);
    UnnamedTypedRun(f, DefaultTokens(f.value.default) + ([Punct(',')] + rest));
    DefaultRun(UnnamedTyped(f), f.value, rest, false);
  }

  lemma UnnamedDoneFacts(f: UnnamedField)
    requires PlainUnnamedField(f)
    ensures var e := UnnamedDone(f);
      e.phase.GotComma? && e.pt.PlainField? && e.attr == [] && e.vis == f.visibility && TypeValueOf(e) == f.value
  {
    var ty := f.value.ty;
    var st := WithType(AfterFirstType(f.visibility, ty[0]), ty[1..]);
    assert st.ty == [] + [ty[0]] + ty[1..] == ty;
    FieldDoneValue(st, f.value.default);
  }

  /** A plain unnamed field is parsed back from its rendering. */
  lemma UnnamedFieldRoundTrip(f: UnnamedField, rest: seq<Token>)
    requires PlainUnnamedField(f)
    ensures UnnamedFieldParse(RenderUnnamedField(f) + rest) == Ok((Item(f), rest))
  {
    UnnamedFieldRun(f, rest);
    UnnamedDoneFacts(f);
  }

  /** A non-empty list of plain named fields, between braces, is parsed
      back in order, with nothing enclosed and no inner attributes. */
  lemma {:induction false} NamedItemsRoundTrip(fs: seq<NamedField>)
    requires forall i :: 0 <= i < |fs| ==> PlainNamedField(fs[i])
    ensures NamedItems(RenderNamed(fs)) == Ok(Items(fs, [], []))
  {
    if |fs| == 0 {
      EmptyNamedItems();
    } else {
      NamedFieldRoundTrip(fs[0], RenderNamed(fs[1..]));
      NamedItemsRoundTrip(fs[1..]);
      assert [fs[0]] + fs[1..] == fs;
    }
  }

  lemma NamedFieldsRoundTrip(fs: seq<NamedField>)
    requires |fs| > 0 && forall i :: 0 <= i < |fs| ==> PlainNamedField(fs[i])
    ensures NamedFieldsParse(RenderNamed(fs)) == Ok(Items(fs, [], []))
  {
    NamedItemsRoundTrip(fs);
  }

  lemma {:induction false} UnnamedItemsRoundTrip(fs: seq<UnnamedField>)
    requires forall i :: 0 <= i < |fs| ==> PlainUnnamedField(fs[i])
    ensures UnnamedItems(RenderUnnamed(fs)) == Ok(Items(fs, [], []))
  {
    if |fs| == 0 {
      assert FieldRun(FieldStart, [], false) == Ok((FieldStart, []));
    } else {
      UnnamedFieldRoundTrip(fs[0], RenderUnnamed(fs[1..]));
      UnnamedItemsRoundTrip(fs[1..]);
      assert [fs[0]] + fs[1..] == fs;
    }
  }

  lemma UnnamedFieldsRoundTrip(fs: seq<UnnamedField>)
    requires |fs| > 0 && forall i :: 0 <= i < |fs| ==> PlainUnnamedField(fs[i])
    ensures UnnamedFieldsParse(RenderUnnamed(fs)) == Ok(Items(fs, [], []))
  {
    UnnamedItemsRoundTrip(fs);
  }

  // ---------------------------------------------------------------- enum variants

  /** A field list that the struct and variant parsers read back: none, or
      a non-empty list of plain fields with nothing enclosed. */
  predicate PlainFields(f: Fields)
  {
    match f
    case Unit => true
    case Unnamed(fs, enc) => enc == [] && |fs| > 0 && forall i :: 0 <= i < |fs| ==> PlainUnnamedField(fs[i])
    case Named(fs, enc) => enc == [] && |fs| > 0 && forall i :: 0 <= i < |fs| ==> PlainNamedField(fs[i])
  }

  predicate PlainVariant(v: EnumVariant)
  {
    v.attributes == [] && PlainName(v.name) && PlainFields(v.fields)
  }

  /** `(T, U,)`, `{ x: T, y: U, }` or nothing. */
  function FieldsGroup(f: Fields): seq<Token>
  {
    match f
    case Unit => []
    case Unnamed(fs, _) => [Group(Paren, RenderUnnamed(fs))]
    case Named(fs, _) => [Group(Brace, RenderNamed(fs))]
  }

  function DefaultMark(isDefault: bool): seq<Token>
  {
    if isDefault then [Punct('='), Ident("default")] else []
  }

  /** `Name(fields) = default,` */
  function RenderVariant(v: EnumVariant): seq<Token>
  {
    [Ident(v.name)] + FieldsGroup(v.fields) + DefaultMark(v.isDefault) + [Punct(',')]
  }

  function RenderVariants(vs: seq<EnumVariant>): seq<Token>
  {
    if |vs| == 0 then [] else RenderVariant(vs[0]) + RenderVariants(vs[1..])
  }

  /** The state after the variant's name. */
  function AfterVariantName(n: string): VariantState
  {
    VariantStart.(name := Some(n), phase := GotFieldName, whole := [Ident(n)])
  }

  /** The state after the variant's field list. */
  function AfterVariantFields(v: EnumVariant): VariantState
  {
    var s1 := AfterVariantName(v.name);
    if v.fields.Unit? then s1
    else s1.(fields := v.fields, phase := GotFieldValue, whole := s1.whole + FieldsGroup(v.fields))
  }

  /** The state after the variant's `= default`, if it has one. */
  function AfterVariantMark(v: EnumVariant): VariantState
  {
    var s2 := AfterVariantFields(v);
    if v.isDefault then s2.(isDefault := true, phase := GotDefault, whole := s2.whole + DefaultMark(true)) else s2
  }

  lemma VariantRunNext(st: VariantState, t: Token, rest: seq<Token>, s: VariantState)
    requires VariantStep(st, t) == Next(s)
    ensures VariantRun(st, [t] + rest) == VariantRun(s, rest)
  {
    assert ([t] + rest)[0] == t && ([t] + rest)[1..] == rest;
  }

  lemma VariantRunStop(st: VariantState, t: Token, rest: seq<Token>, s: VariantState)
    requires VariantStep(st, t) == Stop(s)
    ensures VariantRun(st, [t] + rest) == Ok((s, rest))
  {
    assert ([t] + rest)[0] == t && ([t] + rest)[1..] == rest;
  }

  lemma VariantNameStep(n: string)
    requires PlainName(n)
    ensures VariantStep(VariantStart, Ident(n)) == Next(AfterVariantName(n))
  {
    assert [] + [Ident(n)] == [Ident(n)];
  }

  lemma VariantNameRun(n: string, tail: seq<Token>)
    requires PlainName(n)
    ensures VariantRun(VariantStart, [Ident(n)] + tail) == VariantRun(AfterVariantName(n), tail)
  {
    VariantNameStep(n);
    VariantRunNext(VariantStart, Ident(n), tail, AfterVariantName(n));
  }

  /** A parenthesised field list after the name, read by the unnamed field parser. */
  lemma VariantParenStep(st: VariantState, t: Token, f: Items<UnnamedField>)
    requires st.phase.GotFieldName? && t.Group? && t.delim.Paren? && UnnamedFieldsParse(t.inner) == Ok(f)
    ensures VariantStep(st, t) ==
      Next(st.(fields := Unnamed(f.items, f.enclosed), attr := st.attr + f.attrs, phase := GotFieldValue, whole := st.whole + [t]))
  {
  }

  /** A braced field list after the name, read by the named field parser. */
  lemma VariantBraceStep(st: VariantState, t: Token, f: Items<NamedField>)
    requires st.phase.GotFieldName? && t.Group? && t.delim.Brace? && NamedFieldsParse(t.inner) == Ok(f)
    ensures VariantStep(st, t) ==
      Next(st.(fields := Named(f.items, f.enclosed), attr := st.attr + f.attrs, phase := GotFieldValue, whole := st.whole + [t]))
  {
  }

  lemma VariantUnnamedStep(n: string, fs: seq<UnnamedField>)
    requires |fs| > 0 && forall i :: 0 <= i < |fs| ==> PlainUnnamedField(fs[i])
    ensures var s1 := AfterVariantName(n);
      VariantStep(s1, Group(Paren, RenderUnnamed(fs))) ==
        Next(s1.(fields := Unnamed(fs, []), phase := GotFieldValue, whole := s1.whole + [Group(Paren, RenderUnnamed(fs))]))
  {
    UnnamedFieldsRoundTrip(fs);
    VariantParenStep(AfterVariantName(n), Group(Paren, RenderUnnamed(fs)), Items(fs, [], []));
    assert AfterVariantName(n).attr + [] == [];
  }

  lemma VariantNamedStep(n: string, fs: seq<NamedField>)
    requires |fs| > 0 && forall i :: 0 <= i < |fs| ==> PlainNamedField(fs[i])
    ensures var s1 := AfterVariantName(n);
      VariantStep(s1, Group(Brace, RenderNamed(fs))) ==
        Next(s1.(fields := Named(fs, []), phase := GotFieldValue, whole := s1.whole + [Group(Brace, RenderNamed(fs))]))
  {
    NamedFieldsRoundTrip(fs);
    VariantBraceStep(AfterVariantName(n), Group(Brace, RenderNamed(fs)), Items(fs, [], []));
    assert AfterVariantName(n).attr + [] == [];
  }

  lemma VariantFieldsStep(v: EnumVariant)
    requires PlainVariant(v) && !v.fields.Unit?
    ensures VariantStep(AfterVariantName(v.name), FieldsGroup(v.fields)[0]) == Next(AfterVariantFields(v))
  {
    match v.fields
    case Unnamed(fs, _) => VariantUnnamedStep(v.name, fs);
    case Named(fs, _) => VariantNamedStep(v.name, fs);
  }

  lemma VariantFieldsRun(v: EnumVariant, tail: seq<Token>)
    requires PlainVariant(v)
    ensures VariantRun(AfterVariantName(v.name), FieldsGroup(v.fields) + tail) == VariantRun(AfterVariantFields(v), tail)
  {
    if v.fields.Unit? {
      assert FieldsGroup(v.fields) + tail == tail;
    } else {
      VariantFieldsStep(v);
      assert FieldsGroup(v.fields) == [FieldsGroup(v.fields)[0]];
      VariantRunNext(AfterVariantName(v.name), FieldsGroup(v.fields)[0], tail, AfterVariantFields(v));
    }
  }

  lemma VariantEqualStep(st: VariantState)
    requires st.phase.GotFieldName? || st.phase.GotFieldValue?
    ensures VariantStep(st, Punct('=')) == Next(st.(phase := GotEqual, whole := st.whole + [Punct('=')]))
  {
    assert Is(Punct('='), "=");
  }

  lemma VariantDefaultStep(st: VariantState)
    requires st.phase.GotEqual?
    ensures VariantStep(st, Ident("default")) ==
      Next(st.(isDefault := true, phase := GotDefault, whole := st.whole + [Ident("default")]))
  {
  }

  /** `= default` after the name or the field list marks the variant as the default. */
  lemma VariantDefaultRun(st: VariantState, tail: seq<Token>)
    requires st.phase.GotFieldName? || st.phase.GotFieldValue?
    ensures VariantRun(st, DefaultMark(true) + tail) ==
      VariantRun(st.(isDefault := true, phase := GotDefault, whole := st.whole + DefaultMark(true)), tail)
  {
    var s3 := st.(phase := GotEqual, whole := st.whole + [Punct('=')]);
    assert DefaultMark(true) + tail == [Punct('=')] + ([Ident("default")] + tail);
    VariantEqualStep(st);
    VariantRunNext(st, Punct('='), [Ident("default")] + tail, s3);
    VariantDefaultStep(s3);
    assert s3.whole + [Ident("default")] == st.whole + DefaultMark(true);
    VariantRunNext(s3, Ident("default"), tail, st.(isDefault := true, phase := GotDefault, whole := st.whole + DefaultMark(true)));
  }

  lemma VariantMarkRun(v: EnumVariant, tail: seq<Token>)
    ensures VariantRun(AfterVariantFields(v), DefaultMark(v.isDefault) + tail) == VariantRun(AfterVariantMark(v), tail)
  {
    if v.isDefault {
      VariantDefaultRun(AfterVariantFields(v), tail);
    } else {
      assert DefaultMark(v.isDefault) + tail == tail;
    }
  }

  lemma VariantCommaRun(v: EnumVariant, rest: seq<Token>)
    ensures VariantRun(AfterVariantMark(v), [Punct(',')] + rest) == Ok((AfterVariantMark(v).(phase := GotComma), rest))
  {
    assert Is(Punct(','), ",");
    VariantRunStop(AfterVariantMark(v), Punct(','), rest, AfterVariantMark(v).(phase := GotComma));
  }

  lemma VariantTokens(v: EnumVariant, rest: seq<Token>)
    ensures RenderVariant(v) + rest ==
      [Ident(v.name)] + (FieldsGroup(v.fields) + (DefaultMark(v.isDefault) + ([Punct(',')] + rest)))
  {
  }

  lemma VariantRunAll(v: EnumVariant, rest: seq<Token>)
    requires PlainVariant(v)
    ensures VariantRun(VariantStart, RenderVariant(v) + rest) == Ok((AfterVariantMark(v).(phase := GotComma), rest))
  {
    var tail := DefaultMark(v.isDefault) + ([Punct(',')] + rest);
    VariantTokens(v, rest);
    VariantNameRun(v.name, FieldsGroup(v.fields) + tail);
    VariantFieldsRun(v, tail);
    VariantMarkRun(v, [Punct(',')] + rest);
    VariantCommaRun(v, rest);
  }

  /** A plain variant is parsed back from its rendering. */
  lemma VariantRoundTrip(v: EnumVariant, rest: seq<Token>)
    requires PlainVariant(v)
    ensures EnumVariantParse(RenderVariant(v) + rest) == Ok((Item(v), rest))
  {
    VariantRunAll(v, rest);
    var e := AfterVariantMark(v).(phase := GotComma);
    assert e.attr == [] && e.name == Some(v.name) && e.fields == v.fields && e.isDefault == v.isDefault && e.pt.PlainVariant?;
  }

  /** A list of plain variants, between braces, is parsed back in order. */
  lemma {:induction false} VariantItemsRoundTrip(vs: seq<EnumVariant>)
    requires forall i :: 0 <= i < |vs| ==> PlainVariant(vs[i])
    ensures VariantItems(RenderVariants(vs)) == Ok(Items(vs, [], []))
  {
    if |vs| == 0 {
      assert VariantRun(VariantStart, []) == Ok((VariantStart, []));
    } else {
      VariantRoundTrip(vs[0], RenderVariants(vs[1..]));
      VariantItemsRoundTrip(vs[1..]);
      assert [vs[0]] + vs[1..] == vs;
    }
  }

  // ---------------------------------------------------------------- data types

  /** A struct or enum without attributes, generics, a `where` clause or
      enclosed types, whose fields and variants are plain. */
  predicate PlainData(d: Data)
  {
    match d
    case StructData(s) =>
      s.attributes == [] && s.generics == [] && s.whereCondition == [] &&
      PlainVisibility(s.visibility) && PlainFields(s.fields)
    case EnumData(e) =>
      e.attributes == [] && e.generics == [] && e.whereCondition == [] &&
      PlainVisibility(e.visibility) && e.enclosed == [] && |e.variants| > 0 &&
      forall i :: 0 <= i < |e.variants| ==> PlainVariant(e.variants[i])
    case _ => false
  }

  /** `;`, `(T, U,);` or `{ x: T, y: U, }` after a struct's name. */
  function StructBody(f: Fields): seq<Token>
  {
    match f
    case Unit => [Punct(';')]
    case Unnamed(fs, _) => [Group(Paren, RenderUnnamed(fs)), Punct(';')]
    case Named(fs, _) => [Group(Brace, RenderNamed(fs))]
  }

  /** `pub struct Name body` or `pub enum Name { variants }`; the other
      kinds of item have no rendering here. */
  function RenderData(d: Data): seq<Token>
  {
    match d
    case StructData(s) => s.visibility + [Ident("struct"), Ident(s.name)] + StructBody(s.fields)
    case EnumData(e) => e.visibility + [Ident("enum"), Ident(e.name), Group(Brace, RenderVariants(e.variants))]
    case _ => []
  }

  function RenderDatas(ds: seq<Data>): seq<Token>
  {
    if |ds| == 0 then [] else RenderData(ds[0]) + RenderDatas(ds[1..])
  }

  /** The state after the visibility. */
  function AfterDataVisibility(vis: seq<Token>): DataState
  {
    if vis == PUB then DataStart.(vis := PUB, phase := GotPub) else DataStart
  }

  /** The state after the name that follows the keyword `kw`. */
  function AfterDataName(vis: seq<Token>, kw: string, n: string): DataState
  {
    AfterDataVisibility(vis).(kind := KeywordKind(kw), phase := GotName, name := Some(n))
  }

  lemma DataPubStep(k: bool)
    ensures DataStep(DataStart, Ident("pub"), k) == Next(DataStart.(vis := PUB, phase := GotPub))
  {
  }

  lemma DataKeywordStep(st: DataState, kw: string, k: bool)
    requires (st.phase.Beginning? || st.phase.GotPub?) && st.kind.UnknownKind?
    requires kw == "struct" || kw == "enum"
    ensures DataStep(st, Ident(kw), k) == Next(st.(kind := KeywordKind(kw), phase := GotType))
  {
  }

  lemma DataVisibilityRun(vis: seq<Token>, tail: seq<Token>, k: bool)
    requires PlainVisibility(vis)
    ensures DataRun(DataStart, vis + tail, k) == DataRun(AfterDataVisibility(vis), tail, k)
  {
    if vis == PUB {
      DataPubStep(k);
      DataRunNext(DataStart, Ident("pub"), tail, k, AfterDataVisibility(vis));
    } else {
      assert vis + tail == tail;
    }
  }

  /** Visibility, keyword and name. */
  lemma DataHeadRun(vis: seq<Token>, kw: string, n: string, tail: seq<Token>, k: bool)
    requires PlainVisibility(vis) && (kw == "struct" || kw == "enum")
    ensures DataRun(DataStart, vis + [Ident(kw), Ident(n)] + tail, k) == DataRun(AfterDataName(vis, kw, n), tail, k)
  {
    var s0 := AfterDataVisibility(vis);
    var s1 := s0.(kind := KeywordKind(kw), phase := GotType);
    assert vis + [Ident(kw), Ident(n)] + tail == vis + ([Ident(kw)] + ([Ident(n)] + tail));
    DataVisibilityRun(vis, [Ident(kw)] + ([Ident(n)] + tail), k);
    DataKeywordStep(s0, kw, k);
    DataRunNext(s0, Ident(kw), [Ident(n)] + tail, k, s1);
    NameStep(s1, n, k);
    DataRunNext(s1, Ident(n), tail, k, AfterDataName(vis, kw, n));
  }

  /** The step after a struct's name, for each of the three bodies. */
  lemma UnitBodyStep(st: DataState, k: bool)
    requires st.phase.GotName? && st.kind.StructUnitKind?
    ensures DataStep(st, Punct(';'), k) == Stop(st.(phase := GotSemicolon))
  {
    assert Is(Punct(';'), ";");
  }

  lemma ParenBodyStep(st: DataState, t: Token, k: bool)
    requires st.phase.GotName? && st.kind.StructUnitKind? && t.Group? && t.delim.Paren?
    ensures DataStep(st, t, k) == Next(st.(kind := StructUnnamedKind, body := t.inner, phase := GotBody))
  {
    assert TokenString(t)[0] == '(';
  }

  lemma ParenSemicolonStep(st: DataState, k: bool)
    requires st.phase.GotBody? && st.kind.StructUnnamedKind?
    ensures DataStep(st, Punct(';'), k) == Stop(st.(phase := GotSemicolon))
  {
    assert Is(Punct(';'), ";");
  }

  lemma BraceBodyStep(st: DataState, t: Token, k: bool)
    requires st.phase.GotName? && (st.kind.StructUnitKind? || st.kind.EnumKind?) && t.Group? && t.delim.Brace?
    ensures DataStep(st, t, k) ==
      Stop(st.(kind := if st.kind.EnumKind? then EnumKind else StructNamedKind, body := t.inner, phase := GotBody))
  {
    assert TokenString(t)[0] == '{';
  }

  /** The state a struct's body leaves the run in. */
  function StructEnd(s: Struct): DataState
  {
    var st := AfterDataName(s.visibility, "struct", s.name);
    match s.fields
    case Unit => st.(phase := GotSemicolon)
    case Unnamed(fs, _) => st.(kind := StructUnnamedKind, body := RenderUnnamed(fs), phase := GotSemicolon)
    case Named(fs, _) => st.(kind := StructNamedKind, body := RenderNamed(fs), phase := GotBody)
  }

  lemma StructBodyRun(s: Struct, rest: seq<Token>, k: bool)
    ensures DataRun(AfterDataName(s.visibility, "struct", s.name), StructBody(s.fields) + rest, k) ==
      Ok((StructEnd(s), rest))
  {
    var st := AfterDataName(s.visibility, "struct", s.name);
    match s.fields
    case Unit =>
      UnitBodyStep(st, k);
      DataRunStop(st, Punct(';'), rest, k, StructEnd(s));
    case Unnamed(fs, _) =>
      var t := Group(Paren, RenderUnnamed(fs));
      var s1 := st.(kind := StructUnnamedKind, body := t.inner, phase := GotBody);
      assert StructBody(s.fields) + rest == [t] + ([Punct(';')] + rest);
      ParenBodyStep(st, t, k);
      DataRunNext(st, t, [Punct(';')] + rest, k, s1);
      ParenSemicolonStep(s1, k);
      DataRunStop(s1, Punct(';'), rest, k, StructEnd(s));
    case Named(fs, _) =>
      var t := Group(Brace, RenderNamed(fs));
      BraceBodyStep(st, t, k);
      DataRunStop(st, t, rest, k, StructEnd(s));
  }

  lemma StructRun(s: Struct, rest: seq<Token>, k: bool)
    requires PlainVisibility(s.visibility)
    ensures DataRun(DataStart, RenderData(StructData(s)) + rest, k) == Ok((StructEnd(s), rest))
  {
    assert RenderData(StructData(s)) + rest == s.visibility + [Ident("struct"), Ident(s.name)] + (StructBody(s.fields) + rest);
    DataHeadRun(s.visibility, "struct", s.name, StructBody(s.fields) + rest, k);
    StructBodyRun(s, rest, k);
  }

  /** `Build` gives the struct back from the state its rendering ends in. */
  lemma StructBuild(s: Struct)
    requires PlainData(StructData(s))
    ensures Complete(StructEnd(s)) && StructEnd(s).name.Some? && Build(StructEnd(s)) == Ok(StructData(s))
  {
    var st := StructEnd(s);
    assert st.vis == s.visibility && st.attr + [] == [];
    match s.fields
    case Unit =>
    case Unnamed(fs, _) =>
      UnnamedFieldsRoundTrip(fs);
    case Named(fs, _) =>
      NamedFieldsRoundTrip(fs);
  }

  /** A plain struct is parsed back from its rendering, the rest left over. */
  lemma StructRoundTrip(s: Struct, rest: seq<Token>, k: bool)
    requires PlainData(StructData(s))
    ensures ParseOptionData(RenderData(StructData(s)) + rest, k) == Ok((Some(StructData(s)), rest))
  {
    StructRun(s, rest, k);
    StructBuild(s);
  }

  function EnumEnd(e: Enum): DataState
  {
    AfterDataName(e.visibility, "enum", e.name).(body := RenderVariants(e.variants), phase := GotBody)
  }

  lemma EnumRun(e: Enum, rest: seq<Token>, k: bool)
    requires PlainVisibility(e.visibility)
    ensures DataRun(DataStart, RenderData(EnumData(e)) + rest, k) == Ok((EnumEnd(e), rest))
  {
    var t := Group(Brace, RenderVariants(e.variants));
    var st := AfterDataName(e.visibility, "enum", e.name);
    assert RenderData(EnumData(e)) + rest == e.visibility + [Ident("enum"), Ident(e.name)] + ([t] + rest);
    DataHeadRun(e.visibility, "enum", e.name, [t] + rest, k);
    BraceBodyStep(st, t, k);
    DataRunStop(st, t, rest, k, EnumEnd(e));
  }

  lemma EnumBuild(e: Enum)
    requires PlainData(EnumData(e))
    ensures Complete(EnumEnd(e)) && EnumEnd(e).name.Some? && Build(EnumEnd(e)) == Ok(EnumData(e))
  {
    VariantItemsRoundTrip(e.variants);
    var st := EnumEnd(e);
    assert st.vis == e.visibility && st.attr + [] == [];
  }

  /** A plain enum is parsed back from its rendering, the rest left over. */
  lemma EnumRoundTrip(e: Enum, rest: seq<Token>, k: bool)
    requires PlainData(EnumData(e))
    ensures ParseOptionData(RenderData(EnumData(e)) + rest, k) == Ok((Some(EnumData(e)), rest))
  {
    EnumRun(e, rest, k);
    EnumBuild(e);
  }

  /** `Option<Data>::parse_from` reads a plain data type back from the front of a stream. */
  lemma DataRoundTrip(d: Data, rest: seq<Token>, k: bool)
    requires PlainData(d)
    ensures ParseOptionData(RenderData(d) + rest, k) == Ok((Some(d), rest))
  {
    match d
    case StructData(s) => StructRoundTrip(s, rest, k);
    case EnumData(e) => EnumRoundTrip(e, rest, k);
  }

  /** `Data::parse_from` reads a plain data type back from its rendering. */
  lemma ParseDataRoundTrip(d: Data)
    requires PlainData(d)
    ensures ParseData(RenderData(d)) == Ok(d)
  {
    DataRoundTrip(d, [], true);
    assert RenderData(d) + [] == RenderData(d);
    ParseOptionDataNone([], true);
  }

  /** The root loop reads back every data type of a rendered list, in order. */
  lemma {:induction false} RootItemsRoundTrip(ds: seq<Data>)
    requires forall i :: 0 <= i < |ds| ==> PlainData(ds[i])
    ensures RootItems(RenderDatas(ds)) == Ok(ds)
  {
    if |ds| == 0 {
      ParseOptionDataNone([], true);
    } else {
      DataRoundTrip(ds[0], RenderDatas(ds[1..]), true);
      RootItemsRoundTrip(ds[1..]);
      assert [ds[0]] + ds[1..] == ds;
    }
  }

  lemma {:induction false} NonDebugKeeps(ds: seq<Data>)
    requires forall i :: 0 <= i < |ds| ==> !ds[i].DebugFlag?
    ensures NonDebug(ds) == ds
  {
    if |ds| > 0 {
      NonDebugKeeps(ds[..|ds| - 1]);
      assert ds[..|ds| - 1] + [ds[|ds| - 1]] == ds;
    }
  }

  /** `Root::parse_from` reads a non-empty list of plain data types back
      from its rendering, with no `debug` marker. */
  lemma FilterDebugKeeps(ds: seq<Data>)
    requires |ds| > 0 && forall i :: 0 <= i < |ds| ==> PlainData(ds[i])
    ensures FilterDebug(ds) == Ok(Root(false, ds))
  {
    NonDebugKeeps(ds);
    assert DebugFlag !in ds;
  }

  lemma ParseRootRoundTrip(ds: seq<Data>)
    requires |ds| > 0 && forall i :: 0 <= i < |ds| ==> PlainData(ds[i])
    ensures ParseRoot(RenderDatas(ds)) == Ok(Root(false, ds))
  {
    var ts := RenderDatas(ds);
    RootItemsRoundTrip(ds);
    FilterDebugKeeps(ds);
    assert ParseRoot(ts) == FilterDebug(ds);
  }
}
