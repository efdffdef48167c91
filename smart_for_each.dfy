// The option front end of `smart_for_each!` (macros/src/smart_for_each.rs):
// the variable and substep names, the options `each_nd`, `whole_nd`,
// `index`, `arms` and `debug`, the `arms(...)` state machine, and the
// conversion of one arm into a `par_for_each!` invocation. `split_ts`,
// `check_mut_flag` and `FnParse::parse` of this file are the same code as
// in macros/src/for_each.rs and use the members of `ForEachUtils`.
module SmartForEach {
  import opened Wrappers
  import opened Tokens
  import opened ForEachUtils
  import opened ForEachInput

  // ---------------------------------------------------------------- names

  /** The field variables φ, ν, c, μ, T and e. */
  datatype Var = Phi | Nu | C | Mu | T | E

  function VarName(v: Var): string
  {
    match v
    case Phi => "φ" case Nu => "ν" case C => "c" case Mu => "μ" case T => "T" case E => "e"
  }

  /** `Var::from_str` */
  function VarFromStr(s: string): (r: Option<Var>)
    ensures r.Some? ==> VarName(r.value) == s
  {
    if s == "φ" then Some(Phi)
    else if s == "ν" then Some(Nu)
    else if s == "c" then Some(C)
    else if s == "μ" then Some(Mu)
    else if s == "T" then Some(T)
    else if s == "e" then Some(E)
    else None
  }

  /** `index_ident`: the name of the index of a variable. */
  function IndexIdent(v: Var): string
  {
    "i" + VarName(v)
  }

  /** `from_str` accepts exactly the six names, each naming its own variable. */
  lemma VarNames(v: Var, s: string)
    ensures VarFromStr(VarName(v)) == Some(v)
    ensures VarFromStr(s).Some? <==> s in {"φ", "ν", "c", "μ", "T", "e"}
  {
  }

  /** Distinct variables have distinct index names. */
  lemma IndexIdentInjective(v: Var, w: Var)
    ensures IndexIdent(v) == IndexIdent(w) ==> v == w
  {
    if IndexIdent(v) == IndexIdent(w) {
      assert VarName(v) == IndexIdent(v)[1..];
      assert VarName(w) == IndexIdent(w)[1..];
      VarNames(v, "");
      VarNames(w, "");
    }
  }

  /** The substeps φ, c, T and `None`. */
  datatype Substep = SubPhi | SubC | SubT | SubNone

  function SubstepName(s: Substep): string
  {
    match s
    case SubPhi => "φ" case SubC => "c" case SubT => "T" case SubNone => "None"
  }

  /** `Substep::from_str` */
  function SubstepFromStr(s: string): (r: Option<Substep>)
    ensures r.Some? ==> SubstepName(r.value) == s
  {
    if s == "φ" then Some(SubPhi)
    else if s == "c" then Some(SubC)
    else if s == "T" then Some(SubT)
    else if s == "None" then Some(SubNone)
    else None
  }

  lemma SubstepNames(ss: Substep, s: string)
    ensures SubstepFromStr(SubstepName(ss)) == Some(ss)
    ensures SubstepFromStr(s).Some? <==> s in {"φ", "c", "T", "None"}
  {
  }

  // ---------------------------------------------------------------- data

  datatype Arm = Arm(ss: Substep, vars: seq<Var>)

  datatype Arg =
    | Index(t: Option<string>, i: string, j: string, size: seq<Token>)
    | Nd(variable: string, arrayExpr: seq<Token>, mutable: bool, each: bool)

  /** The fields of `Input` that parsing fills in. */
  datatype SmartView = SmartView(debug: bool, arms: seq<Arm>, args: seq<Arg>, body: Option<seq<Token>>)

  /** The arms used when no `arms(...)` option is given. */
  const DefaultArms: seq<Arm> := [
    Arm(SubNone, [Phi, Nu, C, Mu, T, E]),
    Arm(SubPhi, [Phi, Nu]),
    Arm(SubC, [C, Mu]),
    Arm(SubT, [T, E])]

  const InitialSmart := SmartView(false, DefaultArms, [], None)

  // ---------------------------------------------------------------- parse_arm

  /** One step of `parse_arm`'s loop: `step` 0 expects a substep, 1 the `-`,
      2 the `>`, 3 variables or the `,` closing the arm. */
  function ParseArmFrom(step: nat, ss: Option<Substep>, vars: seq<Var>, arms: seq<Arm>, ts: seq<Token>): Option<seq<Arm>>
    requires step <= 3 && (step > 0 <==> ss.Some?)
    decreases |ts|
  {
    if |ts| == 0 then
      Some(if ss.Some? then arms + [Arm(ss.value, vars)] else arms)
    else
      var tt := ts[0];
      if step == 0 && tt.Ident? then
        match SubstepFromStr(tt.name)
        case None => None
        case Some(s) => ParseArmFrom(1, Some(s), vars, arms, ts[1..])
      else if step == 1 && tt == Punct('-') then ParseArmFrom(2, ss, vars, arms, ts[1..])
      else if step == 2 && tt == Punct('>') then ParseArmFrom(3, ss, vars, arms, ts[1..])
      else if step == 3 && tt.Ident? then
        match VarFromStr(tt.name)
        case None => None
        case Some(v) => ParseArmFrom(3, ss, vars + [v], arms, ts[1..])
      else if step == 3 && tt == Punct(',') then ParseArmFrom(0, None, [], arms + [Arm(ss.value, vars)], ts[1..])
      else None
  }

  /** `parse_arm` */
  function ParseArm(ts: seq<Token>): Option<seq<Arm>>
  {
    ParseArmFrom(0, None, [], [], ts)
  }

  /** `parse_arm` with its loop over the tokens. */
  method ParseArmLoop(ts: seq<Token>) returns (r: Option<seq<Arm>>)
    ensures r == ParseArm(ts)
  {
    var step: nat := 0;
    var ss: Option<Substep> := None;
    var vars: seq<Var> := [];
    var arms: seq<Arm> := [];
    for i := 0 to |ts|
      invariant step <= 3 && (step > 0 <==> ss.Some?)
      invariant ParseArmFrom(step, ss, vars, arms, ts[i..]) == ParseArm(ts)
    {
      var tt := ts[i];
      assert ts[i..][0] == tt && ts[i..][1..] == ts[i + 1..];
      if step == 0 && tt.Ident? {
        step := 1;
        ss := SubstepFromStr(tt.name);
        if ss.None? {
          return None;
        }
      } else if step == 1 && tt == Punct('-') {
        step := 2;
      } else if step == 2 && tt == Punct('>') {
        step := 3;
      } else if step == 3 && tt.Ident? {
        var v := VarFromStr(tt.name);
        if v.None? {
          return None;
        }
        vars := vars + [v.value];
      } else if step == 3 && tt == Punct(',') {
        step := 0;
        arms := arms + [Arm(ss.value, vars)];
        ss := None;
        vars := [];
      } else {
        return None;
      }
    }
    assert ts[|ts|..] == [];
    if ss.Some? {
      arms := arms + [Arm(ss.value, vars)];
    }
    return Some(arms);
  }

  /** The tokens of the variables of an arm. */
  function VarTokens(vars: seq<Var>): (ts: seq<Token>)
    ensures |ts| == |vars| && forall k :: 0 <= k < |vars| ==> ts[k] == Ident(VarName(vars[k]))
  {
    seq(|vars|, k requires 0 <= k < |vars| => Ident(VarName(vars[k])))
  }

  /** `ss -> v1 v2 …` */
  function ArmTokens(a: Arm): seq<Token>
  {
    [Ident(SubstepName(a.ss)), Punct('-'), Punct('>')] + VarTokens(a.vars)
  }

  /** Every arm written out and closed by a comma. */
  function RenderArms(arms: seq<Arm>): seq<Token>
  {
    if |arms| == 0 then [] else RenderArms(arms[..|arms| - 1]) + ArmTokens(arms[|arms| - 1]) + [Punct(',')]
  }

  lemma {:induction false} VarsRead(ss: Substep, vars: seq<Var>, more: seq<Var>, arms: seq<Arm>, rest: seq<Token>)
    ensures ParseArmFrom(3, Some(ss), vars, arms, VarTokens(more) + rest) == ParseArmFrom(3, Some(ss), vars + more, arms, rest)
    decreases |more|
  {
    if |more| == 0 {
      assert VarTokens(more) + rest == rest;
      assert vars + more == vars;
    } else {
      var ts := VarTokens(more) + rest;
      assert ts[0] == Ident(VarName(more[0]));
      VarNames(more[0], "");
      assert ts[1..] == VarTokens(more[1..]) + rest;
      VarsRead(ss, vars + [more[0]], more[1..], arms, rest);
      assert vars + [more[0]] + more[1..] == vars + more;
    }
  }

  lemma ArmRead(a: Arm, arms: seq<Arm>, rest: seq<Token>)
    ensures ParseArmFrom(0, None, [], arms, ArmTokens(a) + rest) == ParseArmFrom(3, Some(a.ss), a.vars, arms, rest)
  {
    var ts := ArmTokens(a) + rest;
    SubstepNames(a.ss, "");
    assert ts[0] == Ident(SubstepName(a.ss)) && ts[1] == Punct('-') && ts[2] == Punct('>');
    assert ts[1..][1..] == ts[2..] && ts[2..][1..] == ts[3..];
    assert ts[3..] == VarTokens(a.vars) + rest;
    calc {
      ParseArmFrom(0, None, [], arms, ts);
      ParseArmFrom(1, Some(a.ss), [], arms, ts[1..]);
      ParseArmFrom(2, Some(a.ss), [], arms, ts[2..]);
      ParseArmFrom(3, Some(a.ss), [], arms, ts[3..]);
    }
    VarsRead(a.ss, [], a.vars, arms, rest);
    assert [] + a.vars == a.vars;
  }

  lemma {:induction false} RenderedArmsRead(arms: seq<Arm>, rest: seq<Token>)
    ensures ParseArmFrom(0, None, [], [], RenderArms(arms) + rest) == ParseArmFrom(0, None, [], arms, rest)
    decreases |arms|
  {
    if |arms| > 0 {
      var n := |arms|;
      var a := arms[n - 1];
      var tail := ArmTokens(a) + ([Punct(',')] + rest);
      assert RenderArms(arms) + rest == RenderArms(arms[..n - 1]) + tail;
      RenderedArmsRead(arms[..n - 1], tail);
      ArmRead(a, arms[..n - 1], [Punct(',')] + rest);
      assert ([Punct(',')] + rest)[1..] == rest;
      assert arms[..n - 1] + [a] == arms;
    } else {
      assert RenderArms(arms) + rest == rest;
    }
  }

  /** `parse_arm` reads written-out arms back, whether or not the last one
      is closed by a comma. */
  lemma ParseArmRoundTrip(arms: seq<Arm>, last: Arm)
    ensures ParseArm(RenderArms(arms)) == Some(arms)
    ensures ParseArm(RenderArms(arms) + ArmTokens(last)) == Some(arms + [last])
  {
    RenderedArmsRead(arms, []);
    assert RenderArms(arms) + [] == RenderArms(arms);
    RenderedArmsRead(arms, ArmTokens(last));
    ArmRead(last, arms, []);
    assert ArmTokens(last) + [] == ArmTokens(last);
  }

  /** An unknown substep name, an unknown variable name or a stray token
      rejects the whole option. */
  lemma ParseArmRejects(name: string, a: Arm, rest: seq<Token>)
    ensures SubstepFromStr(name).None? ==> ParseArm([Ident(name)] + rest) == None
    ensures VarFromStr(name).None? ==> ParseArm(ArmTokens(a) + [Ident(name)] + rest) == None
    ensures ParseArm([Punct(',')] + rest) == None
  {
    ArmRead(a, [], [Ident(name)] + rest);
    assert ArmTokens(a) + [Ident(name)] + rest == ArmTokens(a) + ([Ident(name)] + rest);
  }

  /** A substep whose `->` never came still makes an arm, with no variables. */
  lemma PendingSubstep(ss: Substep)
    ensures ParseArm([Ident(SubstepName(ss))]) == Some([Arm(ss, [])])
  {
    SubstepNames(ss, "");
    var ts := [Ident(SubstepName(ss))];
    assert ts[1..] == [];
    assert SubstepFromStr(ts[0].name) == Some(ss);
    assert ParseArmFrom(0, None, [], [], ts) == ParseArmFrom(1, Some(ss), [], [], []);
    assert ParseArmFrom(1, Some(ss), [], [], []) == Some([] + [Arm(ss, [])]);
    assert [] + [Arm(ss, [])] == [Arm(ss, [])];
    assert ParseArm(ts) == Some([Arm(ss, [])]);
  }

  // ---------------------------------------------------------------- match_arg

  /** `each_nd`, `mut each_nd` and `whole_nd`, with `mut` optionally before
      the array instead; `mut` in both places is rejected. */
  function NdArg(p: FnCall): Option<Arg>
  {
    var kind :=
      if p.name == "each_nd" then Some((false, true))
      else if p.name == "mut each_nd" then Some((true, true))
      else if p.name == "whole_nd" then Some((false, false))
      else None;
    if kind.None? then None
    else
      var (mutableName, each) := kind.value;
      var (mutFlag, arr) := CheckMutFlag(p.args);
      if mutFlag && mutableName then None
      else
        match (ParseIdent(if |p.vars| > 0 then p.vars else arr), ParseExpr(arr))
        case (Some(v), Some(a)) => Some(Nd(v, a, mutableName || mutFlag, each))
        case _ => None
  }

  /** `t, i, j = index(size)` and `i, j = index(size)`. */
  function IndexArg(p: FnCall): Option<Arg>
  {
    if |p.vars| == 0 || p.name != "index" then None
    else
      var vs := SplitTs(p.vars);
      var names :=
        if |vs| == 3 then
          match (ParseIdent(vs[0]), ParseIdent(vs[1]), ParseIdent(vs[2]))
          case (Some(t), Some(i), Some(j)) => Some((Some(t), i, j))
          case _ => None
        else if |vs| == 2 then
          match (ParseIdent(vs[0]), ParseIdent(vs[1]))
          case (Some(i), Some(j)) => Some((None, i, j))
          case _ => None
        else None;
      var size := ParseExpr(p.args);
      if names.Some? && size.Some? then Some(Index(names.value.0, names.value.1, names.value.2, size.value))
      else None
  }

  /** `match_arg`: the first option form that accepts `p`, applied to the state. */
  function SmartMatchArg(st: SmartView, p: FnCall): (r: Result<SmartView, string>)
    ensures r.Ok? ==> r.value.body == st.body
  {
    var a := NdArg(p);
    if a.Some? then Ok(st.(args := st.args + [a.value])) else
    var a := IndexArg(p);
    if a.Some? then Ok(st.(args := st.args + [a.value])) else
    var arms := if |p.vars| == 0 && p.name == "arms" then ParseArm(p.args) else None;
    if arms.Some? then Ok(st.(arms := arms.value))
    else if |p.vars| == 0 && |p.args| == 0 && p.name == "debug" then Ok(st.(debug := true))
    else Err(PARSE_FAILED)
  }

  /** `index` takes two variables, or three with the time index first. */
  lemma IndexVariableCount(p: FnCall)
    requires IndexArg(p).Some?
    ensures |SplitTs(p.vars)| == 2 || |SplitTs(p.vars)| == 3
    ensures IndexArg(p).value.t.Some? <==> |SplitTs(p.vars)| == 3
  {
  }

  /** `mut each_nd(mut a)` is not an option of any form. */
  lemma DoubleMutRejected(st: SmartView, vars: seq<Token>, arr: seq<Token>)
    ensures SmartMatchArg(st, FnCall(vars, "mut each_nd", [Ident("mut")] + arr)) == Err(PARSE_FAILED)
  {
    var p := FnCall(vars, "mut each_nd", [Ident("mut")] + arr);
    assert CheckMutFlag(p.args).0;
  }

  /** A readable `arms(...)` replaces every default arm; one that is not
      readable fails. */
  lemma ArmsReplace(st: SmartView, args: seq<Token>)
    ensures var r := SmartMatchArg(st, FnCall([], "arms", args));
      (ParseArm(args).Some? ==> r == Ok(st.(arms := ParseArm(args).value))) &&
      (ParseArm(args).None? ==> r == Err(PARSE_FAILED))
  {
  }

  // ---------------------------------------------------------------- Input::parse

  /** The loop of `Input::parse` over the remaining tokens; `current` is the
      option being read. */
  function SmartParseLoop(st: SmartView, current: seq<Token>, ts: seq<Token>): Result<SmartView, string>
    decreases |ts|
  {
    if |ts| == 0 then Ok(st)
    else
      var tt := ts[0];
      if tt.Group? && tt.delim.Paren? then
        match FnParse(current, tt.inner)
        case None => Err(PARSE_FAILED)
        case Some(p) =>
          match SmartMatchArg(st, p)
          case Err(m) => Err(m)
          case Ok(st') => SmartParseLoop(st', [], ts[1..])
      else if tt.Group? && tt.delim.Brace? then SmartParseLoop(st.(body := Some(tt.inner)), current, ts[1..])
      else if tt.Group? then Err(PARSE_FAILED)
      else if tt == Punct(';') then Ok(st.(body := Some(ts[1..])))
      else if st.body.Some? then Err(ARGS_AFTER_BODY)
      else SmartParseLoop(st, current + [tt], ts[1..])
  }

  /** `Input::new`: the default arms, then every option and the body. */
  function SmartParseInput(ts: seq<Token>): (r: Result<SmartView, string>)
    ensures r.Ok? ==> |r.value.args| > 0 && r.value.body.Some?
  {
    match SmartParseLoop(InitialSmart, [], ts)
    case Err(m) => Err(m)
    case Ok(st) =>
      if |st.args| == 0 then Err(NO_ARGS)
      else if st.body.None? then Err(NO_BODY)
      else Ok(st)
  }

  /** The arms after parsing are the defaults, or those of one readable
      `arms(...)` option. */
  lemma {:induction false} ArmsFromOption(st: SmartView, current: seq<Token>, ts: seq<Token>)
    ensures var r := SmartParseLoop(st, current, ts);
      r.Ok? ==> (r.value.arms == st.arms ||
        exists i :: 0 <= i < |ts| && ts[i].Group? && ParseArm(ts[i].inner) == Some(r.value.arms))
    decreases |ts|
  {
    var r := SmartParseLoop(st, current, ts);
    if |ts| > 0 && r.Ok? {
      var tt := ts[0];
      if tt.Group? && tt.delim.Paren? {
        var p := FnParse(current, tt.inner).value;
        var st' := SmartMatchArg(st, p).value;
        ArmsFromOption(st', [], ts[1..]);
        if st'.arms != st.arms {
          assert ParseArm(tt.inner) == Some(st'.arms);
        }
        if r.value.arms != st'.arms {
          var i :| 0 <= i < |ts[1..]| && ts[1..][i].Group? && ParseArm(ts[1..][i].inner) == Some(r.value.arms);
          assert ts[i + 1] == ts[1..][i];
        }
      } else if tt.Group? && tt.delim.Brace? {
        ArmsFromOption(st.(body := Some(tt.inner)), current, ts[1..]);
        if r.value.arms != st.arms {
          var i :| 0 <= i < |ts[1..]| && ts[1..][i].Group? && ParseArm(ts[1..][i].inner) == Some(r.value.arms);
          assert ts[i + 1] == ts[1..][i];
        }
      } else if !tt.Group? && tt != Punct(';') {
        ArmsFromOption(st, current + [tt], ts[1..]);
        if r.value.arms != st.arms {
          var i :| 0 <= i < |ts[1..]| && ts[1..][i].Group? && ParseArm(ts[1..][i].inner) == Some(r.value.arms);
          assert ts[i + 1] == ts[1..][i];
        }
      }
    }
  }

  class Input {
    var debug: bool
    var arms: seq<Arm>
    var args: seq<Arg>
    var body: Option<seq<Token>>

    function View(): SmartView
      reads this
    {
      SmartView(debug, arms, args, body)
    }

    /** The fields as `Input::new` sets them before parsing. */
    constructor ()
      ensures View() == InitialSmart
    {
      debug := false;
      arms := DefaultArms;
      args := [];
      body := None;
    }

    /** `match_arg`, on the fields. */
    method MatchArg(p: FnCall) returns (r: Result<(), string>)
      modifies this
      ensures var spec := SmartMatchArg(old(View()), p);
        (r.Ok? <==> spec.Ok?) && (r.Ok? ==> View() == spec.value) && (r.Err? ==> r.error == spec.error)
    {
      var a := NdArg(p);
      if a.None? {
        a := IndexArg(p);
      }
      if a.Some? {
        args := args + [a.value];
        return Ok(());
      }
      if |p.vars| == 0 && p.name == "arms" {
        var parsed := ParseArmLoop(p.args);
        if parsed.Some? {
          arms := parsed.value;
          return Ok(());
        }
      }
      if |p.vars| == 0 && |p.args| == 0 && p.name == "debug" {
        debug := true;
        return Ok(());
      }
      return Err(PARSE_FAILED);
    }

    /** `Input::parse`: the loop over the tokens and the final checks. */
    method Parse(ts: seq<Token>) returns (r: Result<(), string>)
      modifies this
      ensures var spec := SmartParseLoop(old(View()), [], ts);
        (r.Ok? <==> spec.Ok? && |spec.value.args| > 0 && spec.value.body.Some?) &&
        (r.Ok? ==> View() == spec.value)
    {
      var current: seq<Token> := [];
      var i := 0;
      var done := false;
      while i < |ts| && !done
        invariant 0 <= i <= |ts|
        invariant !done ==> SmartParseLoop(View(), current, ts[i..]) == SmartParseLoop(old(View()), [], ts)
        invariant done ==> SmartParseLoop(old(View()), [], ts) == Ok(View())
        decreases |ts| - i, !done
      {
        var tt := ts[i];
        assert ts[i..][0] == tt && ts[i..][1..] == ts[i + 1..];
        if tt.Group? && tt.delim.Paren? {
          var p := FnParse(current, tt.inner);
          if p.None? {
            return Err(PARSE_FAILED);
          }
          var m := MatchArg(p.value);
          if m.Err? {
            return m;
          }
          current := [];
        } else if tt.Group? && tt.delim.Brace? {
          body := Some(tt.inner);
        } else if tt.Group? {
          return Err(PARSE_FAILED);
        } else if tt == Punct(';') {
          body := Some(ts[i + 1..]);
          done := true;
        } else if body.Some? {
          return Err(ARGS_AFTER_BODY);
        } else {
          current := current + [tt];
        }
        if !done {
          i := i + 1;
        }
      }
      if !done {
        assert ts[i..] == [];
      }
      if |args| == 0 {
        return Err(NO_ARGS);
      }
      if body.None? {
        return Err(NO_BODY);
      }
      return Ok(());
    }
  }

  /** `Input::new`: a fresh `Input` with every option read and the checks made. */
  method NewSmartInput(ts: seq<Token>) returns (input: Input, r: Result<(), string>)
    ensures fresh(input)
    ensures r.Ok? <==> SmartParseInput(ts).Ok?
    ensures r.Ok? ==> input.View() == SmartParseInput(ts).value
  {
    input := new Input();
    r := input.Parse(ts);
  }

  // ---------------------------------------------------------------- Join::slice

  /** `slice`: `[a, b, ]`. */
  function Slice(items: seq<seq<Token>>): seq<Token>
  {
    [Group(Bracket, TupleBody(items, []))]
  }

  /** `slice_mut`: `[mut a, mut b, ]`. */
  function SliceMut(items: seq<seq<Token>>): seq<Token>
  {
    [Group(Bracket, TupleBody(items, MUT))]
  }

  function WithMut(items: seq<seq<Token>>): (r: seq<seq<Token>>)
    ensures |r| == |items| && forall k :: 0 <= k < |items| ==> r[k] == MUT + items[k]
  {
    seq(|items|, k requires 0 <= k < |items| => MUT + items[k])
  }

  lemma {:induction false} TupleBodyMut(items: seq<seq<Token>>)
    ensures TupleBody(items, MUT) == TupleBody(WithMut(items), [])
    decreases |items|
  {
    if |items| > 0 {
      var n := |items|;
      TupleBodyMut(items[..n - 1]);
      assert WithMut(items)[..n - 1] == WithMut(items[..n - 1]);
      assert MUT + items[n - 1] + [COMMA] == [] + WithMut(items)[n - 1] + [COMMA];
    }
  }

  /** Splitting the inside of a `slice` at its commas gives the items back;
      for `slice_mut` each comes back behind `mut`. */
  lemma SliceItems(items: seq<seq<Token>>)
    requires forall k :: 0 <= k < |items| ==> CommaFree(items[k])
    ensures SplitTs(Slice(items)[0].inner) == items
    ensures var parts := SplitTs(SliceMut(items)[0].inner);
      |parts| == |items| && forall k :: 0 <= k < |items| ==> CheckMutFlag(parts[k]) == (true, items[k])
  {
    TupleBodySplit(items);
    TupleBodyMut(items);
    var m := WithMut(items);
    forall k | 0 <= k < |m|
      ensures CommaFree(m[k])
    {
      assert CommaFree(items[k]);
      assert forall i :: 0 <= i < |m[k]| ==> m[k][i] == (if i == 0 then Ident("mut") else items[k][i - 1]);
    }
    TupleBodySplit(m);
    forall k | 0 <= k < |items|
      ensures CheckMutFlag(m[k]) == (true, items[k])
    {
      assert m[k][1..] == items[k];
    }
  }

  // ---------------------------------------------------------------- convert

  const PANIC: seq<Token> := [Ident("panic"), Punct('!'), Group(Paren, [])]

  /** `{var}_{v:?}`: the name of one variable's part of an array. */
  function SplitName(variable: string, v: Var): string
  {
    variable + "_" + VarName(v)
  }

  function SplitItems(variable: string, vars: seq<Var>): (items: seq<seq<Token>>)
    ensures |items| == |vars| && forall k :: 0 <= k < |vars| ==> items[k] == [Ident(SplitName(variable, vars[k]))]
  {
    seq(|vars|, k requires 0 <= k < |vars| => [Ident(SplitName(variable, vars[k]))])
  }

  function IndexItems(vars: seq<Var>): (items: seq<seq<Token>>)
    ensures |items| == |vars| && forall k :: 0 <= k < |vars| ==> items[k] == [Ident(IndexIdent(vars[k]))]
  {
    seq(|vars|, k requires 0 <= k < |vars| => [Ident(IndexIdent(vars[k]))])
  }

  /** `let name = value;` */
  function Let(name: string, value: string): seq<Token>
  {
    [Ident("let"), Ident(name), Punct('='), Ident(value), Punct(';')]
  }

  /** The statements the closure for variable `v` runs before the body for one option. */
  function Binding(arg: Arg, v: Var): seq<Token>
  {
    match arg
    case Index(t, _, _, _) => if t.Some? then Let(t.value, IndexIdent(v)) else []
    case Nd(variable, _, _, _) => Let(variable, SplitName(variable, v))
  }

  /** The statements of the closure for variable `v`, over all options. */
  function BindingsFor(args: seq<Arg>, v: Var): seq<Token>
  {
    if |args| == 0 then [] else BindingsFor(args[..|args| - 1], v) + Binding(args[|args| - 1], v)
  }

  /** `let [a_φ, a_ν, ] = a.split_to_a2([iφ, iν, ]);` */
  function SplitDef(arg: Arg, vars: seq<Var>): seq<Token>
  {
    match arg
    case Index(_, _, _, _) => []
    case Nd(variable, arr, mutable, _) =>
      var items := SplitItems(variable, vars);
      [Ident("let")] + (if mutable then SliceMut(items) else Slice(items)) + [Punct('=')] + arr
        + [Punct('.'), Ident(if mutable then "split_to_a2_mut" else "split_to_a2"), Group(Paren, Slice(IndexItems(vars)))]
        + [Punct(';')]
  }

  /** `each_nd(a_φ)` or `each_nd(mut a_φ)` for every part. */
  function EachOptions(variable: string, mutable: bool, vars: seq<Var>): seq<Token>
  {
    if |vars| == 0 then []
    else
      var s := Ident(SplitName(variable, vars[|vars| - 1]));
      EachOptions(variable, mutable, vars[..|vars| - 1])
        + [Ident("each_nd"), Group(Paren, (if mutable then [Ident("mut"), s] else [s]))]
  }

  /** The `par_for_each!` options one `smart_for_each!` option becomes. */
  function Options(arg: Arg, vars: seq<Var>): seq<Token>
  {
    match arg
    case Index(_, i, j, size) =>
      [Ident(i), Punct(','), Ident(j), Punct('='), Ident("index"),
       Group(Paren, size + [Punct('.'), Lit("0"), Punct(',')] + size + [Punct('.'), Lit("1")])]
    case Nd(variable, _, mutable, each) => if each then EachOptions(variable, mutable, vars) else []
  }

  /** What `convert`'s loop has built after some options: the split
      definitions, the options and one statement list per variable. */
  datatype Pieces = Pieces(varDef: seq<Token>, options: seq<Token>, fracs: seq<seq<Token>>)

  function ConvertArgs(args: seq<Arg>, vars: seq<Var>): (r: Pieces)
    ensures |r.fracs| == |vars|
  {
    if |args| == 0 then Pieces([], [], seq(|vars|, _ => []))
    else
      var p := ConvertArgs(args[..|args| - 1], vars);
      var arg := args[|args| - 1];
      Pieces(p.varDef + SplitDef(arg, vars), p.options + Options(arg, vars),
        seq(|vars|, k requires 0 <= k < |vars| => p.fracs[k] + Binding(arg, vars[k])))
  }

  /** `(|| { frac body })();` for every variable. */
  function Closures(fracs: seq<seq<Token>>, body: seq<Token>): seq<Token>
  {
    if |fracs| == 0 then []
    else
      Closures(fracs[..|fracs| - 1], body)
      + [Group(Paren, [Punct('|'), Punct('|'), Group(Brace, fracs[|fracs| - 1] + body)]), Group(Paren, []), Punct(';')]
  }

  /** `convert`: an arm without variables panics; otherwise the split
      definitions followed by one `par_for_each!` whose body runs the user's
      body once per variable. */
  function ConvertArm(args: seq<Arg>, body: seq<Token>, arm: Arm): seq<Token>
  {
    if |arm.vars| == 0 then PANIC
    else
      var p := ConvertArgs(args, arm.vars);
      p.varDef + [Ident("par_for_each"), Punct('!'), Group(Brace, p.options + [Punct(';')] + Closures(p.fracs, body))]
  }

  /** The statements of closure `k` are exactly those for variable `k`. */
  lemma {:induction false} FracsPerVariable(args: seq<Arg>, vars: seq<Var>)
    ensures forall k :: 0 <= k < |vars| ==> ConvertArgs(args, vars).fracs[k] == BindingsFor(args, vars[k])
  {
    if |args| > 0 {
      FracsPerVariable(args[..|args| - 1], vars);
    }
  }

  /** An arm without variables runs nothing: its code is `panic!()`. An arm
      with variables runs the body once per variable, in a closure that
      first binds every array to that variable's part and the time index to
      that variable's index. */
  lemma ConvertArmMeaning(args: seq<Arg>, body: seq<Token>, arm: Arm)
    ensures |arm.vars| == 0 ==> ConvertArm(args, body, arm) == PANIC
    ensures |arm.vars| > 0 ==>
      var p := ConvertArgs(args, arm.vars);
      ConvertArm(args, body, arm) ==
        p.varDef + [Ident("par_for_each"), Punct('!'),
          Group(Brace, p.options + [Punct(';')] + Closures(seq(|arm.vars|, k requires 0 <= k < |arm.vars| => BindingsFor(args, arm.vars[k])), body))]
  {
    if |arm.vars| > 0 {
      FracsPerVariable(args, arm.vars);
      var p := ConvertArgs(args, arm.vars);
      assert p.fracs == seq(|arm.vars|, k requires 0 <= k < |arm.vars| => BindingsFor(args, arm.vars[k]));
    }
  }
}
