// The argument front end of `for_each!` (macros/src/for_each.rs, module
// `input`): `Input::new`/`Input::parse`, which read the options
// `vars = name(args)` up to the loop body, `match_arg`, which recognises
// one option, and the reduction helpers `parse_reduction_args` and
// `reduction_op`. The `syn::parse2` calls are the stand-ins below; the
// `src` string kept for debug output and the execution mode stored beside
// the options are not modelled.
module ForEachInput {
  import opened Wrappers
  import opened Tokens
  import opened ForEachUtils

  // ---------------------------------------------------------------- syn stand-ins

  /** `parse2::<Ident>`: a single identifier. */
  function ParseIdent(ts: seq<Token>): (r: Option<string>)
    ensures r.Some? <==> |ts| == 1 && ts[0].Ident?
    ensures r.Some? ==> ts == [Ident(r.value)]
  {
    if |ts| == 1 && ts[0].Ident? then Some(ts[0].name) else None
  }

  /** `parse2::<Expr>` and `parse2::<Meta>`: a non-empty stream without a
      top-level comma. */
  function ParseExpr(ts: seq<Token>): (r: Option<seq<Token>>)
    ensures r.Some? <==> |ts| > 0 && CommaFree(ts)
    ensures r.Some? ==> r.value == ts
  {
    if |ts| > 0 && CommaFree(ts) then Some(ts) else None
  }

  /** `parse2::<Type>`: a non-empty stream. */
  function ParseType(ts: seq<Token>): (r: Option<seq<Token>>)
    ensures r.Some? <==> |ts| > 0
    ensures r.Some? ==> r.value == ts
  {
    if |ts| > 0 then Some(ts) else None
  }

  /** `parse2::<ExprRange>`: a stream holding `..`. */
  function ParseRange(ts: seq<Token>): (r: Option<seq<Token>>)
    ensures r.Some? <==> exists i :: 0 <= i < |ts| - 1 && ts[i] == Punct('.') && ts[i + 1] == Punct('.')
    ensures r.Some? ==> r.value == ts
  {
    if exists i :: 0 <= i < |ts| - 1 && ts[i] == Punct('.') && ts[i + 1] == Punct('.') then Some(ts) else None
  }

  /** `parse2::<ExprTuple>` followed by `expr_path_to_ident` on each element:
      a parenthesised list of identifiers. */
  function ParseIdentTuple(ts: seq<Token>): (r: Option<seq<string>>)
  {
    if |ts| == 1 && ts[0].Group? && ts[0].delim.Paren? then
      TryMapCollect(SplitTs(ts[0].inner), ParseIdent)
    else None
  }

  datatype DerefType = NoDeref | Deref | DerefMut

  /** `check_var_deref`: `x`, `&x` or `&mut x`. */
  function CheckVarDeref(ts: seq<Token>): (r: Option<(DerefType, string)>)
  {
    if |ts| == 1 && ts[0].Ident? then Some((NoDeref, ts[0].name))
    else if |ts| == 2 && ts[0] == Punct('&') && ts[1].Ident? then Some((Deref, ts[1].name))
    else if |ts| == 3 && ts[0] == Punct('&') && ts[1] == Ident("mut") && ts[2].Ident? then Some((DerefMut, ts[2].name))
    else None
  }

  // ---------------------------------------------------------------- data

  datatype RedOp =
    | Add(t: Option<seq<Token>>) | Sub(t: Option<seq<Token>>) | Mul(t: Option<seq<Token>>)
    | BitAnd(t: Option<seq<Token>>) | BitOr(t: Option<seq<Token>>) | BitXor(t: Option<seq<Token>>)
    | And | Or
    | Max(t: Option<seq<Token>>) | Min(t: Option<seq<Token>>)

  datatype Mode = NoMode | ReduceMode | FoldMode

  datatype Arg =
    | IndexMultipleInt(vars: seq<string>, size: seq<seq<Token>>)
    | IndexInt(variable: string, size1: seq<Token>)
    | IndexRange(variable: string, range: seq<Token>)
    | Each(nd: bool, mutable: bool, dereference: bool, variable: string, arrayExpr: seq<Token>)
    | Reduction(assignment: bool, op: RedOp, varInside: string, varOutside: seq<Token>)

  /** The fields of `Input` that parsing fills in. */
  datatype InputView = InputView(
    args: seq<Arg>,
    reduction: Mode,
    parCondBool: seq<seq<Token>>,
    parCondCfg: seq<seq<Token>>,
    debug: bool,
    body: Option<seq<Token>>)

  /** The state `Input::new` starts from: `par_cond_cfg` holds `not(disable_parallel_execution)`. */
  const NOT_DISABLED: seq<Token> := [Ident("not"), Group(Paren, [Ident("disable_parallel_execution")])]
  const InitialView := InputView([], NoMode, [], [NOT_DISABLED], false, None)

  const PARSE_FAILED := "failed to parse"
  const MODE_CONFLICT := "reduce and fold cannot be combined"
  const ARGS_AFTER_BODY := "no argument may follow the block"
  const NO_ARGS := "no argument"
  const NO_BODY := "no body"

  // ---------------------------------------------------------------- reduction_op

  /** The operator table of `reduction_op`. */
  function OpFromName(s: string, t: Option<seq<Token>>): Option<RedOp>
  {
    if s in {"+", "add", "addition", "sum", "summation"} then Some(Add(t))
    else if s in {"-", "sub", "subtraction"} then Some(Sub(t))
    else if s in {"*", "mul", "multiply", "multiplication", "prod", "product"} then Some(Mul(t))
    else if s in {"&&", "and", "all"} then Some(And)
    else if s in {"||", "or", "any"} then Some(Or)
    else if s in {"&", "bitand"} then Some(BitAnd(t))
    else if s in {"|", "bitor"} then Some(BitOr(t))
    else if s in {"^", "bitxor"} then Some(BitXor(t))
    else if s in {"min", "minimum"} then Some(Min(t))
    else if s in {"max", "maximum"} then Some(Max(t))
    else None
  }

  /** The short name of each operator. */
  function OpName(op: RedOp): string
  {
    match op
    case Add(_) => "add" case Sub(_) => "sub" case Mul(_) => "mul"
    case BitAnd(_) => "bitand" case BitOr(_) => "bitor" case BitXor(_) => "bitxor"
    case And => "and" case Or => "or" case Max(_) => "max" case Min(_) => "min"
  }

  /** Every operator is reached from its name, with its type annotation. */
  lemma OpNameRoundTrip(op: RedOp)
    ensures OpFromName(OpName(op), if op.And? || op.Or? then None else op.t) == Some(op)
  {
  }

  /** The tokens before the first group and the group's contents, if any. */
  function OpsAndType(ts: seq<Token>): (r: (seq<Token>, Option<seq<Token>>))
    ensures |r.0| <= |ts| && r.0 == ts[..|r.0|]
    ensures forall i :: 0 <= i < |r.0| ==> !ts[i].Group?
    ensures r.1.None? <==> |r.0| == |ts|
    ensures r.1.Some? ==> ts[|r.0|].Group? && r.1.value == ts[|r.0|].inner
  {
    if |ts| == 0 then ([], None)
    else if ts[0].Group? then ([], Some(ts[0].inner))
    else
      var rest := OpsAndType(ts[1..]);
      ([ts[0]] + rest.0, rest.1)
  }

  /** `reduction_op`: the operator named before an optional `(Type)`. */
  function ReductionOp(ts: seq<Token>): Option<RedOp>
  {
    var (ops, g) := OpsAndType(ts);
    if g.Some? && ParseType(g.value).None? then None
    else OpFromName(TsString(ops), g)
  }

  method ReductionOpLoop(ts: seq<Token>) returns (r: Option<RedOp>)
    ensures r == ReductionOp(ts)
  {
    var ops: seq<Token> := [];
    var t: Option<seq<Token>> := None;
    var i := 0;
    while i < |ts|
      invariant 0 <= i <= |ts|
      invariant t.None? ==> ops == ts[..i] && forall k :: 0 <= k < i ==> !ts[k].Group?
      invariant t.Some? ==> OpsAndType(ts) == (ops, t) && |t.value| > 0
      decreases |ts| - i, t.None?
    {
      if t.Some? {
        break;
      }
      if ts[i].Group? {
        var ty := ParseType(ts[i].inner);
        if ty.None? {
          OpsPrefix(ts, i);
          return None;
        }
        OpsPrefix(ts, i);
        t := Some(ty.value);
      } else {
        assert ts[..i + 1] == ts[..i] + [ts[i]];
        ops := ops + [ts[i]];
        i := i + 1;
      }
    }
    if t.None? {
      assert ops == ts;
      OpsAll(ts);
    }
    return OpFromName(TsString(ops), t);
  }

  lemma OpsPrefix(ts: seq<Token>, i: nat)
    requires i < |ts| && ts[i].Group? && forall k :: 0 <= k < i ==> !ts[k].Group?
    ensures OpsAndType(ts) == (ts[..i], Some(ts[i].inner))
  {
    var r := OpsAndType(ts);
    assert |r.0| == i;
  }

  lemma OpsAll(ts: seq<Token>)
    requires forall k :: 0 <= k < |ts| ==> !ts[k].Group?
    ensures OpsAndType(ts) == (ts, None)
  {
    var r := OpsAndType(ts);
    assert r.1.None?;
    assert ts[..|ts|] == ts;
  }

  /** An operator written by name, with or without a type, is recognised. */
  lemma ReductionOpNamed(op: RedOp)
    ensures ReductionOp([Ident(OpName(op))]) == Some(if op.And? || op.Or? then op else op.(t := None))
    ensures !(op.And? || op.Or?) && op.t.Some? && |op.t.value| > 0 ==>
      ReductionOp([Ident(OpName(op)), Group(Paren, op.t.value)]) == Some(op)
  {
    var one := [Ident(OpName(op))];
    assert OpsAndType(one) == (one, None) by {
      assert one[1..] == [];
      assert OpsAndType(one[1..]) == ([], None);
      assert [one[0]] + [] == one;
    }
    assert TsString(one) == OpName(op);
    if !(op.And? || op.Or?) && op.t.Some? && |op.t.value| > 0 {
      var ts := [Ident(OpName(op)), Group(Paren, op.t.value)];
      assert ts[1..] == [Group(Paren, op.t.value)];
      assert OpsAndType(ts[1..]) == ([], Some(op.t.value));
      assert OpsAndType(ts) == (one, Some(op.t.value));
      OpNameRoundTrip(op);
    }
    if !(op.And? || op.Or?) {
      OpNameRoundTrip(op.(t := None));
    } else {
      OpNameRoundTrip(op);
    }
  }

  // ---------------------------------------------------------------- parse_reduction_args

  /** The tokens before the first `:` and the tokens after it. */
  function SplitAtColon(ts: seq<Token>): (r: (seq<Token>, seq<Token>))
    ensures |r.0| <= |ts|
    ensures r.0 == ts[..|r.0|] && forall i :: 0 <= i < |r.0| ==> TokenString(ts[i]) != ":"
    ensures |r.0| < |ts| ==> TokenString(ts[|r.0|]) == ":" && r.1 == ts[|r.0| + 1..]
    ensures |r.0| == |ts| ==> r.1 == []
  {
    if |ts| == 0 then ([], [])
    else if TokenString(ts[0]) == ":" then ([], ts[1..])
    else
      var rest := SplitAtColon(ts[1..]);
      ([ts[0]] + rest.0, rest.1)
  }

  /** `parse_reduction_args`: `op : var`, with at least three tokens. */
  function ParseReductionArgs(ts: seq<Token>): (r: Option<(RedOp, seq<Token>)>)
    ensures r.Some? ==> |ts| >= 3
  {
    if |ts| < 3 then None
    else
      var (captured, rest) := SplitAtColon(ts);
      match ReductionOp(captured)
      case None => None
      case Some(op) =>
        match ParseExpr(rest)
        case None => None
        case Some(v) => Some((op, v))
  }

  method ParseReductionArgsLoop(ts: seq<Token>) returns (r: Option<(RedOp, seq<Token>)>)
    ensures r == ParseReductionArgs(ts)
  {
    if |ts| < 3 {
      return None;
    }
    var captured: seq<Token> := [];
    var i := 0;
    while i < |ts| && TokenString(ts[i]) != ":"
      invariant 0 <= i <= |ts|
      invariant captured == ts[..i] && forall k :: 0 <= k < i ==> TokenString(ts[k]) != ":"
    {
      assert ts[..i + 1] == ts[..i] + [ts[i]];
      captured := captured + [ts[i]];
      i := i + 1;
    }
    var rest := if i < |ts| then ts[i + 1..] else [];
    SplitAtColonAt(ts, i);
    var op := ReductionOp(captured);
    if op.None? {
      return None;
    }
    var v := ParseExpr(rest);
    if v.None? {
      return None;
    }
    return Some((op.value, v.value));
  }

  lemma SplitAtColonAt(ts: seq<Token>, i: nat)
    requires i <= |ts| && forall k :: 0 <= k < i ==> TokenString(ts[k]) != ":"
    requires i < |ts| ==> TokenString(ts[i]) == ":"
    ensures SplitAtColon(ts) == (ts[..i], if i < |ts| then ts[i + 1..] else [])
  {
    var r := SplitAtColon(ts);
    assert |r.0| == i;
  }

  // ---------------------------------------------------------------- match_arg

  /** `$var = index($range)` */
  function IndexRangeArg(p: FnCall): Option<Arg>
  {
    if |p.vars| == 0 || p.name != "index" then None
    else match (ParseIdent(p.vars), ParseRange(p.args))
      case (Some(v), Some(range)) => Some(IndexRange(v, range))
      case _ => None
  }

  /** `index($var)` and `$var = index($size)` */
  function IndexIntArg(p: FnCall): Option<Arg>
  {
    if p.name != "index" then None
    else match (ParseIdent(if |p.vars| > 0 then p.vars else p.args), ParseExpr(p.args))
      case (Some(v), Some(size)) => Some(IndexInt(v, size))
      case _ => None
  }

  /** `(i, j) = index(n, m)` and `i, j = index(n, m)` */
  function IndexMultipleArg(p: FnCall): Option<Arg>
  {
    if |p.vars| == 0 || p.name != "index" then None
    else
      var varsVts := SplitTs(p.vars);
      match TryMapCollect(SplitTs(p.args), ParseExpr)
      case None => None
      case Some(size) =>
        var vars :=
          if |varsVts| == |size| then TryMapCollect(varsVts, ParseIdent)
          else if |varsVts| == 1 then
            match ParseIdentTuple(p.vars)
            case Some(vs) => if |vs| == |size| then Some(vs) else None
            case None => None
          else None;
        match vars
        case None => None
        case Some(vs) => Some(IndexMultipleInt(vs, size))
  }

  /** The `each` family: `each`, `mut each`, `each_nd`, `mut each_nd`, with
      `mut` optionally before the array instead. */
  function EachArg(p: FnCall): Option<Arg>
  {
    var kind :=
      if p.name == "each" then Some((false, false))
      else if p.name == "mut each" then Some((false, true))
      else if p.name == "each_nd" then Some((true, false))
      else if p.name == "mut each_nd" then Some((true, true))
      else None;
    if kind.None? then None
    else
      var (nd, mutableName) := kind.value;
      var (mutFlag, arr) := CheckMutFlag(p.args);
      if mutFlag && mutableName then None
      else
        var mutable := mutableName || mutFlag;
        var target: Option<(string, bool)> :=
          if |p.vars| > 0 then
            match CheckVarDeref(p.vars)
            case None => None
            case Some((dt, i)) =>
              if dt.NoDeref? then Some((i, false))
              else if (dt.Deref? && !mutable) || (dt.DerefMut? && mutable) then Some((i, true))
              else None
          else
            match ParseIdent(arr)
            case None => None
            case Some(i) => Some((i, false));
        match (target, ParseExpr(arr))
        case (Some((v, d)), Some(a)) => Some(Each(nd, mutable, d, v, a))
        case _ => None
  }

  /** The mode and assignment flag named by `reduce`, `fold`, `reduce_assign`, `fold_assign`. */
  function ReductionKind(name: string): Option<(Mode, bool)>
  {
    if name == "reduce" then Some((ReduceMode, false))
    else if name == "fold" then Some((FoldMode, false))
    else if name == "reduce_assign" then Some((ReduceMode, true))
    else if name == "fold_assign" then Some((FoldMode, true))
    else None
  }

  /** A second reduction option must use the mode of the first. */
  predicate ModeConflict(current: Mode, mode: Mode)
  {
    !(current.NoMode? || current == mode)
  }

  function ReductionArg(p: FnCall, assignment: bool): Option<Arg>
  {
    match ParseReductionArgs(p.args)
    case None => None
    case Some((op, outside)) =>
      var inside := if |p.vars| > 0 then ParseIdent(p.vars) else ParseIdent(outside);
      match inside
      case None => None
      case Some(v) => Some(Reduction(assignment, op, v, outside))
  }

  /** `match_arg`: the first option form that accepts `p`, applied to the state. */
  function MatchArgResult(st: InputView, p: FnCall): (r: Result<InputView, string>)
    ensures r.Ok? ==> r.value.body == st.body
    ensures r.Ok? ==> (exists a :: r.value.args == st.args + [a]) || r.value.args == st.args
  {
    var a := IndexRangeArg(p);
    if a.Some? then Ok(st.(args := st.args + [a.value])) else
    var a := IndexIntArg(p);
    if a.Some? then Ok(st.(args := st.args + [a.value])) else
    var a := IndexMultipleArg(p);
    if a.Some? then Ok(st.(args := st.args + [a.value])) else
    var a := EachArg(p);
    if a.Some? then Ok(st.(args := st.args + [a.value])) else
    var kind := ReductionKind(p.name);
    if kind.Some? && ModeConflict(st.reduction, kind.value.0) then Err(MODE_CONFLICT)
    else if kind.Some? && ReductionArg(p, kind.value.1).Some? then
      Ok(st.(reduction := kind.value.0, args := st.args + [ReductionArg(p, kind.value.1).value]))
    else if kind.None? && |p.vars| == 0 && p.name == "par_cond_bool" && ParseExpr(p.args).Some? then
      Ok(st.(parCondBool := st.parCondBool + [p.args]))
    else if kind.None? && |p.vars| == 0 && p.name == "par_cond_cfg" && ParseExpr(p.args).Some? then
      Ok(st.(parCondCfg := st.parCondCfg + [p.args]))
    else if kind.None? && |p.vars| == 0 && |p.args| == 0 && p.name == "debug" then
      Ok(st.(debug := true))
    else Err(PARSE_FAILED)
  }

  /** Mixing `reduce*` with `fold*` fails whatever the arguments; repeating a mode does not. */
  lemma ReduceFoldConflict(st: InputView, p: FnCall)
    requires ReductionKind(p.name).Some?
    ensures ModeConflict(st.reduction, ReductionKind(p.name).value.0) ==> MatchArgResult(st, p) == Err(MODE_CONFLICT)
    ensures st.reduction == ReductionKind(p.name).value.0 && ReductionArg(p, ReductionKind(p.name).value.1).Some? ==>
      MatchArgResult(st, p).Ok?
  {
  }

  /** A `reduce` option after a `fold` option is rejected. */
  lemma ReduceAfterFold(p: FnCall)
    requires p.name == "reduce"
    ensures MatchArgResult(InitialView.(reduction := FoldMode), p) == Err(MODE_CONFLICT)
  {
  }

  // ---------------------------------------------------------------- Input::parse

  /** The loop of `Input::parse` over the remaining tokens; `current` is the
      option being read. */
  function ParseLoop(st: InputView, current: seq<Token>, ts: seq<Token>): (r: Result<InputView, string>)
    decreases |ts|
  {
    if |ts| == 0 then Ok(st)
    else
      var tt := ts[0];
      if tt.Group? && tt.delim.Paren? then
        match FnParse(current, tt.inner)
        case None => Err(PARSE_FAILED)
        case Some(p) =>
          match MatchArgResult(st, p)
          case Err(m) => Err(m)
          case Ok(st') => ParseLoop(st', [], ts[1..])
      else if tt.Group? && tt.delim.Brace? then ParseLoop(st.(body := Some(tt.inner)), current, ts[1..])
      else if tt.Group? then Err(PARSE_FAILED)
      else if tt == Punct(';') then Ok(st.(body := Some(ts[1..])))
      else if st.body.Some? then Err(ARGS_AFTER_BODY)
      else ParseLoop(st, current + [tt], ts[1..])
  }

  /** `Input::new`: all options and the body, with at least one argument. */
  function ParseInput(ts: seq<Token>): (r: Result<InputView, string>)
    ensures r.Ok? ==> |r.value.args| > 0 && r.value.body.Some?
  {
    match ParseLoop(InitialView, [], ts)
    case Err(m) => Err(m)
    case Ok(st) =>
      if |st.args| == 0 then Err(NO_ARGS)
      else if st.body.None? then Err(NO_BODY)
      else Ok(st)
  }

  /** Options are only appended: every argument read so far stays in place. */
  lemma {:induction false} ParseLoopKeepsArgs(st: InputView, current: seq<Token>, ts: seq<Token>)
    ensures ParseLoop(st, current, ts).Ok? ==>
      |st.args| <= |ParseLoop(st, current, ts).value.args| &&
      ParseLoop(st, current, ts).value.args[..|st.args|] == st.args
    decreases |ts|
  {
    if |ts| > 0 {
      var tt := ts[0];
      if tt.Group? && tt.delim.Paren? {
        var p := FnParse(current, tt.inner);
        if p.Some? && MatchArgResult(st, p.value).Ok? {
          var st' := MatchArgResult(st, p.value).value;
          ParseLoopKeepsArgs(st', [], ts[1..]);
          assert st'.args[..|st.args|] == st.args;
        }
      } else if tt.Group? && tt.delim.Brace? {
        ParseLoopKeepsArgs(st.(body := Some(tt.inner)), current, ts[1..]);
      } else if !tt.Group? && tt != Punct(';') && st.body.None? {
        ParseLoopKeepsArgs(st, current + [tt], ts[1..]);
      }
    }
  }

  /** Everything after the first top-level `;` is the body. */
  lemma {:induction false} SemicolonBody(st: InputView, current: seq<Token>, ts: seq<Token>, body: seq<Token>)
    requires st.body.None?
    requires forall i :: 0 <= i < |ts| ==> !ts[i].Group? && ts[i] != Punct(';')
    ensures ParseLoop(st, current, ts + [Punct(';')] + body) == Ok(st.(body := Some(body)))
    decreases |ts|
  {
    var all := ts + [Punct(';')] + body;
    if |ts| == 0 {
      assert all == [Punct(';')] + body;
      assert all[1..] == body;
    } else {
      assert all[0] == ts[0];
      assert all[1..] == ts[1..] + [Punct(';')] + body;
      SemicolonBody(st, current + [ts[0]], ts[1..], body);
    }
  }

  class Input {
    var args: seq<Arg>
    var reduction: Mode
    var parCondBool: seq<seq<Token>>
    var parCondCfg: seq<seq<Token>>
    var debug: bool
    var body: Option<seq<Token>>

    function View(): InputView
      reads this
    {
      InputView(args, reduction, parCondBool, parCondCfg, debug, body)
    }

    /** The fields as `Input::new` sets them before parsing. */
    constructor ()
      ensures View() == InitialView
    {
      args := [];
      reduction := NoMode;
      parCondBool := [];
      parCondCfg := [NOT_DISABLED];
      debug := false;
      body := None;
    }

    /** `match_arg`, on the fields. */
    method MatchArg(p: FnCall) returns (r: Result<(), string>)
      modifies this
      ensures var spec := MatchArgResult(old(View()), p);
        (r.Ok? <==> spec.Ok?) && (r.Ok? ==> View() == spec.value) && (r.Err? ==> r.error == spec.error)
    {
      var a := IndexRangeArg(p);
      if a.None? {
        a := IndexIntArg(p);
      }
      if a.None? {
        a := IndexMultipleArg(p);
      }
      if a.None? {
        a := EachArg(p);
      }
      if a.Some? {
        args := args + [a.value];
        return Ok(());
      }
      var kind := ReductionKind(p.name);
      if kind.Some? {
        if ModeConflict(reduction, kind.value.0) {
          return Err(MODE_CONFLICT);
        }
        reduction := kind.value.0;
        var ra := ReductionArg(p, kind.value.1);
        if ra.Some? {
          args := args + [ra.value];
          return Ok(());
        }
        return Err(PARSE_FAILED);
      }
      if |p.vars| == 0 && p.name == "par_cond_bool" && ParseExpr(p.args).Some? {
        parCondBool := parCondBool + [p.args];
        return Ok(());
      }
      if |p.vars| == 0 && p.name == "par_cond_cfg" && ParseExpr(p.args).Some? {
        parCondCfg := parCondCfg + [p.args];
        return Ok(());
      }
      if |p.vars| == 0 && |p.args| == 0 && p.name == "debug" {
        debug := true;
        return Ok(());
      }
      return Err(PARSE_FAILED);
    }

    /** `Input::parse`: the loop over the tokens and the final checks. */
    method Parse(ts: seq<Token>) returns (r: Result<(), string>)
      modifies this
      ensures var spec := ParseLoop(old(View()), [], ts);
        (r.Ok? <==> spec.Ok? && |spec.value.args| > 0 && spec.value.body.Some?) &&
        (r.Ok? ==> View() == spec.value)
    {
      r := ReadOptions(ts);
      if r.Err? {
        return;
      }
      if |args| == 0 {
        return Err(NO_ARGS);
      }
      if body.None? {
        return Err(NO_BODY);
      }
    }

    /** The loop of `Input::parse`: every option and the body, read into the fields. */
    method ReadOptions(ts: seq<Token>) returns (r: Result<(), string>)
      modifies this
      ensures var spec := ParseLoop(old(View()), [], ts);
        (r.Ok? <==> spec.Ok?) && (r.Ok? ==> View() == spec.value)
    {
      var current: seq<Token> := [];
      var i := 0;
      var done := false;
      while i < |ts| && !done
        invariant 0 <= i <= |ts|
        invariant !done ==> ParseLoop(View(), current, ts[i..]) == ParseLoop(old(View()), [], ts)
        invariant done ==> ParseLoop(old(View()), [], ts) == Ok(View())
        decreases |ts| - i, !done
      {
        var tt := ts[i];
        assert ts[i..][0] == tt && ts[i..][1..] == ts[i + 1..];
        if tt.Group? && tt.delim.Paren? {
          var p := FnParse(current, tt.inner);
          if p.None? {
            return Err(PARSE_FAILED);
          }
          var m := MatchArg(p.value);
          if m.Err? {
            return m;
          }
          current := [];
        } else if tt.Group? && tt.delim.Brace? {
          body := Some(tt.inner);
        } else if tt.Group? {
          return Err(PARSE_FAILED);
        } else if tt == Punct(';') {
          body := Some(ts[i + 1..]);
          done := true;
        } else if body.Some? {
          return Err(ARGS_AFTER_BODY);
        } else {
          current := current + [tt];
        }
        if !done {
          i := i + 1;
        }
      }
      if !done {
        assert ts[i..] == [];
      }
      return Ok(());
    }
  }

  /** `Input::new`: a fresh `Input` with every option read and the checks made. */
  method NewInput(ts: seq<Token>) returns (input: Input, r: Result<(), string>)
    ensures fresh(input)
    ensures r.Ok? <==> ParseInput(ts).Ok?
    ensures r.Ok? ==> input.View() == ParseInput(ts).value
  {
    input := new Input();
    r := input.Parse(ts);
  }

  /** `i = index(n); body` reads as one `IndexInt` option and the body. */
  lemma IndexIntExample(body: seq<Token>)
    ensures ParseInput([Ident("i"), Punct('='), Ident("index"), Group(Paren, [Ident("n")]), Punct(';')] + body)
      == Ok(InitialView.(args := [IndexInt("i", [Ident("n")])], body := Some(body)))
  {
    var ts := [Ident("i"), Punct('='), Ident("index"), Group(Paren, [Ident("n")]), Punct(';')] + body;
    var prefix := [Ident("i"), Punct('='), Ident("index")];
    FnParseRoundTrip([Ident("i")], ["index"], [Ident("n")]);
    assert Idents(["index"]) == [Ident("index")];
    assert [Ident("i")] + [Punct('=')] + [Ident("index")] == prefix;
    var p := FnCall([Ident("i")], "index", [Ident("n")]);
    assert FnParse(prefix, [Ident("n")]) == Some(p);
    var st := InitialView.(args := [IndexInt("i", [Ident("n")])]);
    assert IndexRangeArg(p).None?;
    assert CommaFree([Ident("n")]);
    assert IndexIntArg(p) == Some(IndexInt("i", [Ident("n")]));
    assert InitialView.args + [IndexInt("i", [Ident("n")])] == st.args;
    assert MatchArgResult(InitialView, p) == Ok(st);
    assert ts[3..] == [Group(Paren, [Ident("n")]), Punct(';')] + body;
    assert ts[4..] == [Punct(';')] + body;
    assert ts[5..] == body;
    assert ParseLoop(st, [], ts[4..]) == Ok(st.(body := Some(body)));
    assert ParseLoop(InitialView, prefix, ts[3..]) == Ok(st.(body := Some(body)));
    assert [Ident("i"), Punct('=')] + [Ident("index")] == prefix;
    assert [Ident("i")] + [Punct('=')] == [Ident("i"), Punct('=')];
    assert [] + [Ident("i")] == [Ident("i")];
    assert ParseLoop(InitialView, [Ident("i"), Punct('=')], ts[2..]) == Ok(st.(body := Some(body)));
    assert ParseLoop(InitialView, [Ident("i")], ts[1..]) == Ok(st.(body := Some(body)));
  }
}
