// `Converted::new` and `make_element` of `for_each!`
// (macros/src/for_each.rs): every parsed option adds its pieces to the
// structure the loop is built from. An index or an `each` option adds one
// iterator and one closure argument; a reduction adds its identity, its
// combining expression and the assignment to the outer variable. The
// record of pieces is specified by pure functions, the class updates its
// fields in place, and the lemmas say which pieces come from which option.
module ForEachElement {
  import opened Wrappers
  import opened Tokens
  import opened ForEachUtils
  import opened ForEachInput
  import opened ForEachConvert
  import opened ForEachReduction

  datatype ExecMode = Serial | ParallelBridge | Parallel

  /** The fields of `Converted` that `make_element` fills in. */
  datatype Parts = Parts(
    iterators: seq<seq<Token>>,
    lambdaArgs: seq<seq<Token>>,
    advanceDefs: seq<Token>,
    identities: seq<seq<Token>>,
    varsInside: seq<string>,
    varsOutside: seq<string>,
    outsideAssignment: seq<Token>,
    funcs: seq<seq<Token>>,
    args1st: seq<string>,
    args2nd: seq<string>,
    useIntoPar: bool)

  const EmptyParts := Parts([], [], [], [], [], [], [], [], [], [], false)

  const NO_ITERATOR := "at least one item to iterate is needed"

  // ---------------------------------------------------------------- names

  /** `make_ip_var`: `ip_` followed by the variables joined with `_`. */
  function IpVar(vars: seq<string>): string
  {
    "ip_" + Join(vars, "_")
  }

  function A1Var(v: string): string { "a1_" + v }

  function A2Var(v: string): string { "a2_" + v }

  function TmpVar(v: string): string { "tmp_" + v }

  // ---------------------------------------------------------------- iterators

  /** `.name()` */
  function CallSuffix(name: string): seq<Token>
  {
    [Punct('.'), Ident(name), Group(Paren, [])]
  }

  /** `.into_par_iter()` appended in parallel mode. */
  function ParIter(exec: ExecMode, iter: seq<Token>): seq<Token>
  {
    if exec == Parallel then iter + CallSuffix("into_par_iter") else iter
  }

  /** `( 0..(size) )` */
  function CountingRange(size: seq<Token>): seq<Token>
  {
    [Group(Paren, [Lit("0"), Punct('.'), Punct('.'), Group(Paren, size)])]
  }

  /** The iterator over the elements of `(array)`. */
  function EachIter(exec: ExecMode, nd: bool, mutable: bool, arr: seq<Token>): seq<Token>
  {
    var a := [Group(Paren, arr)];
    if exec == Parallel then
      if !nd && !mutable then a + CallSuffix("as_slice") + CallSuffix("into_par_iter")
      else if !nd then a + CallSuffix("as_mut_slice") + CallSuffix("into_par_iter")
      else if !mutable then a + CallSuffix("as_slice") + CallSuffix("unwrap") + CallSuffix("into_par_iter")
      else a + CallSuffix("as_slice_mut") + CallSuffix("unwrap") + CallSuffix("into_par_iter")
    else if mutable then a + CallSuffix("iter_mut")
    else a + CallSuffix("iter")
  }

  /** The closure argument of an `each` option as the source writes it: with
      `&mut` the quoted text is the literal `$var`, not the variable. */
  function LambdaArgAsWritten(mutable: bool, dereference: bool, v: string): seq<Token>
  {
    if !dereference then [Ident(v)]
    else if !mutable then [Punct('&'), Ident(v)]
    else [Punct('&'), Ident("mut"), Punct('$'), Ident("var")]
  }

  /** The closure argument of an `each` option: the pattern the user wrote. */
  function LambdaArg(mutable: bool, dereference: bool, v: string): seq<Token>
  {
    if !dereference then [Ident(v)]
    else if !mutable then [Punct('&'), Ident(v)]
    else [Punct('&'), Ident("mut"), Ident(v)]
  }

  /** The iterator a non-reduction option contributes. */
  function IteratorOf(exec: ExecMode, arg: Arg): seq<Token>
    requires !arg.Reduction?
  {
    match arg
    case IndexMultipleInt(_, size) => ParIter(exec, CountingRange(Product(size)))
    case IndexInt(_, size) => ParIter(exec, CountingRange(size))
    case IndexRange(_, range) => ParIter(exec, [Group(Paren, range)])
    case Each(nd, mutable, _, _, arr) => EachIter(exec, nd, mutable, arr)
  }

  /** The closure argument a non-reduction option contributes. */
  function LambdaOf(arg: Arg): seq<Token>
    requires !arg.Reduction?
  {
    match arg
    case IndexMultipleInt(vars, _) => [Ident(IpVar(vars))]
    case IndexInt(v, _) => [Ident(v)]
    case IndexRange(v, _) => [Ident(v)]
    case Each(_, mutable, dereference, v, _) => LambdaArg(mutable, dereference, v)
  }

  function IdentItems(vars: seq<string>): (items: seq<seq<Token>>)
    ensures |items| == |vars| && forall i :: 0 <= i < |vars| ==> items[i] == [Ident(vars[i])]
  {
    seq(|vars|, i requires 0 <= i < |vars| => [Ident(vars[i])])
  }

  /** `let (i, j, ) = (ip / (m) % (n), ip % (m));` for `index(n, m)`. */
  function AdvanceDef(vars: seq<string>, size: seq<seq<Token>>): seq<Token>
  {
    [Ident("let")] + Tuple(IdentItems(vars), []) + [Punct('=')] + IndexDecomposition(IpVar(vars), size) + [Punct(';')]
  }

  /** `o = tmp;` for `reduce_assign`/`fold_assign`, the operator's update otherwise. */
  function OutsideAssignment(r: Arg): seq<Token>
    requires r.Reduction?
  {
    var tv := TmpVar(r.varInside);
    if r.assignment then r.varOutside + [Punct('='), Ident(tv), Punct(';')]
    else ReductionOutsideAssignment(r.op, tv, r.varOutside)
  }

  // ---------------------------------------------------------------- make_element

  /** What `make_element` adds to the pieces for one option, before its
      check that some iterator exists. */
  function AddElement(exec: ExecMode, p: Parts, arg: Arg): Parts
  {
    if arg.Reduction? then
      var v := arg.varInside;
      p.(identities := p.identities + [ReductionIdentity(arg.op)],
         varsInside := p.varsInside + [v],
         varsOutside := p.varsOutside + [TmpVar(v)],
         outsideAssignment := p.outsideAssignment + OutsideAssignment(arg),
         args1st := p.args1st + [A1Var(v)],
         args2nd := p.args2nd + [A2Var(v)],
         funcs := p.funcs + [ReductionOperation(arg.op, A1Var(v), A2Var(v))])
    else
      var q := p.(iterators := p.iterators + [IteratorOf(exec, arg)],
                  lambdaArgs := p.lambdaArgs + [LambdaOf(arg)],
                  useIntoPar := p.useIntoPar || exec == Parallel);
      if arg.IndexMultipleInt? then q.(advanceDefs := p.advanceDefs + AdvanceDef(arg.vars, arg.size))
      else q
  }

  /** The options applied one after the other. */
  function AddElements(exec: ExecMode, p: Parts, args: seq<Arg>): Parts
  {
    if |args| == 0 then p else AddElement(exec, AddElements(exec, p, args[..|args| - 1]), args[|args| - 1])
  }

  /** The options that contribute an iterator, in order. */
  function Iterating(args: seq<Arg>): (r: seq<Arg>)
    ensures forall j :: 0 <= j < |r| ==> !r[j].Reduction?
  {
    if |args| == 0 then []
    else Iterating(args[..|args| - 1]) + (if args[|args| - 1].Reduction? then [] else [args[|args| - 1]])
  }

  /** The reduction options, in order. */
  function Reductions(args: seq<Arg>): (r: seq<Arg>)
    ensures forall j :: 0 <= j < |r| ==> r[j].Reduction?
  {
    if |args| == 0 then []
    else Reductions(args[..|args| - 1]) + (if args[|args| - 1].Reduction? then [args[|args| - 1]] else [])
  }

  /** `Converted::new` as written: `make_element` checks after every option
      that an iterator exists, so a reduction listed first always fails. */
  function ConvertAsWritten(exec: ExecMode, p: Parts, args: seq<Arg>): Result<Parts, string>
    decreases |args|
  {
    if |args| == 0 then Ok(p)
    else
      var q := AddElement(exec, p, args[0]);
      if |q.iterators| == 0 then Err(NO_ITERATOR) else ConvertAsWritten(exec, q, args[1..])
  }

  /** `Converted::new` with the check made once all options are added. */
  function Convert(exec: ExecMode, args: seq<Arg>): Result<Parts, string>
  {
    var q := AddElements(exec, EmptyParts, args);
    if |q.iterators| == 0 then Err(NO_ITERATOR) else Ok(q)
  }

  // ---------------------------------------------------------------- what the pieces are

  /** The iterators and closure arguments are those of the non-reduction
      options, in order, and the parallel import is needed exactly when
      one of them runs in parallel mode. */
  lemma {:induction false} IteratorsOfOptions(exec: ExecMode, args: seq<Arg>)
    ensures var p := AddElements(exec, EmptyParts, args);
      var its := Iterating(args);
      |p.iterators| == |p.lambdaArgs| == |its| &&
      (forall j :: 0 <= j < |its| ==> p.iterators[j] == IteratorOf(exec, its[j]) && p.lambdaArgs[j] == LambdaOf(its[j])) &&
      (p.useIntoPar <==> exec == Parallel && |its| > 0)
  {
    if |args| > 0 {
      IteratorsOfOptions(exec, args[..|args| - 1]);
    }
  }

  /** Every reduction option contributes, at the same position of each
      reduction list, an identity that reads as its operator's neutral
      element, a combining expression over its own `a1_`/`a2_` pair that
      reads as its combining operator, and its inner and temporary names. */
  lemma {:induction false} ReductionsOfOptions(exec: ExecMode, args: seq<Arg>)
    ensures var p := AddElements(exec, EmptyParts, args);
      var rs := Reductions(args);
      |p.identities| == |p.varsInside| == |p.varsOutside| == |p.funcs| == |p.args1st| == |p.args2nd| == |rs| &&
      forall j :: 0 <= j < |rs| ==>
        IdentityValue(p.identities[j], DomainOf(rs[j].op)) == Some(IdentityOf(rs[j].op)) &&
        CombinerOf(p.funcs[j], p.args1st[j], p.args2nd[j]) == Some(Combiner(rs[j].op)) &&
        p.varsInside[j] == rs[j].varInside && p.varsOutside[j] == TmpVar(rs[j].varInside) &&
        p.args1st[j] == A1Var(rs[j].varInside) && p.args2nd[j] == A2Var(rs[j].varInside)
  {
    if |args| > 0 {
      var front := args[..|args| - 1];
      ReductionsOfOptions(exec, front);
      var last := args[|args| - 1];
      if last.Reduction? {
        IdentityRead(last.op);
        CombinerRead(last.op, A1Var(last.varInside), A2Var(last.varInside));
      }
    }
  }

  /** The closure argument of an `each` option is read back by
      `check_var_deref` as the very pattern the option was parsed from. */
  lemma EachPatternKept(p: FnCall)
    requires EachArg(p).Some? && |p.vars| > 0
    ensures var e := EachArg(p).value;
      CheckVarDeref(LambdaArg(e.mutable, e.dereference, e.variable)) == CheckVarDeref(p.vars)
  {
  }

  /** As written, the `&mut` pattern is not read back at all. */
  lemma EachPatternLostAsWritten(v: string)
    ensures CheckVarDeref([Punct('&'), Ident("mut"), Ident(v)]) == Some((DerefMut, v))
    ensures CheckVarDeref(LambdaArgAsWritten(true, true, v)) == None
  {
  }

  // ---------------------------------------------------------------- the iterator check

  function IteratorCount(args: seq<Arg>): nat
  {
    |Iterating(args)|
  }

  predicate HasIterating(args: seq<Arg>)
  {
    exists j :: 0 <= j < |args| && !args[j].Reduction?
  }

  lemma {:induction false} IteratingNonEmpty(args: seq<Arg>)
    ensures |Iterating(args)| > 0 <==> HasIterating(args)
  {
    if |args| > 0 {
      var front := args[..|args| - 1];
      IteratingNonEmpty(front);
      if HasIterating(front) {
        var j :| 0 <= j < |front| && !front[j].Reduction?;
        assert !args[j].Reduction?;
      }
      if HasIterating(args) && !HasIterating(front) {
        assert !args[|args| - 1].Reduction?;
      }
    }
  }

  /** With the check made once at the end, conversion succeeds exactly when
      some option iterates. */
  lemma ConvertOk(exec: ExecMode, args: seq<Arg>)
    ensures Convert(exec, args).Ok? <==> HasIterating(args)
    ensures Convert(exec, args).Ok? ==> Convert(exec, args).value == AddElements(exec, EmptyParts, args)
  {
    IteratorsOfOptions(exec, args);
    IteratingNonEmpty(args);
  }

  lemma AddElementCount(exec: ExecMode, p: Parts, arg: Arg)
    ensures |AddElement(exec, p, arg).iterators| == |p.iterators| + (if arg.Reduction? then 0 else 1)
  {
  }

  /** Once some iterator exists, the check after each option never fails. */
  lemma {:induction false} ConvertAsWrittenFrom(exec: ExecMode, p: Parts, args: seq<Arg>)
    requires |p.iterators| > 0
    ensures ConvertAsWritten(exec, p, args).Ok?
    decreases |args|
  {
    if |args| > 0 {
      AddElementCount(exec, p, args[0]);
      ConvertAsWrittenFrom(exec, AddElement(exec, p, args[0]), args[1..]);
    }
  }

  /** As written, conversion of a non-empty option list succeeds exactly
      when the first option iterates. */
  lemma ConvertAsWrittenOk(exec: ExecMode, args: seq<Arg>)
    requires |args| > 0
    ensures ConvertAsWritten(exec, EmptyParts, args).Ok? <==> !args[0].Reduction?
  {
    AddElementCount(exec, EmptyParts, args[0]);
    if !args[0].Reduction? {
      ConvertAsWrittenFrom(exec, AddElement(exec, EmptyParts, args[0]), args[1..]);
    }
  }

  /** `reduce(+ : s), i = index(10)`: a sum over an index range, which the
      source rejects only because the reduction comes first. */
  lemma ReductionFirstRejected()
    ensures var args := [Reduction(false, Add(None), "s", [Ident("s")]), IndexInt("i", [Lit("10")])];
      ConvertAsWritten(Serial, EmptyParts, args).Err? && Convert(Serial, args).Ok?
  {
    var args := [Reduction(false, Add(None), "s", [Ident("s")]), IndexInt("i", [Lit("10")])];
    ConvertAsWrittenOk(Serial, args);
    ConvertOk(Serial, args);
    assert !args[1].Reduction?;
  }

  // ---------------------------------------------------------------- Converted

  class Converted {
    const execution: ExecMode
    var iterators: seq<seq<Token>>
    var lambdaArgs: seq<seq<Token>>
    var advanceDefs: seq<Token>
    var identities: seq<seq<Token>>
    var varsInside: seq<string>
    var varsOutside: seq<string>
    var outsideAssignment: seq<Token>
    var funcs: seq<seq<Token>>
    var args1st: seq<string>
    var args2nd: seq<string>
    var useIntoPar: bool

    function View(): Parts
      reads this
    {
      Parts(iterators, lambdaArgs, advanceDefs, identities, varsInside, varsOutside, outsideAssignment,
        funcs, args1st, args2nd, useIntoPar)
    }

    constructor (exec: ExecMode)
      ensures execution == exec && View() == EmptyParts
    {
      execution := exec;
      iterators, lambdaArgs, advanceDefs := [], [], [];
      identities, varsInside, varsOutside, outsideAssignment := [], [], [], [];
      funcs, args1st, args2nd := [], [], [];
      useIntoPar := false;
    }

    /** `make_element` without its check, on the fields. */
    method MakeElement(arg: Arg)
      modifies this
      ensures View() == AddElement(execution, old(View()), arg)
    {
      if arg.Reduction? {
        var v := arg.varInside;
        identities := identities + [ReductionIdentity(arg.op)];
        varsInside := varsInside + [v];
        varsOutside := varsOutside + [TmpVar(v)];
        outsideAssignment := outsideAssignment + OutsideAssignment(arg);
        args1st := args1st + [A1Var(v)];
        args2nd := args2nd + [A2Var(v)];
        funcs := funcs + [ReductionOperation(arg.op, A1Var(v), A2Var(v))];
      } else {
        if execution == Parallel {
          useIntoPar := true;
        }
        if arg.IndexMultipleInt? {
          advanceDefs := advanceDefs + AdvanceDef(arg.vars, arg.size);
        }
        iterators := iterators + [IteratorOf(execution, arg)];
        lambdaArgs := lambdaArgs + [LambdaOf(arg)];
      }
    }

    /** The options applied in order, each through `make_element`. */
    method MakeElements(args: seq<Arg>)
      modifies this
      ensures View() == AddElements(execution, old(View()), args)
    {
      var i := 0;
      while i < |args|
        invariant 0 <= i <= |args|
        invariant View() == AddElements(execution, old(View()), args[..i])
      {
        MakeElement(args[i]);
        assert args[..i + 1][..i] == args[..i];
        i := i + 1;
      }
      assert args[..i] == args;
    }
  }

  /** `Converted::new`: every option in order, then the check that some
      option iterates. */
  method NewConverted(exec: ExecMode, args: seq<Arg>) returns (c: Converted, r: Result<(), string>)
    ensures fresh(c) && c.execution == exec && c.View() == AddElements(exec, EmptyParts, args)
    ensures r.Ok? <==> HasIterating(args)
    ensures r == (if Convert(exec, args).Ok? then Ok(()) else Err(NO_ITERATOR))
  {
    c := new Converted(exec);
    c.MakeElements(args);
    ConvertOk(exec, args);
    if |c.iterators| == 0 {
      r := Err(NO_ITERATOR);
    } else {
      r := Ok(());
    }
  }
}
