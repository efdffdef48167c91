// The reduction tables of `for_each!` (macros/src/for_each.rs):
// `reduction_identity`, `reduction_operation` and
// `reduction_outside_assignment`, which emit the start value of every
// partial result, the expression combining two partial results and the
// statement folding the total into the outer variable. Next to the token
// tables stands a reading of what each emitted expression computes, and the
// lemmas show that the three together do what the operator promises: the
// identity is neutral, combining is associative (so any split of the work
// gives the same total), and folding the total into the outer variable
// equals applying the operator to it value by value.
module ForEachReduction {
  import opened Wrappers
  import opened Tokens
  import opened ForEachInput

  // ---------------------------------------------------------------- token tables

  /** `name()` or, with a type, `name::<T>()`. */
  function Call(name: string, t: Option<seq<Token>>): seq<Token>
  {
    [Ident(name)] + (if t.Some? then [Punct(':'), Punct(':'), Punct('<')] + t.value + [Punct('>')] else [])
      + [Group(Paren, [])]
  }

  /** `reduction_identity` */
  function ReductionIdentity(op: RedOp): seq<Token>
  {
    match op
    case Add(t) => Call("zero", t)
    case Sub(t) => Call("zero", t)
    case Mul(t) => Call("one", t)
    case Max(t) => Call("minimum_value", t)
    case Min(t) => Call("maximum_value", t)
    case BitAnd(t) => [Punct('!')] + Call("zero", t)
    case BitOr(t) => Call("zero", t)
    case BitXor(t) => Call("zero", t)
    case And => [Ident("true")]
    case Or => [Ident("false")]
  }

  /** `reduction_operation`: combines the partial results `a1` and `a2`.
      Subtraction combines partial results by addition. */
  function ReductionOperation(op: RedOp, a1: string, a2: string): seq<Token>
  {
    match op
    case Add(_) => [Ident(a1), Punct('+'), Ident(a2)]
    case Sub(_) => [Ident(a1), Punct('+'), Ident(a2)]
    case Mul(_) => [Ident(a1), Punct('*'), Ident(a2)]
    case Max(_) => [Ident(a1), Punct('.'), Ident("max"), Group(Paren, [Ident(a2)])]
    case Min(_) => [Ident(a1), Punct('.'), Ident("min"), Group(Paren, [Ident(a2)])]
    case And => [Ident(a1), Punct('&'), Punct('&'), Ident(a2)]
    case Or => [Ident(a1), Punct('|'), Punct('|'), Ident(a2)]
    case BitAnd(_) => [Ident(a1), Punct('&'), Ident(a2)]
    case BitOr(_) => [Ident(a1), Punct('|'), Ident(a2)]
    case BitXor(_) => [Ident(a1), Punct('^'), Ident(a2)]
  }

  /** `o op= i;` */
  function CompoundAssign(o: seq<Token>, c: char, i: string): seq<Token>
  {
    o + [Punct(c), Punct('='), Ident(i), Punct(';')]
  }

  /** `o.method(i);` */
  function MethodAssign(o: seq<Token>, name: string, i: string): seq<Token>
  {
    o + [Punct('.'), Ident(name), Group(Paren, [Ident(i)]), Punct(';')]
  }

  /** `reduction_outside_assignment`: folds the total `i` into the outer variable `o`. */
  function ReductionOutsideAssignment(op: RedOp, i: string, o: seq<Token>): seq<Token>
  {
    match op
    case Add(_) => CompoundAssign(o, '+', i)
    case Sub(_) => CompoundAssign(o, '-', i)
    case Mul(_) => CompoundAssign(o, '*', i)
    case Max(_) => MethodAssign(o, "max_assign", i)
    case Min(_) => MethodAssign(o, "min_assign", i)
    case And => MethodAssign(o, "and_assign", i)
    case Or => MethodAssign(o, "or_assign", i)
    case BitAnd(_) => CompoundAssign(o, '&', i)
    case BitOr(_) => CompoundAssign(o, '|', i)
    case BitXor(_) => CompoundAssign(o, '^', i)
  }

  // ---------------------------------------------------------------- values

  const I64_MIN: int := -0x8000_0000_0000_0000
  const I64_MAX: int := 0x7fff_ffff_ffff_ffff

  /** Integers (overflow not modelled), integers within the `i64` range (whose
      bounds are the identities of `max` and `min`), booleans and 64-bit words. */
  datatype Domain = Integers | Bounded | Booleans | Words

  datatype Value = Num(n: int) | Truth(b: bool) | Bits(w: seq<bool>)

  predicate InDomain(d: Domain, v: Value)
  {
    match d
    case Integers => v.Num?
    case Bounded => v.Num? && I64_MIN <= v.n <= I64_MAX
    case Booleans => v.Truth?
    case Words => v.Bits? && |v.w| == WORD_BITS
  }

  /** The values each operator works on. */
  function DomainOf(op: RedOp): Domain
  {
    match op
    case Add(_) => Integers case Sub(_) => Integers case Mul(_) => Integers
    case Max(_) => Bounded case Min(_) => Bounded
    case And => Booleans case Or => Booleans
    case BitAnd(_) => Words case BitOr(_) => Words case BitXor(_) => Words
  }

  datatype Binary = Plus | Minus | Times | MaxOf | MinOf | LogicalAnd | LogicalOr | BitwiseAnd | BitwiseOr | BitwiseXor

  const WORD_BITS := 64

  /** The word with every bit set to `bit`: `!0` or `0`. */
  function Word(bit: bool): Value
  {
    Bits(seq(WORD_BITS, _ => bit))
  }

  /** One bit of `&`, `|` or `^`. */
  function Bitwise(b: Binary, p: bool, q: bool): bool
  {
    if b == BitwiseAnd then p && q else if b == BitwiseOr then p || q else p != q
  }

  function Pointwise(b: Binary, u: seq<bool>, v: seq<bool>): seq<bool>
    requires |u| == |v|
  {
    seq(|u|, i requires 0 <= i < |u| => Bitwise(b, u[i], v[i]))
  }

  /** `x b y`; a pair of values outside the operator's domain leaves `x` as it is. */
  function Apply(b: Binary, x: Value, y: Value): Value
  {
    match b
    case Plus => if x.Num? && y.Num? then Num(x.n + y.n) else x
    case Minus => if x.Num? && y.Num? then Num(x.n - y.n) else x
    case Times => if x.Num? && y.Num? then Num(x.n * y.n) else x
    case MaxOf => if x.Num? && y.Num? then Num(if x.n >= y.n then x.n else y.n) else x
    case MinOf => if x.Num? && y.Num? then Num(if x.n <= y.n then x.n else y.n) else x
    case LogicalAnd => if x.Truth? && y.Truth? then Truth(x.b && y.b) else x
    case LogicalOr => if x.Truth? && y.Truth? then Truth(x.b || y.b) else x
    case _ => if x.Bits? && y.Bits? && |x.w| == |y.w| then Bits(Pointwise(b, x.w, y.w)) else x
  }

  /** What one iteration does to the outer variable when the operator is
      applied value by value (`s += x`, `s -= x`, `s = s.max(x)`, …). */
  function Step(op: RedOp): Binary
  {
    match op
    case Add(_) => Plus case Sub(_) => Minus case Mul(_) => Times
    case Max(_) => MaxOf case Min(_) => MinOf
    case And => LogicalAnd case Or => LogicalOr
    case BitAnd(_) => BitwiseAnd case BitOr(_) => BitwiseOr case BitXor(_) => BitwiseXor
  }

  // ---------------------------------------------------------------- reading the tokens

  /** The value of an emitted identity expression in domain `d`. */
  function IdentityValue(ts: seq<Token>, d: Domain): Option<Value>
  {
    if ts == [Ident("true")] && d == Booleans then Some(Truth(true))
    else if ts == [Ident("false")] && d == Booleans then Some(Truth(false))
    else
      var negated := |ts| > 0 && ts[0] == Punct('!');
      var call := if negated then ts[1..] else ts;
      if !(|call| >= 2 && call[0].Ident? && call[|call| - 1] == Group(Paren, [])) then None
      else CallValue(call[0].name, negated, d)
  }

  /** The value of `name()`, or of `!name()` when `negated`. */
  function CallValue(name: string, negated: bool, d: Domain): Option<Value>
  {
    if name == "zero" && d == Words then Some(Word(negated))
    else if negated then None
    else if name == "zero" && d == Integers then Some(Num(0))
    else if name == "one" && d == Integers then Some(Num(1))
    else if name == "minimum_value" && d == Bounded then Some(Num(I64_MIN))
    else if name == "maximum_value" && d == Bounded then Some(Num(I64_MAX))
    else None
  }

  /** The operator of an emitted combining expression over `a1` and `a2`. */
  function CombinerOf(ts: seq<Token>, a1: string, a2: string): Option<Binary>
  {
    if ts == [Ident(a1), Punct('+'), Ident(a2)] then Some(Plus)
    else if ts == [Ident(a1), Punct('*'), Ident(a2)] then Some(Times)
    else if ts == [Ident(a1), Punct('.'), Ident("max"), Group(Paren, [Ident(a2)])] then Some(MaxOf)
    else if ts == [Ident(a1), Punct('.'), Ident("min"), Group(Paren, [Ident(a2)])] then Some(MinOf)
    else if ts == [Ident(a1), Punct('&'), Punct('&'), Ident(a2)] then Some(LogicalAnd)
    else if ts == [Ident(a1), Punct('|'), Punct('|'), Ident(a2)] then Some(LogicalOr)
    else if ts == [Ident(a1), Punct('&'), Ident(a2)] then Some(BitwiseAnd)
    else if ts == [Ident(a1), Punct('|'), Ident(a2)] then Some(BitwiseOr)
    else if ts == [Ident(a1), Punct('^'), Ident(a2)] then Some(BitwiseXor)
    else None
  }

  /** The update an emitted statement makes to `o` with the value of `i`. */
  function AssignmentOf(ts: seq<Token>, i: string, o: seq<Token>): Option<Binary>
  {
    if !(|ts| >= |o| && ts[..|o|] == o) then None
    else
      var tail := ts[|o|..];
      if |tail| != 4 || tail[3] != Punct(';') then None
      else if tail[1] == Punct('=') && tail[2] == Ident(i) then
        match tail[0]
        case Punct('+') => Some(Plus)
        case Punct('-') => Some(Minus)
        case Punct('*') => Some(Times)
        case Punct('&') => Some(BitwiseAnd)
        case Punct('|') => Some(BitwiseOr)
        case Punct('^') => Some(BitwiseXor)
        case _ => None
      else if tail[0] == Punct('.') && tail[2] == Group(Paren, [Ident(i)]) then
        match tail[1]
        case Ident("max_assign") => Some(MaxOf)
        case Ident("min_assign") => Some(MinOf)
        case Ident("and_assign") => Some(LogicalAnd)
        case Ident("or_assign") => Some(LogicalOr)
        case _ => None
      else None
  }

  /** The operator that combines two partial results of each reduction. */
  function Combiner(op: RedOp): Binary
  {
    if op.Sub? then Plus else Step(op)
  }

  /** The neutral element each reduction starts from. */
  function IdentityOf(op: RedOp): Value
  {
    match op
    case Add(_) => Num(0) case Sub(_) => Num(0) case Mul(_) => Num(1)
    case Max(_) => Num(I64_MIN) case Min(_) => Num(I64_MAX)
    case And => Truth(true) case Or => Truth(false)
    case BitAnd(_) => Word(true) case BitOr(_) => Word(false) case BitXor(_) => Word(false)
  }

  lemma CallRead(name: string, t: Option<seq<Token>>)
    ensures var c := Call(name, t); |c| >= 2 && c[0] == Ident(name) && c[|c| - 1] == Group(Paren, [])
  {
  }

  lemma CallValueRead(name: string, t: Option<seq<Token>>, d: Domain)
    ensures IdentityValue(Call(name, t), d) == CallValue(name, false, d)
  {
    CallRead(name, t);
    assert Call(name, t)[0] != Punct('!');
  }

  lemma NegatedCallValueRead(name: string, t: Option<seq<Token>>, d: Domain)
    ensures IdentityValue([Punct('!')] + Call(name, t), d) == CallValue(name, true, d)
  {
    CallRead(name, t);
    assert ([Punct('!')] + Call(name, t))[1..] == Call(name, t);
  }

  lemma IdentityRead(op: RedOp)
    ensures IdentityValue(ReductionIdentity(op), DomainOf(op)) == Some(IdentityOf(op))
  {
    match op
    case Add(t) => CallValueRead("zero", t, Integers);
    case Sub(t) => CallValueRead("zero", t, Integers);
    case Mul(t) => CallValueRead("one", t, Integers);
    case Max(t) => CallValueRead("minimum_value", t, Bounded);
    case Min(t) => CallValueRead("maximum_value", t, Bounded);
    case BitAnd(t) => NegatedCallValueRead("zero", t, Words);
    case BitOr(t) => CallValueRead("zero", t, Words);
    case BitXor(t) => CallValueRead("zero", t, Words);
    case And =>
    case Or =>
  }

  lemma CombinerRead(op: RedOp, a1: string, a2: string)
    ensures CombinerOf(ReductionOperation(op, a1, a2), a1, a2) == Some(Combiner(op))
  {
  }

  lemma CompoundRead(o: seq<Token>, c: char, i: string)
    ensures var ts := CompoundAssign(o, c, i);
      |ts| >= |o| && ts[..|o|] == o && ts[|o|..] == [Punct(c), Punct('='), Ident(i), Punct(';')]
  {
  }

  lemma MethodRead(o: seq<Token>, name: string, i: string)
    ensures var ts := MethodAssign(o, name, i);
      |ts| >= |o| && ts[..|o|] == o && ts[|o|..] == [Punct('.'), Ident(name), Group(Paren, [Ident(i)]), Punct(';')]
  {
  }

  lemma AssignmentRead(op: RedOp, i: string, o: seq<Token>)
    ensures AssignmentOf(ReductionOutsideAssignment(op, i, o), i, o) == Some(Step(op))
  {
    if op.Max? || op.Min? || op.And? || op.Or? {
      MethodAssignmentRead(op, i, o);
    } else {
      CompoundAssignmentRead(op, i, o);
    }
  }

  lemma CompoundAssignmentRead(op: RedOp, i: string, o: seq<Token>)
    requires !(op.Max? || op.Min? || op.And? || op.Or?)
    ensures AssignmentOf(ReductionOutsideAssignment(op, i, o), i, o) == Some(Step(op))
  {
    match op
    case Add(_) => CompoundRead(o, '+', i);
    case Sub(_) => CompoundRead(o, '-', i);
    case Mul(_) => CompoundRead(o, '*', i);
    case BitAnd(_) => CompoundRead(o, '&', i);
    case BitOr(_) => CompoundRead(o, '|', i);
    case BitXor(_) => CompoundRead(o, '^', i);
  }

  lemma MethodAssignmentRead(op: RedOp, i: string, o: seq<Token>)
    requires op.Max? || op.Min? || op.And? || op.Or?
    ensures AssignmentOf(ReductionOutsideAssignment(op, i, o), i, o) == Some(Step(op))
  {
    match op
    case Max(_) => MethodRead(o, "max_assign", i);
    case Min(_) => MethodRead(o, "min_assign", i);
    case And => MethodRead(o, "and_assign", i);
    case Or => MethodRead(o, "or_assign", i);
  }

  // ---------------------------------------------------------------- folding

  /** Partial results combined from the identity, left to right. */
  function Fold(c: Binary, e: Value, xs: seq<Value>): Value
  {
    if |xs| == 0 then e else Apply(c, Fold(c, e, xs[..|xs| - 1]), xs[|xs| - 1])
  }

  /** The outer variable updated value by value. */
  function Sequential(s: Binary, init: Value, xs: seq<Value>): Value
  {
    if |xs| == 0 then init else Apply(s, Sequential(s, init, xs[..|xs| - 1]), xs[|xs| - 1])
  }

  predicate AllIn(d: Domain, xs: seq<Value>) { forall k :: 0 <= k < |xs| ==> InDomain(d, xs[k]) }

  ghost predicate Closed(d: Domain, b: Binary)
  {
    forall x, y {:trigger Apply(b, x, y)} :: InDomain(d, x) && InDomain(d, y) ==> InDomain(d, Apply(b, x, y))
  }

  /** `e` is neutral for `c` on both sides. */
  ghost predicate Neutral(d: Domain, c: Binary, e: Value)
  {
    (forall x {:trigger Apply(c, e, x)} :: InDomain(d, x) ==> Apply(c, e, x) == x) &&
    (forall x {:trigger Apply(c, x, e)} :: InDomain(d, x) ==> Apply(c, x, e) == x)
  }

  /** Folding `e` into the outer variable leaves it as it is. */
  ghost predicate RightNeutral(d: Domain, a: Binary, e: Value)
  {
    forall x {:trigger Apply(a, x, e)} :: InDomain(d, x) ==> Apply(a, x, e) == x
  }

  /** Folding a combined partial result equals folding its parts one after the other. */
  ghost predicate Mixed(d: Domain, a: Binary, c: Binary, s: Binary)
  {
    forall x, y, z {:trigger Apply(a, x, Apply(c, y, z))} :: InDomain(d, x) && InDomain(d, y) && InDomain(d, z) ==>
      Apply(a, x, Apply(c, y, z)) == Apply(s, Apply(a, x, y), z)
  }

  ghost predicate Associative(d: Domain, c: Binary)
  {
    forall x, y, z {:trigger Apply(c, x, Apply(c, y, z))} :: InDomain(d, x) && InDomain(d, y) && InDomain(d, z) ==>
      Apply(c, x, Apply(c, y, z)) == Apply(c, Apply(c, x, y), z)
  }

  /** The laws one operator's three tables must satisfy. */
  ghost predicate Lawful(d: Domain, c: Binary, a: Binary, s: Binary, e: Value)
  {
    InDomain(d, e) && Closed(d, c) && Closed(d, s) && RightNeutral(d, a, e) && Neutral(d, c, e) &&
    Mixed(d, a, c, s) && Associative(d, c)
  }

  lemma {:induction false} FoldIn(d: Domain, c: Binary, e: Value, xs: seq<Value>)
    requires InDomain(d, e) && Closed(d, c) && AllIn(d, xs)
    ensures InDomain(d, Fold(c, e, xs))
  {
    if |xs| > 0 {
      FoldIn(d, c, e, xs[..|xs| - 1]);
      assert InDomain(d, xs[|xs| - 1]);
    }
  }

  lemma {:induction false} FoldThenAssign(d: Domain, c: Binary, a: Binary, s: Binary, e: Value, init: Value, xs: seq<Value>)
    requires InDomain(d, e) && Closed(d, c) && RightNeutral(d, a, e) && Mixed(d, a, c, s)
    requires InDomain(d, init) && AllIn(d, xs)
    ensures Apply(a, init, Fold(c, e, xs)) == Sequential(s, init, xs)
  {
    if |xs| > 0 {
      var front := xs[..|xs| - 1];
      var last := xs[|xs| - 1];
      FoldThenAssign(d, c, a, s, e, init, front);
      FoldIn(d, c, e, front);
      assert InDomain(d, last);
      var f := Fold(c, e, front);
      assert Apply(a, init, Apply(c, f, last)) == Apply(s, Apply(a, init, f), last);
    }
  }

  /** Combining the folds of two adjacent parts gives the fold of the whole. */
  lemma {:induction false} FoldSplit(d: Domain, c: Binary, e: Value, xs: seq<Value>, ys: seq<Value>)
    requires InDomain(d, e) && Closed(d, c) && Neutral(d, c, e) && Associative(d, c)
    requires AllIn(d, xs) && AllIn(d, ys)
    ensures Fold(c, e, xs + ys) == Apply(c, Fold(c, e, xs), Fold(c, e, ys))
    decreases |ys|
  {
    FoldIn(d, c, e, xs);
    if |ys| == 0 {
      assert xs + ys == xs;
    } else {
      var front := ys[..|ys| - 1];
      var last := ys[|ys| - 1];
      assert (xs + ys)[..|xs + ys| - 1] == xs + front;
      assert (xs + ys)[|xs + ys| - 1] == last;
      FoldSplit(d, c, e, xs, front);
      FoldIn(d, c, e, front);
      assert InDomain(d, last);
      var f, g := Fold(c, e, xs), Fold(c, e, front);
      assert Apply(c, f, Apply(c, g, last)) == Apply(c, Apply(c, f, g), last);
    }
  }

  lemma LawfulSum()
    ensures Lawful(Integers, Plus, Plus, Plus, Num(0))
  {
    var d := Integers;
    assert Closed(d, Plus) by {
      forall x, y | InDomain(d, x) && InDomain(d, y) ensures InDomain(d, Apply(Plus, x, y)) {}
    }
    assert RightNeutral(d, Plus, Num(0)) by {
      forall x | InDomain(d, x) ensures Apply(Plus, x, Num(0)) == x {}
    }
    assert Neutral(d, Plus, Num(0)) by {
      forall x | InDomain(d, x) ensures Apply(Plus, Num(0), x) == x && Apply(Plus, x, Num(0)) == x {}
    }
    assert Associative(d, Plus) by {
      forall x, y, z | InDomain(d, x) && InDomain(d, y) && InDomain(d, z)
        ensures Apply(Plus, x, Apply(Plus, y, z)) == Apply(Plus, Apply(Plus, x, y), z) {}
    }
    assert Mixed(d, Plus, Plus, Plus);
  }

  lemma LawfulDifference()
    ensures Lawful(Integers, Plus, Minus, Minus, Num(0))
  {
    var d := Integers;
    assert Closed(d, Plus) by {
      forall x, y | InDomain(d, x) && InDomain(d, y) ensures InDomain(d, Apply(Plus, x, y)) {}
    }
    assert Closed(d, Minus) by {
      forall x, y | InDomain(d, x) && InDomain(d, y) ensures InDomain(d, Apply(Minus, x, y)) {}
    }
    assert RightNeutral(d, Minus, Num(0)) by {
      forall x | InDomain(d, x) ensures Apply(Minus, x, Num(0)) == x {}
    }
    assert Neutral(d, Plus, Num(0)) by {
      forall x | InDomain(d, x) ensures Apply(Plus, Num(0), x) == x && Apply(Plus, x, Num(0)) == x {}
    }
    assert Associative(d, Plus) by {
      forall x, y, z | InDomain(d, x) && InDomain(d, y) && InDomain(d, z)
        ensures Apply(Plus, x, Apply(Plus, y, z)) == Apply(Plus, Apply(Plus, x, y), z) {}
    }
    assert Mixed(d, Minus, Plus, Minus) by {
      forall x, y, z | InDomain(d, x) && InDomain(d, y) && InDomain(d, z)
        ensures Apply(Minus, x, Apply(Plus, y, z)) == Apply(Minus, Apply(Minus, x, y), z) {}
    }
  }

  lemma LawfulProduct()
    ensures Lawful(Integers, Times, Times, Times, Num(1))
  {
    var d := Integers;
    assert Closed(d, Times) by {
      forall x, y | InDomain(d, x) && InDomain(d, y) ensures InDomain(d, Apply(Times, x, y)) {}
    }
    assert RightNeutral(d, Times, Num(1)) by {
      forall x | InDomain(d, x) ensures Apply(Times, x, Num(1)) == x {}
    }
    assert Neutral(d, Times, Num(1)) by {
      forall x | InDomain(d, x) ensures Apply(Times, Num(1), x) == x && Apply(Times, x, Num(1)) == x {}
    }
    assert Associative(d, Times) by {
      forall x, y, z | InDomain(d, x) && InDomain(d, y) && InDomain(d, z)
        ensures Apply(Times, x, Apply(Times, y, z)) == Apply(Times, Apply(Times, x, y), z)
      {
        MulAssoc(x.n, y.n, z.n);
      }
    }
    assert Mixed(d, Times, Times, Times);
  }

  lemma LawfulMax()
    ensures Lawful(Bounded, MaxOf, MaxOf, MaxOf, Num(I64_MIN))
  {
    var d := Bounded;
    assert Closed(d, MaxOf) by {
      forall x, y | InDomain(d, x) && InDomain(d, y) ensures InDomain(d, Apply(MaxOf, x, y)) {}
    }
    assert RightNeutral(d, MaxOf, Num(I64_MIN)) by {
      forall x | InDomain(d, x) ensures Apply(MaxOf, x, Num(I64_MIN)) == x {}
    }
    assert Neutral(d, MaxOf, Num(I64_MIN)) by {
      forall x | InDomain(d, x) ensures Apply(MaxOf, Num(I64_MIN), x) == x && Apply(MaxOf, x, Num(I64_MIN)) == x {}
    }
    assert Associative(d, MaxOf) by {
      forall x, y, z | InDomain(d, x) && InDomain(d, y) && InDomain(d, z)
        ensures Apply(MaxOf, x, Apply(MaxOf, y, z)) == Apply(MaxOf, Apply(MaxOf, x, y), z) {}
    }
    assert Mixed(d, MaxOf, MaxOf, MaxOf);
  }

  lemma LawfulMin()
    ensures Lawful(Bounded, MinOf, MinOf, MinOf, Num(I64_MAX))
  {
    var d := Bounded;
    assert Closed(d, MinOf) by {
      forall x, y | InDomain(d, x) && InDomain(d, y) ensures InDomain(d, Apply(MinOf, x, y)) {}
    }
    assert RightNeutral(d, MinOf, Num(I64_MAX)) by {
      forall x | InDomain(d, x) ensures Apply(MinOf, x, Num(I64_MAX)) == x {}
    }
    assert Neutral(d, MinOf, Num(I64_MAX)) by {
      forall x | InDomain(d, x) ensures Apply(MinOf, Num(I64_MAX), x) == x && Apply(MinOf, x, Num(I64_MAX)) == x {}
    }
    assert Associative(d, MinOf) by {
      forall x, y, z | InDomain(d, x) && InDomain(d, y) && InDomain(d, z)
        ensures Apply(MinOf, x, Apply(MinOf, y, z)) == Apply(MinOf, Apply(MinOf, x, y), z) {}
    }
    assert Mixed(d, MinOf, MinOf, MinOf);
  }

  lemma LawfulAnd()
    ensures Lawful(Booleans, LogicalAnd, LogicalAnd, LogicalAnd, Truth(true))
  {
    var d := Booleans;
    assert Closed(d, LogicalAnd) by {
      forall x, y | InDomain(d, x) && InDomain(d, y) ensures InDomain(d, Apply(LogicalAnd, x, y)) {}
    }
    assert RightNeutral(d, LogicalAnd, Truth(true)) by {
      forall x | InDomain(d, x) ensures Apply(LogicalAnd, x, Truth(true)) == x {}
    }
    assert Neutral(d, LogicalAnd, Truth(true)) by {
      forall x | InDomain(d, x) ensures Apply(LogicalAnd, Truth(true), x) == x && Apply(LogicalAnd, x, Truth(true)) == x {}
    }
    assert Associative(d, LogicalAnd) by {
      forall x, y, z | InDomain(d, x) && InDomain(d, y) && InDomain(d, z)
        ensures Apply(LogicalAnd, x, Apply(LogicalAnd, y, z)) == Apply(LogicalAnd, Apply(LogicalAnd, x, y), z) {}
    }
    assert Mixed(d, LogicalAnd, LogicalAnd, LogicalAnd);
  }

  lemma LawfulOr()
    ensures Lawful(Booleans, LogicalOr, LogicalOr, LogicalOr, Truth(false))
  {
    var d := Booleans;
    assert Closed(d, LogicalOr) by {
      forall x, y | InDomain(d, x) && InDomain(d, y) ensures InDomain(d, Apply(LogicalOr, x, y)) {}
    }
    assert RightNeutral(d, LogicalOr, Truth(false)) by {
      forall x | InDomain(d, x) ensures Apply(LogicalOr, x, Truth(false)) == x {}
    }
    assert Neutral(d, LogicalOr, Truth(false)) by {
      forall x | InDomain(d, x) ensures Apply(LogicalOr, Truth(false), x) == x && Apply(LogicalOr, x, Truth(false)) == x {}
    }
    assert Associative(d, LogicalOr) by {
      forall x, y, z | InDomain(d, x) && InDomain(d, y) && InDomain(d, z)
        ensures Apply(LogicalOr, x, Apply(LogicalOr, y, z)) == Apply(LogicalOr, Apply(LogicalOr, x, y), z) {}
    }
    assert Mixed(d, LogicalOr, LogicalOr, LogicalOr);
  }

  lemma MulAssoc(a: int, b: int, c: int)
    ensures a * (b * c) == (a * b) * c
  {
  }

  lemma PointwiseAssociative(b: Binary, u: seq<bool>, v: seq<bool>, w: seq<bool>)
    requires b == BitwiseAnd || b == BitwiseOr || b == BitwiseXor
    requires |u| == |v| == |w|
    ensures Pointwise(b, u, Pointwise(b, v, w)) == Pointwise(b, Pointwise(b, u, v), w)
  {
  }

  /** `&` with all ones, and `|` and `^` with all zeros, over 64-bit words. */
  lemma LawfulBitwise(b: Binary, bit: bool)
    requires (b == BitwiseAnd && bit) || ((b == BitwiseOr || b == BitwiseXor) && !bit)
    ensures Lawful(Words, b, b, b, Word(bit))
  {
    var d, e := Words, Word(bit);
    assert Closed(d, b) by {
      forall x, y | InDomain(d, x) && InDomain(d, y) ensures InDomain(d, Apply(b, x, y)) {}
    }
    assert Neutral(d, b, e) && RightNeutral(d, b, e) by {
      forall x | InDomain(d, x) ensures Apply(b, e, x) == x && Apply(b, x, e) == x
      {
        assert Pointwise(b, e.w, x.w) == x.w;
        assert Pointwise(b, x.w, e.w) == x.w;
      }
    }
    assert Associative(d, b) by {
      forall x, y, z | InDomain(d, x) && InDomain(d, y) && InDomain(d, z)
        ensures Apply(b, x, Apply(b, y, z)) == Apply(b, Apply(b, x, y), z)
      {
        PointwiseAssociative(b, x.w, y.w, z.w);
      }
    }
    assert Mixed(d, b, b, b);
  }

  /** Every operator's identity, combiner and step obey the folding laws. */
  lemma LawfulTables(op: RedOp)
    ensures Lawful(DomainOf(op), Combiner(op), Step(op), Step(op), IdentityOf(op))
  {
    match op
    case Add(_) => LawfulSum();
    case Sub(_) => LawfulDifference();
    case Mul(_) => LawfulProduct();
    case Max(_) => LawfulMax();
    case Min(_) => LawfulMin();
    case And => LawfulAnd();
    case Or => LawfulOr();
    case BitAnd(_) => LawfulBitwise(BitwiseAnd, true);
    case BitOr(_) => LawfulBitwise(BitwiseOr, false);
    case BitXor(_) => LawfulBitwise(BitwiseXor, false);
  }

  /** The emitted tables reduce correctly: starting every partial result
      from the emitted identity, combining partial results with the emitted
      operation in any grouping, and folding the total into the outer
      variable with the emitted assignment, updates the outer variable
      exactly as applying the operator to it value by value would. */
  lemma ReductionMeaning(op: RedOp, a1: string, a2: string, i: string, o: seq<Token>, init: Value, xs: seq<Value>)
    requires InDomain(DomainOf(op), init) && AllIn(DomainOf(op), xs)
    ensures var d := DomainOf(op);
      var e := IdentityValue(ReductionIdentity(op), d);
      var c := CombinerOf(ReductionOperation(op, a1, a2), a1, a2);
      var a := AssignmentOf(ReductionOutsideAssignment(op, i, o), i, o);
      e.Some? && c.Some? && a.Some? &&
      Apply(a.value, init, Fold(c.value, e.value, xs)) == Sequential(Step(op), init, xs)
  {
    IdentityRead(op);
    CombinerRead(op, a1, a2);
    AssignmentRead(op, i, o);
    LawfulTables(op);
    FoldThenAssign(DomainOf(op), Combiner(op), Step(op), Step(op), IdentityOf(op), init, xs);
  }

  /** Any split of the values into two runs, reduced separately and
      combined with the emitted operation, gives the same partial result. */
  lemma ReductionSplit(op: RedOp, a1: string, a2: string, xs: seq<Value>, ys: seq<Value>)
    requires AllIn(DomainOf(op), xs) && AllIn(DomainOf(op), ys)
    ensures var d := DomainOf(op);
      var e := IdentityValue(ReductionIdentity(op), d);
      var c := CombinerOf(ReductionOperation(op, a1, a2), a1, a2);
      e.Some? && c.Some? &&
      Fold(c.value, e.value, xs + ys) == Apply(c.value, Fold(c.value, e.value, xs), Fold(c.value, e.value, ys))
  {
    IdentityRead(op);
    CombinerRead(op, a1, a2);
    LawfulTables(op);
    FoldSplit(DomainOf(op), Combiner(op), IdentityOf(op), xs, ys);
  }
}
