// Default analysis of `compose_struct!` (macros/src/compose_struct.rs,
// module `has_default`, and the places in `compose` that act on it).
// Every node of the tree is given a four-valued answer: a `Default`
// implementation is required, optional, absent, or the defaults given are
// contradictory.
module HasDefault {
  import opened Wrappers
  import opened ComposeData

  datatype QuadBool = TrueRequired | TrueOptional | False | NotAllowed

  // ---------------------------------------------------------------- merging

  /** The closure `merge_as_fields` passes to `reduce`. */
  function FieldsOp(b1: QuadBool, b2: QuadBool): QuadBool
  {
    match (b1, b2)
    case (NotAllowed, NotAllowed) => False
    case (NotAllowed, b) => b
    case (b, NotAllowed) => b
    case (TrueOptional, TrueOptional) => TrueOptional
    case (TrueRequired, _) => TrueRequired
    case (_, TrueRequired) => TrueRequired
    case _ => False
  }

  /** The closure `merge_as_variants` passes to `reduce`. */
  function VariantsOp(b1: QuadBool, b2: QuadBool): QuadBool
  {
    match (b1, b2)
    case (NotAllowed, _) => NotAllowed
    case (TrueOptional, _) => NotAllowed
    case (_, NotAllowed) => NotAllowed
    case (_, TrueOptional) => NotAllowed
    case (TrueRequired, TrueRequired) => NotAllowed
    case (TrueRequired, _) => TrueRequired
    case (_, TrueRequired) => TrueRequired
    case (False, False) => False
  }

  /** `Iterator::fold` with the fields rule, from an accumulator. */
  function FoldFields(acc: QuadBool, bs: seq<QuadBool>): QuadBool
    decreases |bs|
  {
    if |bs| == 0 then acc else FoldFields(FieldsOp(acc, bs[0]), bs[1..])
  }

  function FoldVariants(acc: QuadBool, bs: seq<QuadBool>): QuadBool
    decreases |bs|
  {
    if |bs| == 0 then acc else FoldVariants(VariantsOp(acc, bs[0]), bs[1..])
  }

  /** `merge_as_fields`: `reduce` with the fields rule, `False` when empty. */
  function MergeAsFields(bs: seq<QuadBool>): QuadBool
  {
    if |bs| == 0 then False else FoldFields(bs[0], bs[1..])
  }

  /** `merge_as_variants`: `reduce` with the variants rule, `NotAllowed` when empty. */
  function MergeAsVariants(bs: seq<QuadBool>): QuadBool
  {
    if |bs| == 0 then NotAllowed else FoldVariants(bs[0], bs[1..])
  }

  /** `convert_as_data`: the answer of a nested type as seen by its parent. */
  function ConvertAsData(b: QuadBool): (r: QuadBool)
    ensures r != TrueRequired
    ensures r == TrueOptional <==> b == TrueRequired || b == TrueOptional
    ensures b == False || b == NotAllowed ==> r == b
  {
    match b
    case NotAllowed => NotAllowed
    case TrueRequired => TrueOptional
    case TrueOptional => TrueOptional
    case False => False
  }

  /** A variant's answer from its `= default` flag and its fields' answer. */
  function VariantAnswer(isDefault: bool, fields: QuadBool): (r: QuadBool)
    ensures r == TrueRequired <==>
      (isDefault && (fields == TrueRequired || fields == TrueOptional)) || (!isDefault && fields == TrueRequired)
    ensures r == False <==> !isDefault && (fields == False || fields == TrueOptional)
    ensures r == NotAllowed <==> (isDefault && fields == False) || fields == NotAllowed
    ensures r != TrueOptional
  {
    match (isDefault, fields)
    case (true, TrueRequired) => TrueRequired
    case (true, TrueOptional) => TrueRequired
    case (false, TrueRequired) => TrueRequired
    case (false, False) => False
    case (false, TrueOptional) => False
    case (true, False) => NotAllowed
    case (_, NotAllowed) => NotAllowed
  }

  // ---------------------------------------------------------------- properties of the merges

  /** The fields rule never produces `NotAllowed`, so neither does a fold of two or more. */
  lemma {:induction false} FoldFieldsNeverNotAllowed(acc: QuadBool, bs: seq<QuadBool>)
    requires |bs| > 0 || acc != NotAllowed
    ensures FoldFields(acc, bs) != NotAllowed
    decreases |bs|
  {
    if |bs| > 0 {
      FoldFieldsNeverNotAllowed(FieldsOp(acc, bs[0]), bs[1..]);
    }
  }

  /** `TrueRequired` wins: the fold is `TrueRequired` exactly when the accumulator or some element is. */
  lemma {:induction false} FoldFieldsRequired(acc: QuadBool, bs: seq<QuadBool>)
    ensures FoldFields(acc, bs) == TrueRequired <==> acc == TrueRequired || TrueRequired in bs
    decreases |bs|
  {
    if |bs| > 0 {
      FoldFieldsRequired(FieldsOp(acc, bs[0]), bs[1..]);
      assert TrueRequired in bs <==> bs[0] == TrueRequired || TrueRequired in bs[1..] by {
        assert bs == [bs[0]] + bs[1..];
      }
    }
  }

  /** `TrueOptional` needs every operand to be `TrueOptional` or absorbed `NotAllowed`. */
  lemma {:induction false} FoldFieldsOptional(acc: QuadBool, bs: seq<QuadBool>)
    requires FoldFields(acc, bs) == TrueOptional
    ensures acc == TrueOptional || acc == NotAllowed
    ensures forall i :: 0 <= i < |bs| ==> bs[i] == TrueOptional || bs[i] == NotAllowed
    ensures acc == TrueOptional || TrueOptional in bs
    decreases |bs|
  {
    if |bs| > 0 {
      var next := FieldsOp(acc, bs[0]);
      FoldFieldsOptional(next, bs[1..]);
      assert forall i :: 1 <= i < |bs| ==> bs[i] == bs[1..][i - 1];
      assert bs[0] in bs;
    }
  }

  /** A fold over only `TrueOptional` values stays `TrueOptional`. */
  lemma {:induction false} FoldFieldsAllOptional(bs: seq<QuadBool>)
    requires forall i :: 0 <= i < |bs| ==> bs[i] == TrueOptional
    ensures FoldFields(TrueOptional, bs) == TrueOptional
    decreases |bs|
  {
    if |bs| > 0 {
      FoldFieldsAllOptional(bs[1..]);
    }
  }

  /** `merge_as_fields`: `False` for no fields; `NotAllowed` only for a single
      `NotAllowed` field; `TrueRequired` iff some field requires a default;
      `TrueOptional` only if every field is optional or not allowed, and
      whenever every field is optional; `False` in every remaining case. */
  lemma MergeAsFieldsSpec(bs: seq<QuadBool>)
    ensures bs == [] ==> MergeAsFields(bs) == False
    ensures MergeAsFields(bs) == NotAllowed <==> bs == [NotAllowed]
    ensures MergeAsFields(bs) == TrueRequired <==> TrueRequired in bs
    ensures MergeAsFields(bs) == TrueOptional ==>
      TrueOptional in bs && forall i :: 0 <= i < |bs| ==> bs[i] == TrueOptional || bs[i] == NotAllowed
    ensures |bs| > 0 && (forall i :: 0 <= i < |bs| ==> bs[i] == TrueOptional) ==> MergeAsFields(bs) == TrueOptional
  {
    if |bs| > 0 {
      assert bs == [bs[0]] + bs[1..];
      FoldFieldsRequired(bs[0], bs[1..]);
      if |bs| > 1 {
        FoldFieldsNeverNotAllowed(bs[0], bs[1..]);
      }
      if MergeAsFields(bs) == TrueOptional {
        FoldFieldsOptional(bs[0], bs[1..]);
        assert forall i :: 1 <= i < |bs| ==> bs[i] == bs[1..][i - 1];
      }
      if forall i :: 0 <= i < |bs| ==> bs[i] == TrueOptional {
        assert forall i :: 0 <= i < |bs[1..]| ==> bs[1..][i] == bs[i + 1];
        FoldFieldsAllOptional(bs[1..]);
      }
    }
  }

  function CountRequired(bs: seq<QuadBool>): nat
  {
    if |bs| == 0 then 0 else (if bs[0] == TrueRequired then 1 else 0) + CountRequired(bs[1..])
  }

  /** Closed form of the variants fold from an accumulator. */
  lemma {:induction false} FoldVariantsSpec(acc: QuadBool, bs: seq<QuadBool>)
    ensures var r := FoldVariants(acc, bs);
      var all := [acc] + bs;
      (|bs| > 0 && (TrueOptional in all || NotAllowed in all) ==> r == NotAllowed) &&
      (!(TrueOptional in all) && !(NotAllowed in all) ==>
        r == (if CountRequired(all) == 0 then False
              else if CountRequired(all) == 1 then TrueRequired
              else NotAllowed))
    decreases |bs|
  {
    var all := [acc] + bs;
    if |bs| == 0 {
      assert all == [acc];
      assert CountRequired(all) == (if acc == TrueRequired then 1 else 0) by {
        assert all[1..] == [];
      }
    } else {
      var next := VariantsOp(acc, bs[0]);
      FoldVariantsSpec(next, bs[1..]);
      var all' := [next] + bs[1..];
      assert all[1..] == bs;
      assert all'[1..] == bs[1..];
      assert bs == [bs[0]] + bs[1..];
      assert bs[1..] == all[2..];
      assert TrueOptional in all <==> acc == TrueOptional || bs[0] == TrueOptional || TrueOptional in bs[1..];
      assert NotAllowed in all <==> acc == NotAllowed || bs[0] == NotAllowed || NotAllowed in bs[1..];
      assert CountRequired(all) == (if acc == TrueRequired then 1 else 0) + CountRequired(bs);
      assert CountRequired(bs) == (if bs[0] == TrueRequired then 1 else 0) + CountRequired(bs[1..]);
      assert CountRequired(all') == (if next == TrueRequired then 1 else 0) + CountRequired(bs[1..]);
      if |bs| == 1 {
        assert FoldVariants(acc, bs) == next;
        assert CountRequired(bs[1..]) == 0;
      }
    }
  }

  /** `merge_as_variants`: `NotAllowed` for no variants; otherwise
      `NotAllowed` if any answer is optional or not allowed (unless it is the
      only one) or at least two require a default, `TrueRequired` for exactly
      one requiring variant among `False`s, and `False` if all are `False`. */
  lemma MergeAsVariantsSpec(bs: seq<QuadBool>)
    ensures bs == [] ==> MergeAsVariants(bs) == NotAllowed
    ensures |bs| == 1 ==> MergeAsVariants(bs) == bs[0]
    ensures |bs| >= 2 && (TrueOptional in bs || NotAllowed in bs) ==> MergeAsVariants(bs) == NotAllowed
    ensures !(TrueOptional in bs) && !(NotAllowed in bs) && |bs| > 0 ==>
      MergeAsVariants(bs) == (if CountRequired(bs) == 0 then False
                              else if CountRequired(bs) == 1 then TrueRequired
                              else NotAllowed)
  {
    if |bs| > 0 {
      FoldVariantsSpec(bs[0], bs[1..]);
      assert [bs[0]] + bs[1..] == bs;
    }
  }

  // ---------------------------------------------------------------- the tree

  /** `HasDefault for Data`: structs and enums through `convert_as_data`,
      aliases are optional. */
  function DataHasDefault(d: Data): (r: QuadBool)
    ensures r != TrueRequired
    decreases d, 3
  {
    ConvertAsData(
      match d
      case StructData(s) => FieldsHasDefault(s.fields)
      case EnumData(e) => EnumHasDefault(e)
      case _ => TrueOptional)
  }

  function EnumHasDefault(e: Enum): QuadBool
    decreases e, 2
  {
    MergeAsVariants(VariantAnswers(e.variants))
  }

  function VariantAnswers(vs: seq<EnumVariant>): (r: seq<QuadBool>)
    ensures |r| == |vs|
    decreases vs, 1
  {
    if |vs| == 0 then [] else [VariantHasDefault(vs[0])] + VariantAnswers(vs[1..])
  }

  function VariantHasDefault(v: EnumVariant): QuadBool
    decreases v, 2
  {
    VariantAnswer(v.isDefault, FieldsHasDefault(v.fields))
  }

  function FieldsHasDefault(f: Fields): QuadBool
    decreases f, 2
  {
    if f.Unit? then TrueOptional else MergeAsFields(FieldAnswers(f))
  }

  /** The answers of the fields of an unnamed or named list, in order. */
  function FieldAnswers(f: Fields): (r: seq<QuadBool>)
    requires !f.Unit?
    ensures f.Unnamed? ==> |r| == |f.unnamed|
    ensures f.Named? ==> |r| == |f.named|
    decreases f, 1
  {
    match f
    case Unnamed(fs, _) => seq(|fs|, i requires 0 <= i < |fs| => ValueHasDefault(fs[i].value))
    case Named(fs, _) => seq(|fs|, i requires 0 <= i < |fs| => ValueHasDefault(fs[i].value))
  }

  /** A field with a default expression requires a default, one without
      does not have one, an inline type answers through `convert_as_data`. */
  function ValueHasDefault(v: FieldValue): (r: QuadBool)
    ensures v.TypeValue? ==> (r == TrueRequired <==> v.default.Some?) && (r == False <==> v.default.None?)
    ensures v.DataValue? ==> r != TrueRequired
    decreases v, 0
  {
    match v
    case TypeValue(_, dflt) => if dflt.Some? then TrueRequired else False
    case DataValue(_, d) => DataHasDefault(d)
  }

  lemma {:induction false} VariantAnswersAt(vs: seq<EnumVariant>, i: nat)
    requires i < |vs|
    ensures VariantAnswers(vs)[i] == VariantHasDefault(vs[i])
    decreases i
  {
    if i > 0 { VariantAnswersAt(vs[1..], i - 1); }
  }

  /** A nested type never forces its parent to implement `Default`: a
      struct whose fields are all inline types is optional at most. */
  lemma NestedNeverRequires(fs: seq<NamedField>)
    requires forall i :: 0 <= i < |fs| ==> fs[i].value.DataValue?
    ensures FieldsHasDefault(Named(fs, [])) != TrueRequired
  {
    var bs := FieldAnswers(Named(fs, []));
    MergeAsFieldsSpec(bs);
    assert TrueRequired !in bs;
  }

  // ---------------------------------------------------------------- decisions taken in `compose`

  datatype DefaultImpl = NoImpl | Impl | DefaultError

  /** `Struct::compose`: a `Default` impl for `TrueRequired` or
      `TrueOptional`, an error for `NotAllowed`, nothing for `False`. */
  function StructDefaultImpl(s: Struct): (r: DefaultImpl)
    ensures r == Impl <==> FieldsHasDefault(s.fields) in {TrueRequired, TrueOptional}
    ensures r == DefaultError <==> FieldsHasDefault(s.fields) == NotAllowed
  {
    match FieldsHasDefault(s.fields)
    case NotAllowed => DefaultError
    case TrueRequired => Impl
    case TrueOptional => Impl
    case False => NoImpl
  }

  /** `Enum::compose` as written: `find_map` over the variants stops at the
      first `TrueRequired` (its index) and fails on a `NotAllowed` met before it. */
  function EnumDefaultVariantAsWritten(bs: seq<QuadBool>): (r: Result<Option<nat>, string>)
    ensures r.Ok? && r.value.Some? ==>
      (r.value.value < |bs| && bs[r.value.value] == TrueRequired
       && forall j :: 0 <= j < r.value.value ==> bs[j] != TrueRequired && bs[j] != NotAllowed)
    ensures r.Ok? && r.value.None? ==> forall j :: 0 <= j < |bs| ==> bs[j] != TrueRequired && bs[j] != NotAllowed
    ensures r.Err? ==> exists j :: 0 <= j < |bs| && bs[j] == NotAllowed
  {
    if |bs| == 0 then Ok(None)
    else if bs[0] == TrueRequired then Ok(Some(0))
    else if bs[0] == NotAllowed then
      var e: Result<Option<nat>, string> := Err("default given twice or nested default is malformed"); e
    else match EnumDefaultVariantAsWritten(bs[1..])
      case Err(e) => assert bs[1..][0] in bs[1..]; Err(e)
      case Ok(None) => Ok(None)
      case Ok(Some(k)) => Ok(Some(k + 1))
  }

  /** Two `= default` unit variants: the source accepts them and takes the
      first, though the merged answer of the enum is `NotAllowed`. */
  lemma TwoDefaultVariantsAccepted()
    ensures var vs := [EnumVariant([], "A", Unit, true), EnumVariant([], "B", Unit, true)];
      EnumDefaultVariantAsWritten(VariantAnswers(vs)) == Ok(Some(0))
      && EnumHasDefault(Enum("E", [], [], [], [], vs, [])) == NotAllowed
  {
    var vs := [EnumVariant([], "A", Unit, true), EnumVariant([], "B", Unit, true)];
    assert VariantAnswers(vs) == [TrueRequired, TrueRequired] by {
      VariantAnswersAt(vs, 0);
      VariantAnswersAt(vs, 1);
    }
  }

  /** The decision the error message of `Enum::compose` describes: the
      enum's merged answer must not be `NotAllowed`; then the first variant
      requiring a default, if any, is the default. */
  function EnumDefaultVariant(e: Enum): (r: Result<Option<nat>, string>)
    ensures r.Err? <==> EnumHasDefault(e) == NotAllowed && |e.variants| > 0
    ensures r.Ok? && r.value.Some? ==>
      (r.value.value < |e.variants|
       && VariantHasDefault(e.variants[r.value.value]) == TrueRequired
       && forall j :: 0 <= j < |e.variants| && j != r.value.value ==> VariantHasDefault(e.variants[j]) == False)
    ensures r.Ok? && r.value.None? ==> forall j :: 0 <= j < |e.variants| ==> VariantHasDefault(e.variants[j]) == False
  {
    var bs := VariantAnswers(e.variants);
    MergeAsVariantsSpec(bs);
    forall j | 0 <= j < |e.variants| ensures bs[j] == VariantHasDefault(e.variants[j]) {
      VariantAnswersAt(e.variants, j);
    }
    if |bs| == 0 then Ok(None)
    else if EnumHasDefault(e) == NotAllowed then Err("default given twice or nested default is malformed")
    else
      assert !(TrueOptional in bs) && !(NotAllowed in bs) by {
        if |bs| == 1 {
          assert bs[0] != TrueOptional by { VariantAnswersAt(e.variants, 0); }
        }
      }
      ExactlyOneRequired(bs);
      var k := FirstRequired(bs);
      if k == |bs| then Ok(None) else Ok(Some(k))
  }

  /** Index of the first `TrueRequired`, or the length. */
  function FirstRequired(bs: seq<QuadBool>): (k: nat)
    ensures k <= |bs|
    ensures k < |bs| ==> bs[k] == TrueRequired
    ensures forall j :: 0 <= j < k ==> bs[j] != TrueRequired
  {
    if |bs| == 0 then 0
    else if bs[0] == TrueRequired then 0
    else 1 + FirstRequired(bs[1..])
  }

  /** With no `TrueOptional`/`NotAllowed`, at most one `TrueRequired` leaves
      all other answers `False`. */
  lemma {:induction false} ExactlyOneRequired(bs: seq<QuadBool>)
    requires !(TrueOptional in bs) && !(NotAllowed in bs)
    requires CountRequired(bs) <= 1
    ensures CountRequired(bs) == 0 ==> forall j :: 0 <= j < |bs| ==> bs[j] == False
    ensures CountRequired(bs) == 1 ==>
      (FirstRequired(bs) < |bs| && forall j :: 0 <= j < |bs| && j != FirstRequired(bs) ==> bs[j] == False)
    decreases |bs|
  {
    if |bs| > 0 {
      assert bs == [bs[0]] + bs[1..];
      ExactlyOneRequired(bs[1..]);
      assert forall j :: 1 <= j < |bs| ==> bs[j] == bs[1..][j - 1];
      assert bs[0] in bs;
    }
  }
}
