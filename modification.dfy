// The rewriting pass `compose_struct!` runs between parsing and code
// generation (macros/src/compose_struct.rs, module `modification`).
// The source rewrites the tree in place through `&mut` references; here
// each rewrite is a function from the old tree to the new one.
module Modification {
  import opened Wrappers
  import opened Tokens
  import opened ComposeData
  import opened HasDefault

  /** `quote!( std::default::Default::default() )` */
  const DEFAULT_EXPR: seq<Token> :=
    [Ident("std"), Punct(':'), Punct(':'), Ident("default"), Punct(':'), Punct(':'),
     Ident("Default"), Punct(':'), Punct(':'), Ident("default"), Group(Paren, [])]

  // ---------------------------------------------------------------- tree size

  // Number of nodes of a tree; the rewrites below never change it, which
  // is what lets `Modify*` recurse into children it has just rewritten.

  function DataSize(d: Data): nat
    decreases d, 2
  {
    match d
    case StructData(s) => 1 + FieldsSize(s.fields)
    case EnumData(e) => 1 + VariantsSize(e.variants) + DatasSize(e.enclosed)
    case _ => 1
  }

  function DatasSize(ds: seq<Data>): nat
    decreases ds, 1
  {
    if |ds| == 0 then 0 else 1 + DataSize(ds[0]) + DatasSize(ds[1..])
  }

  function FieldsSize(f: Fields): nat
    decreases f, 2
  {
    match f
    case Unit => 1
    case Unnamed(fs, enc) => 1 + UnnamedSize(fs) + DatasSize(enc)
    case Named(fs, enc) => 1 + NamedSize(fs) + DatasSize(enc)
  }

  function UnnamedSize(fs: seq<UnnamedField>): nat
    decreases fs, 1
  {
    if |fs| == 0 then 0 else 1 + ValueSize(fs[0].value) + UnnamedSize(fs[1..])
  }

  function NamedSize(fs: seq<NamedField>): nat
    decreases fs, 1
  {
    if |fs| == 0 then 0 else 1 + ValueSize(fs[0].value) + NamedSize(fs[1..])
  }

  function ValueSize(v: FieldValue): nat
    decreases v, 0
  {
    match v
    case TypeValue(_, _) => 1
    case DataValue(_, d) => 1 + DataSize(d)
  }

  function VariantsSize(vs: seq<EnumVariant>): nat
    decreases vs, 1
  {
    if |vs| == 0 then 0 else 1 + FieldsSize(vs[0].fields) + VariantsSize(vs[1..])
  }

  // ---------------------------------------------------------------- check_attr_flag

  datatype Flag = PubAllFlag | DefaultFlag

  predicate Flagged(a: Attr, flag: Flag)
  {
    match flag
    case PubAllFlag => a.PubAll?
    case DefaultFlag => a.Default?
  }

  /** `Iterator::position`: index of the first flagged attribute, or the length. */
  function FirstFlagged(attrs: seq<Attr>, flag: Flag): (k: nat)
    ensures k <= |attrs|
    ensures k < |attrs| ==> Flagged(attrs[k], flag)
    ensures forall j :: 0 <= j < k ==> !Flagged(attrs[j], flag)
  {
    if |attrs| == 0 then 0
    else if Flagged(attrs[0], flag) then 0
    else 1 + FirstFlagged(attrs[1..], flag)
  }

  /** `check_attr_flag`: removes and returns the first attribute carrying the
      flag; with none, the list is left as it is. */
  function CheckAttrFlag(attrs: seq<Attr>, flag: Flag): (r: (seq<Attr>, Option<Attr>))
    ensures r.1.None? <==> forall j :: 0 <= j < |attrs| ==> !Flagged(attrs[j], flag)
    ensures r.1.None? ==> r.0 == attrs
    ensures r.1.Some? ==> Flagged(r.1.value, flag) && |r.0| == |attrs| - 1
    ensures r.1.Some? ==> exists k :: (0 <= k < |attrs| && attrs[k] == r.1.value
      && (forall j :: 0 <= j < k ==> !Flagged(attrs[j], flag))
      && r.0 == attrs[..k] + attrs[k + 1..])
  {
    var k := FirstFlagged(attrs, flag);
    if k == |attrs| then (attrs, None)
    else (attrs[..k] + attrs[k + 1..], Some(attrs[k]))
  }

  // ---------------------------------------------------------------- ordering of names

  /** `String::cmp`: lexicographic order on characters. */
  predicate StrLt(a: string, b: string)
  {
    if |a| == 0 then |b| > 0
    else if |b| == 0 then false
    else a[0] < b[0] || (a[0] == b[0] && StrLt(a[1..], b[1..]))
  }

  lemma {:induction false} StrLtIrreflexive(a: string)
    ensures !StrLt(a, a)
  {
    if |a| > 0 { StrLtIrreflexive(a[1..]); }
  }

  lemma {:induction false} StrLtTransitive(a: string, b: string, c: string)
    requires StrLt(a, b) && StrLt(b, c)
    ensures StrLt(a, c)
  {
    if |a| > 0 && |b| > 0 && |c| > 0 && a[0] == b[0] && b[0] == c[0] {
      StrLtTransitive(a[1..], b[1..], c[1..]);
    }
  }

  lemma {:induction false} StrLtTotal(a: string, b: string)
    requires a != b
    ensures StrLt(a, b) || StrLt(b, a)
  {
    if |a| > 0 && |b| > 0 && a[0] == b[0] {
      assert a == [a[0]] + a[1..] && b == [b[0]] + b[1..];
      StrLtTotal(a[1..], b[1..]);
    }
  }

  predicate StrictlySorted(s: seq<string>)
  {
    forall i, j :: 0 <= i < j < |s| ==> StrLt(s[i], s[j])
  }

  lemma SortedCons(h: string, t: seq<string>)
    requires StrictlySorted(t)
    requires forall y :: y in t ==> StrLt(h, y)
    ensures StrictlySorted([h] + t)
  {
    var s := [h] + t;
    forall i, j | 0 <= i < j < |s| ensures StrLt(s[i], s[j]) {
      if i == 0 {
        assert s[j] == t[j - 1];
        assert t[j - 1] in t;
      } else {
        assert s[i] == t[i - 1] && s[j] == t[j - 1];
      }
    }
  }

  /** Inserts a name into a strictly sorted list, keeping it strictly sorted. */
  function InsertName(x: string, s: seq<string>): (r: seq<string>)
    requires StrictlySorted(s)
    ensures StrictlySorted(r)
    ensures forall y :: y in r <==> y == x || y in s
  {
    if |s| == 0 then [x]
    else if x == s[0] then s
    else if StrLt(x, s[0]) then
      BelowHeadBelowAll(x, s);
      SortedCons(x, s);
      [x] + s
    else
      StrLtTotal(x, s[0]);
      var t := InsertName(x, s[1..]);
      assert s == [s[0]] + s[1..];
      HeadBelowInserted(x, s, t);
      SortedCons(s[0], t);
      [s[0]] + t
  }

  lemma BelowHeadBelowAll(x: string, s: seq<string>)
    requires StrictlySorted(s) && |s| > 0 && StrLt(x, s[0])
    ensures forall y :: y in s ==> StrLt(x, y)
  {
    forall y | y in s ensures StrLt(x, y) {
      var k :| 0 <= k < |s| && s[k] == y;
      if k > 0 { StrLtTransitive(x, s[0], y); }
    }
  }

  lemma HeadBelowInserted(x: string, s: seq<string>, t: seq<string>)
    requires StrictlySorted(s) && |s| > 0 && StrLt(s[0], x)
    requires forall y :: y in t <==> y == x || y in s[1..]
    ensures forall y :: y in t ==> StrLt(s[0], y)
  {
    forall y | y in t ensures StrLt(s[0], y) {
      if y != x {
        var k :| 0 <= k < |s[1..]| && s[1..][k] == y;
        assert s[k + 1] == y;
      }
    }
  }

  /** `sort_by` on the names followed by `dedup_by` on equal names. */
  function SortDedup(xs: seq<string>): (r: seq<string>)
    ensures StrictlySorted(r)
    ensures forall y :: y in r <==> y in xs
  {
    if |xs| == 0 then []
    else
      assert xs == [xs[0]] + xs[1..];
      InsertName(xs[0], SortDedup(xs[1..]))
  }

  /** A strictly sorted list is determined by its members: whatever stable
      sort and deduplication produce, it is `SortDedup`. */
  lemma {:induction false} SortedUnique(a: seq<string>, b: seq<string>)
    requires StrictlySorted(a) && StrictlySorted(b)
    requires forall y :: y in a <==> y in b
    ensures a == b
    decreases |a|
  {
    if |a| == 0 {
    } else {
      assert a[0] in a;
      assert b[0] in b;
      var m :| 0 <= m < |a| && a[m] == b[0];
      var k :| 0 <= k < |b| && b[k] == a[0];
      if m > 0 {
        assert StrLt(a[0], b[0]);
        if k > 0 {
          assert StrLt(b[0], a[0]);
          StrLtTransitive(a[0], b[0], a[0]);
        }
        StrLtIrreflexive(a[0]);
        assert false;
      }
      assert a[0] == b[0];
      forall y ensures y in a[1..] <==> y in b[1..] {
        if y in a[1..] {
          var i :| 0 <= i < |a[1..]| && a[1..][i] == y;
          assert StrLt(a[0], a[i + 1]);
          StrLtIrreflexive(y);
          assert y in b;
          var j :| 0 <= j < |b| && b[j] == y;
          assert j != 0;
          assert b[1..][j - 1] == y;
        }
        if y in b[1..] {
          var i :| 0 <= i < |b[1..]| && b[1..][i] == y;
          assert StrLt(b[0], b[i + 1]);
          StrLtIrreflexive(y);
          assert y in a;
          var j :| 0 <= j < |a| && a[j] == y;
          assert j != 0;
          assert a[1..][j - 1] == y;
        }
      }
      SortedUnique(a[1..], b[1..]);
      assert a == [a[0]] + a[1..] && b == [b[0]] + b[1..];
    }
  }

  // ---------------------------------------------------------------- remove_duplicate_impl

  /** Which attribute `remove_duplicate_impl` is called for. */
  datatype ListKind = DeriveKind | AllowKind

  predicate IsKind(a: Attr, kind: ListKind)
  {
    match kind
    case DeriveKind => a.Derive?
    case AllowKind => a.Allow?
  }

  /** The closure `to_list`: the names of a matching attribute. */
  function KindNames(a: Attr): seq<string>
  {
    match a
    case Derive(ns) => ns
    case Allow(ns) => ns
    case _ => []
  }

  /** The closure `to_attr`. */
  function MakeKind(kind: ListKind, names: seq<string>): (a: Attr)
    ensures IsKind(a, kind) && KindNames(a) == names
  {
    match kind
    case DeriveKind => Derive(names)
    case AllowKind => Allow(names)
  }

  function CountKind(attrs: seq<Attr>, kind: ListKind): nat
  {
    if |attrs| == 0 then 0 else (if IsKind(attrs[0], kind) then 1 else 0) + CountKind(attrs[1..], kind)
  }

  /** The names of the matching attributes, in order. */
  function NamesOfKind(attrs: seq<Attr>, kind: ListKind): seq<string>
  {
    if |attrs| == 0 then []
    else (if IsKind(attrs[0], kind) then KindNames(attrs[0]) else []) + NamesOfKind(attrs[1..], kind)
  }

  /** The attributes that do not match, in order. */
  function OtherAttrs(attrs: seq<Attr>, kind: ListKind): seq<Attr>
  {
    if |attrs| == 0 then []
    else (if IsKind(attrs[0], kind) then [] else [attrs[0]]) + OtherAttrs(attrs[1..], kind)
  }

  lemma KindAppend(a: seq<Attr>, b: seq<Attr>, kind: ListKind)
    ensures CountKind(a + b, kind) == CountKind(a, kind) + CountKind(b, kind)
    ensures NamesOfKind(a + b, kind) == NamesOfKind(a, kind) + NamesOfKind(b, kind)
    ensures OtherAttrs(a + b, kind) == OtherAttrs(a, kind) + OtherAttrs(b, kind)
  {
    CountKindAppend(a, b, kind);
    NamesOfKindAppend(a, b, kind);
    OtherAttrsAppend(a, b, kind);
  }

  lemma {:induction false} CountKindAppend(a: seq<Attr>, b: seq<Attr>, kind: ListKind)
    ensures CountKind(a + b, kind) == CountKind(a, kind) + CountKind(b, kind)
    decreases |a|
  {
    if |a| == 0 {
      assert a + b == b;
    } else {
      assert (a + b)[0] == a[0] && (a + b)[1..] == a[1..] + b;
      CountKindAppend(a[1..], b, kind);
    }
  }

  lemma {:induction false} NamesOfKindAppend(a: seq<Attr>, b: seq<Attr>, kind: ListKind)
    ensures NamesOfKind(a + b, kind) == NamesOfKind(a, kind) + NamesOfKind(b, kind)
    decreases |a|
  {
    if |a| == 0 {
      assert a + b == b;
    } else {
      assert (a + b)[0] == a[0] && (a + b)[1..] == a[1..] + b;
      NamesOfKindAppend(a[1..], b, kind);
    }
  }

  lemma {:induction false} OtherAttrsAppend(a: seq<Attr>, b: seq<Attr>, kind: ListKind)
    ensures OtherAttrs(a + b, kind) == OtherAttrs(a, kind) + OtherAttrs(b, kind)
    decreases |a|
  {
    if |a| == 0 {
      assert a + b == b;
    } else {
      assert (a + b)[0] == a[0] && (a + b)[1..] == a[1..] + b;
      OtherAttrsAppend(a[1..], b, kind);
    }
  }

  /** Nothing in `OtherAttrs` matches. */
  lemma {:induction false} OtherAttrsClean(attrs: seq<Attr>, kind: ListKind)
    ensures CountKind(OtherAttrs(attrs, kind), kind) == 0
    ensures NamesOfKind(OtherAttrs(attrs, kind), kind) == []
    ensures OtherAttrs(OtherAttrs(attrs, kind), kind) == OtherAttrs(attrs, kind)
  {
    if |attrs| > 0 {
      OtherAttrsClean(attrs[1..], kind);
      var head := if IsKind(attrs[0], kind) then [] else [attrs[0]];
      KindAppend(head, OtherAttrs(attrs[1..], kind), kind);
      if !IsKind(attrs[0], kind) {
        assert head[1..] == [];
      }
    }
  }

  /** What `remove_duplicate_impl` leaves: unchanged with fewer than two
      matching attributes; otherwise at most one matching attribute, placed
      first, listing the union of all matching names sorted and without
      repetition, and every other attribute in its original order. */
  function RemoveDuplicated(attrs: seq<Attr>, kind: ListKind): (r: seq<Attr>)
    ensures CountKind(attrs, kind) < 2 ==> r == attrs
    ensures CountKind(r, kind) <= 1
    ensures OtherAttrs(r, kind) == OtherAttrs(attrs, kind)
    ensures forall n :: n in NamesOfKind(r, kind) <==> n in NamesOfKind(attrs, kind)
    ensures CountKind(attrs, kind) >= 2 ==>
      StrictlySorted(NamesOfKind(r, kind)) && (CountKind(r, kind) == 1 ==> IsKind(r[0], kind))
  {
    if CountKind(attrs, kind) < 2 then attrs
    else
      var items := SortDedup(NamesOfKind(attrs, kind));
      var rest := OtherAttrs(attrs, kind);
      OtherAttrsClean(attrs, kind);
      if |items| > 0 then
        KindAppend([MakeKind(kind, items)], rest, kind);
        assert [MakeKind(kind, items)][1..] == [];
        [MakeKind(kind, items)] + rest
      else rest
  }

  /** `remove_duplicate_impl`: counts the matching attributes, then moves
      their names out in one pass over the list. */
  method RemoveDuplicateImpl(attrs: seq<Attr>, kind: ListKind) returns (r: seq<Attr>)
    ensures r == RemoveDuplicated(attrs, kind)
  {
    var num := 0;
    var i := 0;
    while i < |attrs|
      invariant 0 <= i <= |attrs|
      invariant num == CountKind(attrs[..i], kind)
    {
      KindAppend(attrs[..i], [attrs[i]], kind);
      assert attrs[..i + 1] == attrs[..i] + [attrs[i]];
      if IsKind(attrs[i], kind) { num := num + 1; }
      i := i + 1;
    }
    assert attrs[..|attrs|] == attrs;
    if num < 2 {
      return attrs;
    }
    var items: seq<string> := [];
    var kept: seq<Attr> := [];
    i := 0;
    while i < |attrs|
      invariant 0 <= i <= |attrs|
      invariant items == NamesOfKind(attrs[..i], kind)
      invariant kept == OtherAttrs(attrs[..i], kind)
    {
      KindAppend(attrs[..i], [attrs[i]], kind);
      assert attrs[..i + 1] == attrs[..i] + [attrs[i]];
      if IsKind(attrs[i], kind) {
        items := items + KindNames(attrs[i]);
      } else {
        kept := kept + [attrs[i]];
      }
      i := i + 1;
    }
    var sorted := SortDedup(items);
    if |sorted| > 0 {
      r := [MakeKind(kind, sorted)] + kept;
    } else {
      r := kept;
    }
  }

  /** `remove_duplicate`: first for `derive`, then for `allow`. */
  function RemoveDuplicate(attrs: seq<Attr>): seq<Attr>
  {
    RemoveDuplicated(RemoveDuplicated(attrs, DeriveKind), AllowKind)
  }

  lemma {:induction false} OtherAttrsKeepsOtherKind(attrs: seq<Attr>)
    ensures CountKind(OtherAttrs(attrs, AllowKind), DeriveKind) == CountKind(attrs, DeriveKind)
  {
    if |attrs| > 0 {
      OtherAttrsKeepsOtherKind(attrs[1..]);
      var head := if attrs[0].Allow? then [] else [attrs[0]];
      KindAppend(head, OtherAttrs(attrs[1..], AllowKind), DeriveKind);
      if !attrs[0].Allow? {
        assert head[1..] == [];
      }
    }
  }

  /** After `remove_duplicate` a list has at most one `derive` and at most
      one `allow`, and the other attributes are those it had, in order. */
  lemma RemoveDuplicateNormalizes(attrs: seq<Attr>)
    ensures CountKind(RemoveDuplicate(attrs), DeriveKind) <= 1
    ensures CountKind(RemoveDuplicate(attrs), AllowKind) <= 1
    ensures forall n :: n in NamesOfKind(RemoveDuplicate(attrs), DeriveKind) <==> n in NamesOfKind(attrs, DeriveKind)
  {
    var r1 := RemoveDuplicated(attrs, DeriveKind);
    var r2 := RemoveDuplicated(r1, AllowKind);
    OtherAttrsKeepsOtherKind(r1);
    OtherAttrsKeepsOtherKind(r2);
    NamesThroughOtherAttrs(r1);
    NamesThroughOtherAttrs(r2);
  }

  lemma {:induction false} NamesThroughOtherAttrs(attrs: seq<Attr>)
    ensures NamesOfKind(OtherAttrs(attrs, AllowKind), DeriveKind) == NamesOfKind(attrs, DeriveKind)
  {
    if |attrs| > 0 {
      NamesThroughOtherAttrs(attrs[1..]);
      var head := if attrs[0].Allow? then [] else [attrs[0]];
      KindAppend(head, OtherAttrs(attrs[1..], AllowKind), DeriveKind);
      if !attrs[0].Allow? {
        assert head[1..] == [];
      }
    }
  }

  // ---------------------------------------------------------------- copy_attr_to_subtype

  /** The `derive` names a nested type inherits. */
  const INHERITED_DERIVES: set<string> :=
    {"Clone", "Copy", "Debug", "PartialEq", "Eq", "PartialOrd", "Ord", "Serialize", "Deserialize"}

  function InheritedNames(ns: seq<string>): (r: seq<string>)
    ensures forall n :: n in r <==> n in ns && n in INHERITED_DERIVES
  {
    if |ns| == 0 then []
    else
      assert ns == [ns[0]] + ns[1..];
      (if ns[0] in INHERITED_DERIVES then [ns[0]] else []) + InheritedNames(ns[1..])
  }

  predicate ParentDerives(pal: seq<Attr>, n: string)
  {
    exists i :: 0 <= i < |pal| && pal[i].Derive? && n in pal[i].names
  }

  predicate ParentAllows(pal: seq<Attr>, n: string)
  {
    exists i :: 0 <= i < |pal| && pal[i].Allow? && n in pal[i].names
  }

  /** `copied_derive`: whitelisted names of every `derive`, in order. */
  function CopiedDerive(pal: seq<Attr>): (r: seq<string>)
    ensures forall n :: n in r <==> n in INHERITED_DERIVES && ParentDerives(pal, n)
  {
    if |pal| == 0 then []
    else
      var r := (if pal[0].Derive? then InheritedNames(pal[0].names) else []) + CopiedDerive(pal[1..]);
      assert forall n :: ParentDerives(pal, n) <==>
        (pal[0].Derive? && n in pal[0].names) || ParentDerives(pal[1..], n) by {
        forall n ensures ParentDerives(pal, n) ==> (pal[0].Derive? && n in pal[0].names) || ParentDerives(pal[1..], n) {
          if ParentDerives(pal, n) {
            var i :| 0 <= i < |pal| && pal[i].Derive? && n in pal[i].names;
            if i > 0 { assert pal[1..][i - 1] == pal[i]; }
          }
        }
        forall n ensures ParentDerives(pal[1..], n) ==> ParentDerives(pal, n) {
          if ParentDerives(pal[1..], n) {
            var i :| 0 <= i < |pal[1..]| && pal[1..][i].Derive? && n in pal[1..][i].names;
            assert pal[i + 1] == pal[1..][i];
          }
        }
      }
      r
  }

  /** `copied_allow`: the names of every `allow`, in order. */
  function CopiedAllow(pal: seq<Attr>): (r: seq<string>)
    ensures forall n :: n in r <==> ParentAllows(pal, n)
  {
    if |pal| == 0 then []
    else
      var r := (if pal[0].Allow? then pal[0].names else []) + CopiedAllow(pal[1..]);
      assert forall n :: ParentAllows(pal, n) <==>
        (pal[0].Allow? && n in pal[0].names) || ParentAllows(pal[1..], n) by {
        forall n ensures ParentAllows(pal, n) ==> (pal[0].Allow? && n in pal[0].names) || ParentAllows(pal[1..], n) {
          if ParentAllows(pal, n) {
            var i :| 0 <= i < |pal| && pal[i].Allow? && n in pal[i].names;
            if i > 0 { assert pal[1..][i - 1] == pal[i]; }
          }
        }
        forall n ensures ParentAllows(pal[1..], n) ==> ParentAllows(pal, n) {
          if ParentAllows(pal[1..], n) {
            var i :| 0 <= i < |pal[1..]| && pal[1..][i].Allow? && n in pal[1..][i].names;
            assert pal[i + 1] == pal[1..][i];
          }
        }
      }
      r
  }

  /** `copied_cfg` turned back into attributes: every `cfg` of the parent, in order. */
  function CopiedCfgs(pal: seq<Attr>): (r: seq<Attr>)
    ensures forall a :: a in r <==> a in pal && a.Cfg?
  {
    if |pal| == 0 then []
    else
      assert pal == [pal[0]] + pal[1..];
      (if pal[0].Cfg? then [pal[0]] else []) + CopiedCfgs(pal[1..])
  }

  /** Whether the child is a struct or enum, the only kinds that receive `derive`. */
  predicate TakesDerive(d: Data)
  {
    d.StructData? || d.EnumData?
  }

  /** `ca_tmp`: the parent's `cfg`s, then one merged `allow`, then (for
      structs and enums) one merged `derive`. */
  function CopyPrefix(pal: seq<Attr>, withDerive: bool): seq<Attr>
  {
    CopiedCfgs(pal)
    + (if |CopiedAllow(pal)| > 0 then [Allow(CopiedAllow(pal))] else [])
    + (if withDerive && |CopiedDerive(pal)| > 0 then [Derive(CopiedDerive(pal))] else [])
  }

  /** One child of `copy_attr_to_subtype`: the copied attributes go in front
      of the child's own. */
  function AddCopied(pal: seq<Attr>, d: Data): (r: Data)
    ensures DataSize(r) == DataSize(d)
    ensures d.DebugFlag? ==> r == d
  {
    WithAttributes(d, CopyPrefix(pal, TakesDerive(d)) + DataAttributes(d))
  }

  /** `copy_attr_to_subtype` over the collected children, each in turn. */
  function CopyAttrToSubtype(pal: seq<Attr>, dl: seq<Data>): (r: seq<Data>)
    ensures |r| == |dl|
    ensures forall i :: 0 <= i < |dl| ==> r[i] == AddCopied(pal, dl[i])
  {
    if |dl| == 0 then [] else [AddCopied(pal, dl[0])] + CopyAttrToSubtype(pal, dl[1..])
  }

  /** A child keeps its attributes after the copied ones; the copied ones are
      the parent's `cfg`s, one `allow` holding exactly the names the parent
      allows, and one `derive` holding exactly the whitelisted names the
      parent derives; type and trait aliases receive no `derive`. */
  lemma CopyAttrToSubtypeSpec(pal: seq<Attr>, d: Data)
    requires !d.DebugFlag?
    ensures var added := CopyPrefix(pal, TakesDerive(d));
      DataAttributes(AddCopied(pal, d)) == added + DataAttributes(d)
      && (forall a :: a in added && a.Cfg? <==> a in pal && a.Cfg?)
      && (forall a :: a in added ==> a.Cfg? || a.Allow? || a.Derive?)
      && (forall a, n :: a in added && a.Allow? ==> (n in a.names <==> ParentAllows(pal, n)))
      && (forall a, n :: a in added && a.Derive? ==> (n in a.names <==> n in INHERITED_DERIVES && ParentDerives(pal, n)))
      && (!TakesDerive(d) ==> forall a :: a in added ==> !a.Derive?)
      && (TakesDerive(d) && (exists n :: n in INHERITED_DERIVES && ParentDerives(pal, n)) ==>
            exists a :: a in added && a.Derive?)
  {
    CopyPrefixKinds(pal, TakesDerive(d));
    CopyPrefixNames(pal, TakesDerive(d));
    if TakesDerive(d) && (exists n :: n in INHERITED_DERIVES && ParentDerives(pal, n)) {
      CopyPrefixHasDerive(pal, TakesDerive(d));
    }
  }

  /** What the copied attributes are made of: the parent's `cfg`s, then at
      most one `allow` and, when allowed, one `derive`. */
  lemma InCopyPrefix(pal: seq<Attr>, withDerive: bool, a: Attr)
    ensures a in CopyPrefix(pal, withDerive) <==>
      (a in pal && a.Cfg?) ||
      (|CopiedAllow(pal)| > 0 && a == Allow(CopiedAllow(pal))) ||
      (withDerive && |CopiedDerive(pal)| > 0 && a == Derive(CopiedDerive(pal)))
  {
  }

  /** The copied attributes are the parent's `cfg`s and otherwise only an
      `allow` or a `derive`, and no `derive` when none is wanted. */
  lemma CopyPrefixKinds(pal: seq<Attr>, withDerive: bool)
    ensures var added := CopyPrefix(pal, withDerive);
      (forall a :: a in added && a.Cfg? <==> a in pal && a.Cfg?)
      && (forall a :: a in added ==> a.Cfg? || a.Allow? || a.Derive?)
      && (!withDerive ==> forall a :: a in added ==> !a.Derive?)
  {
    forall a {
      InCopyPrefix(pal, withDerive, a);
    }
  }

  /** The copied `allow` and `derive` hold exactly the inherited names. */
  lemma CopyPrefixNames(pal: seq<Attr>, withDerive: bool)
    ensures var added := CopyPrefix(pal, withDerive);
      (forall a, n :: a in added && a.Allow? ==> (n in a.names <==> ParentAllows(pal, n)))
      && (forall a, n :: a in added && a.Derive? ==> (n in a.names <==> n in INHERITED_DERIVES && ParentDerives(pal, n)))
  {
    forall a {
      InCopyPrefix(pal, withDerive, a);
    }
  }

  /** A `derive` is copied whenever the parent derives an inherited name. */
  lemma CopyPrefixHasDerive(pal: seq<Attr>, withDerive: bool)
    requires withDerive && exists n :: n in INHERITED_DERIVES && ParentDerives(pal, n)
    ensures exists a :: a in CopyPrefix(pal, withDerive) && a.Derive?
  {
    var n :| n in INHERITED_DERIVES && ParentDerives(pal, n);
    assert n in CopiedDerive(pal);
    InCopyPrefix(pal, withDerive, Derive(CopiedDerive(pal)));
  }

  // ---------------------------------------------------------------- move_field_attrs_to_subtype, inherit_visibility

  /** The `doc` and `cfg` attributes of a field, in order. */
  function DocAndCfg(pal: seq<Attr>): (r: seq<Attr>)
    ensures forall a :: a in r <==> a in pal && (a.Doc? || a.Cfg?)
  {
    if |pal| == 0 then []
    else
      assert pal == [pal[0]] + pal[1..];
      (if pal[0].Doc? || pal[0].Cfg? then [pal[0]] else []) + DocAndCfg(pal[1..])
  }

  /** `move_field_attrs_to_subtype`: an inline struct or enum gets the
      field's `doc` and `cfg` attributes after its own; a plain type is left alone. */
  function MoveFieldAttrsToSubtype(pal: seq<Attr>, v: FieldValue): (r: FieldValue)
    ensures v.TypeValue? ==> r == v
    ensures v.DataValue? ==>
      (r.DataValue? && r.explicitTy == v.explicitTy
       && DataSize(r.data) == DataSize(v.data)
       && (TakesDerive(v.data) ==> DataAttributes(r.data) == DataAttributes(v.data) + DocAndCfg(pal))
       && (!TakesDerive(v.data) ==> r.data == v.data))
  {
    match v
    case TypeValue(_, _) => v
    case DataValue(t, d) =>
      if TakesDerive(d) then DataValue(t, WithAttributes(d, DataAttributes(d) + DocAndCfg(pal)))
      else v
  }

  function DataVisibility(d: Data): seq<Token>
  {
    match d
    case StructData(s) => s.visibility
    case EnumData(e) => e.visibility
    case TypeData(t) => t.visibility
    case TraitData(t) => t.visibility
    case DebugFlag => []
  }

  /** `inherit_visibility`: the child takes the given visibility and nothing else changes. */
  function InheritVisibility(vis: seq<Token>, d: Data): (r: Data)
    ensures !d.DebugFlag? ==> DataVisibility(r) == vis
    ensures DataAttributes(r) == DataAttributes(d) && DataSize(r) == DataSize(d)
    ensures d.DebugFlag? ==> r == d
  {
    match d
    case StructData(s) => StructData(s.(visibility := vis))
    case EnumData(e) => EnumData(e.(visibility := vis))
    case TypeData(t) => TypeData(t.(visibility := vis))
    case TraitData(t) => TraitData(t.(visibility := vis))
    // the source's `unreachable!()`: a `debug` marker is never a child
    case DebugFlag => d
  }

  // ---------------------------------------------------------------- collect_subtype

  /** What the parent does to each child it collects. */
  datatype Touch = CopyAttrs(pal: seq<Attr>) | SetVisibility(vis: seq<Token>)

  function ApplyTouch(t: Touch, d: Data): (r: Data)
    ensures DataSize(r) == DataSize(d)
  {
    match t
    case CopyAttrs(pal) => AddCopied(pal, d)
    case SetVisibility(vis) => InheritVisibility(vis, d)
  }

  function TouchDatas(t: Touch, ds: seq<Data>): (r: seq<Data>)
    ensures |r| == |ds| && DatasSize(r) == DatasSize(ds)
    ensures forall i :: 0 <= i < |ds| ==> r[i] == ApplyTouch(t, ds[i])
  {
    if |ds| == 0 then [] else
      var r := [ApplyTouch(t, ds[0])] + TouchDatas(t, ds[1..]);
      assert r[0] == ApplyTouch(t, ds[0]) && r[1..] == TouchDatas(t, ds[1..]);
      r
  }

  function TouchValue(t: Touch, v: FieldValue): (r: FieldValue)
    ensures ValueSize(r) == ValueSize(v)
  {
    match v
    case TypeValue(_, _) => v
    case DataValue(ty, d) => DataValue(ty, ApplyTouch(t, d))
  }

  function TouchUnnamed(t: Touch, fs: seq<UnnamedField>): (r: seq<UnnamedField>)
    ensures |r| == |fs| && UnnamedSize(r) == UnnamedSize(fs)
  {
    if |fs| == 0 then [] else
      var r := [fs[0].(value := TouchValue(t, fs[0].value))] + TouchUnnamed(t, fs[1..]);
      assert r[0] == fs[0].(value := TouchValue(t, fs[0].value)) && r[1..] == TouchUnnamed(t, fs[1..]);
      r
  }

  function TouchNamed(t: Touch, fs: seq<NamedField>): (r: seq<NamedField>)
    ensures |r| == |fs| && NamedSize(r) == NamedSize(fs)
  {
    if |fs| == 0 then [] else
      var r := [fs[0].(value := TouchValue(t, fs[0].value))] + TouchNamed(t, fs[1..]);
      assert r[0] == fs[0].(value := TouchValue(t, fs[0].value)) && r[1..] == TouchNamed(t, fs[1..]);
      r
  }

  /** Applies the parent's action to every inline type of the fields and to
      every enclosed type, the children `collect_subtype` hands out. */
  function TouchFields(t: Touch, f: Fields): (r: Fields)
    ensures FieldsSize(r) == FieldsSize(f)
  {
    match f
    case Unit => Unit
    case Unnamed(fs, enc) => Unnamed(TouchUnnamed(t, fs), TouchDatas(t, enc))
    case Named(fs, enc) => Named(TouchNamed(t, fs), TouchDatas(t, enc))
  }

  function TouchVariants(t: Touch, vs: seq<EnumVariant>): (r: seq<EnumVariant>)
    ensures |r| == |vs| && VariantsSize(r) == VariantsSize(vs)
  {
    if |vs| == 0 then [] else
      var r := [vs[0].(fields := TouchFields(t, vs[0].fields))] + TouchVariants(t, vs[1..]);
      assert r[0] == vs[0].(fields := TouchFields(t, vs[0].fields)) && r[1..] == TouchVariants(t, vs[1..]);
      r
  }

  function ValueSubtype(v: FieldValue): seq<Data>
  {
    if v.DataValue? then [v.data] else []
  }

  function UnnamedSubtypes(fs: seq<UnnamedField>): seq<Data>
  {
    if |fs| == 0 then [] else ValueSubtype(fs[0].value) + UnnamedSubtypes(fs[1..])
  }

  function NamedSubtypes(fs: seq<NamedField>): seq<Data>
  {
    if |fs| == 0 then [] else ValueSubtype(fs[0].value) + NamedSubtypes(fs[1..])
  }

  /** `collect_subtype` for fields: the inline types in field order, then the enclosed types. */
  function CollectSubtypes(f: Fields): seq<Data>
  {
    match f
    case Unit => []
    case Unnamed(fs, enc) => UnnamedSubtypes(fs) + enc
    case Named(fs, enc) => NamedSubtypes(fs) + enc
  }

  lemma {:induction false} TouchDatasAppend(t: Touch, a: seq<Data>, b: seq<Data>)
    ensures TouchDatas(t, a + b) == TouchDatas(t, a) + TouchDatas(t, b)
  {
    var l := TouchDatas(t, a + b);
    var r := TouchDatas(t, a) + TouchDatas(t, b);
    assert |l| == |r|;
    forall i | 0 <= i < |l| ensures l[i] == r[i] {
      if i < |a| { assert (a + b)[i] == a[i]; } else { assert (a + b)[i] == b[i - |a|]; }
    }
  }

  lemma {:induction false} TouchUnnamedCollect(t: Touch, fs: seq<UnnamedField>)
    ensures UnnamedSubtypes(TouchUnnamed(t, fs)) == TouchDatas(t, UnnamedSubtypes(fs))
  {
    if |fs| > 0 {
      TouchUnnamedCollect(t, fs[1..]);
      var r := TouchUnnamed(t, fs);
      assert r[0].value == TouchValue(t, fs[0].value) && r[1..] == TouchUnnamed(t, fs[1..]);
      TouchDatasAppend(t, ValueSubtype(fs[0].value), UnnamedSubtypes(fs[1..]));
    }
  }

  lemma {:induction false} TouchNamedCollect(t: Touch, fs: seq<NamedField>)
    ensures NamedSubtypes(TouchNamed(t, fs)) == TouchDatas(t, NamedSubtypes(fs))
  {
    if |fs| > 0 {
      TouchNamedCollect(t, fs[1..]);
      var r := TouchNamed(t, fs);
      assert r[0].value == TouchValue(t, fs[0].value) && r[1..] == TouchNamed(t, fs[1..]);
      TouchDatasAppend(t, ValueSubtype(fs[0].value), NamedSubtypes(fs[1..]));
    }
  }

  /** Rewriting each child where it sits is the same as rewriting the list
      `collect_subtype` returns: the references it hands out reach exactly
      those children, in that order. */
  lemma TouchFieldsCollect(t: Touch, f: Fields)
    ensures CollectSubtypes(TouchFields(t, f)) == TouchDatas(t, CollectSubtypes(f))
  {
    match f
    case Unit =>
    case Unnamed(fs, enc) =>
      TouchUnnamedCollect(t, fs);
      TouchDatasAppend(t, UnnamedSubtypes(fs), enc);
    case Named(fs, enc) =>
      TouchNamedCollect(t, fs);
      TouchDatasAppend(t, NamedSubtypes(fs), enc);
  }

  // ---------------------------------------------------------------- pub_all

  /** What `pub_all` promises of a data item: it is `pub`, and so is every
      struct, enum and struct field nested in it. An enum variant's fields
      take no visibility in Rust, so they are left as they are. */
  predicate AllPub(d: Data)
    decreases d, 2
  {
    match d
    case StructData(s) => s.visibility == PUB && FieldsAllPub(s.fields, true)
    case EnumData(e) => e.visibility == PUB && VariantsAllPub(e.variants) && DatasAllPub(e.enclosed)
    case _ => true
  }

  predicate FieldsAllPub(f: Fields, fieldsPub: bool)
    decreases f, 2
  {
    match f
    case Unit => true
    case Unnamed(fs, enc) => UnnamedAllPub(fs, fieldsPub) && DatasAllPub(enc)
    case Named(fs, enc) => NamedAllPub(fs, fieldsPub) && DatasAllPub(enc)
  }

  predicate UnnamedAllPub(fs: seq<UnnamedField>, fieldsPub: bool)
    decreases fs, 1
  {
    |fs| == 0 ||
    ((fieldsPub ==> fs[0].visibility == PUB) && ValueAllPub(fs[0].value) && UnnamedAllPub(fs[1..], fieldsPub))
  }

  predicate NamedAllPub(fs: seq<NamedField>, fieldsPub: bool)
    decreases fs, 1
  {
    |fs| == 0 ||
    ((fieldsPub ==> fs[0].visibility == PUB) && ValueAllPub(fs[0].value) && NamedAllPub(fs[1..], fieldsPub))
  }

  predicate ValueAllPub(v: FieldValue)
    decreases v, 0
  {
    v.DataValue? ==> AllPub(v.data)
  }

  predicate DatasAllPub(ds: seq<Data>)
    decreases ds, 1
  {
    |ds| == 0 || (AllPub(ds[0]) && DatasAllPub(ds[1..]))
  }

  predicate VariantsAllPub(vs: seq<EnumVariant>)
    decreases vs, 1
  {
    |vs| == 0 || (FieldsAllPub(vs[0].fields, false) && VariantsAllPub(vs[1..]))
  }

  /** The tree with the visibilities `pub_all` may assign blanked out: those
      of structs, enums and (with `blank`) struct fields. Everything
      `pub_all` must leave alone survives, an enum variant's field
      visibilities included. */
  function DataShape(d: Data): Data
    decreases d, 2
  {
    match d
    case StructData(s) => StructData(s.(visibility := [], fields := FieldsShape(s.fields, true)))
    case EnumData(e) =>
      EnumData(e.(visibility := [], variants := VariantsShape(e.variants), enclosed := DatasShape(e.enclosed)))
    case _ => d
  }

  function FieldsShape(f: Fields, blank: bool): Fields
    decreases f, 2
  {
    match f
    case Unit => Unit
    case Unnamed(fs, enc) => Unnamed(UnnamedShape(fs, blank), DatasShape(enc))
    case Named(fs, enc) => Named(NamedShape(fs, blank), DatasShape(enc))
  }

  function UnnamedShape(fs: seq<UnnamedField>, blank: bool): (r: seq<UnnamedField>)
    ensures |r| == |fs|
    decreases fs, 1
  {
    if |fs| == 0 then [] else
      [fs[0].(visibility := if blank then [] else fs[0].visibility, value := ValueShape(fs[0].value))]
      + UnnamedShape(fs[1..], blank)
  }

  function NamedShape(fs: seq<NamedField>, blank: bool): (r: seq<NamedField>)
    ensures |r| == |fs|
    decreases fs, 1
  {
    if |fs| == 0 then [] else
      [fs[0].(visibility := if blank then [] else fs[0].visibility, value := ValueShape(fs[0].value))]
      + NamedShape(fs[1..], blank)
  }

  function ValueShape(v: FieldValue): FieldValue
    decreases v, 0
  {
    match v
    case TypeValue(_, _) => v
    case DataValue(t, d) => DataValue(t, DataShape(d))
  }

  function DatasShape(ds: seq<Data>): (r: seq<Data>)
    ensures |r| == |ds|
    decreases ds, 1
  {
    if |ds| == 0 then [] else [DataShape(ds[0])] + DatasShape(ds[1..])
  }

  function VariantsShape(vs: seq<EnumVariant>): (r: seq<EnumVariant>)
    ensures |r| == |vs|
    decreases vs, 1
  {
    if |vs| == 0 then [] else [vs[0].(fields := FieldsShape(vs[0].fields, false))] + VariantsShape(vs[1..])
  }

  /** `pub_all` on a data item: structs and enums become wholly public,
      type and trait aliases are left alone. */
  function DataPubAll(d: Data): (r: Data)
    ensures AllPub(r) && DataShape(r) == DataShape(d)
    ensures DataSize(r) == DataSize(d)
    ensures !d.DebugFlag? && TakesDerive(d) ==> DataVisibility(r) == PUB
    ensures DataAttributes(r) == DataAttributes(d)
    ensures d.StructData? ==> r == StructData(StructPubAll(d.st))
    ensures d.EnumData? ==> r == EnumData(EnumPubAll(d.en))
    ensures !d.StructData? && !d.EnumData? ==> r == d
    decreases DataSize(d), 2
  {
    match d
    case StructData(s) => StructData(StructPubAll(s))
    case EnumData(e) => EnumData(EnumPubAll(e))
    case _ => d
  }

  /** `Struct::pub_all`: the struct and each of its fields become `pub`, and
      so does everything nested in them (enclosed types are visited twice,
      by the loop over `enclosed` and through `collect_subtype`). */
  function StructPubAll(s: Struct): (r: Struct)
    ensures AllPub(StructData(r))
    ensures r == s.(visibility := r.visibility, fields := r.fields)
    ensures r.visibility == PUB && FieldsArePublic(r.fields)
    ensures FieldsShape(r.fields, true) == FieldsShape(s.fields, true)
    ensures FieldsSize(r.fields) == FieldsSize(s.fields)
    decreases 1 + FieldsSize(s.fields), 1
  {
    s.(visibility := PUB, fields := FieldsPubAll(s.fields, true))
  }

  /** `Enum::pub_all` as written: only the nested types become public; the
      enum keeps its own visibility. */
  function EnumPubAllAsWritten(e: Enum): (r: Enum)
    ensures r.visibility == e.visibility && r.attributes == e.attributes
  {
    e.(variants := VariantsPubAll(e.variants), enclosed := DatasPubAll(e.enclosed))
  }

  /** `Enum::pub_all` as its documentation describes it (the enum itself
      becomes `pub` too, as a struct does); the rewrite uses this one. */
  function EnumPubAll(e: Enum): (r: Enum)
    ensures AllPub(EnumData(r))
    ensures r == e.(visibility := PUB, variants := r.variants, enclosed := r.enclosed)
    ensures |r.variants| == |e.variants| && |r.enclosed| == |e.enclosed|
    ensures forall i :: 0 <= i < |r.variants| ==>
      r.variants[i].name == e.variants[i].name && r.variants[i].attributes == e.variants[i].attributes &&
      r.variants[i].isDefault == e.variants[i].isDefault
    ensures VariantsShape(r.variants) == VariantsShape(e.variants) && DatasShape(r.enclosed) == DatasShape(e.enclosed)
    ensures VariantsSize(r.variants) == VariantsSize(e.variants) && DatasSize(r.enclosed) == DatasSize(e.enclosed)
    decreases 1 + VariantsSize(e.variants) + DatasSize(e.enclosed), 1
  {
    e.(visibility := PUB, variants := VariantsPubAll(e.variants), enclosed := DatasPubAll(e.enclosed))
  }

  predicate FieldsArePublic(f: Fields)
  {
    match f
    case Unit => true
    case Unnamed(fs, _) => forall i :: 0 <= i < |fs| ==> fs[i].visibility == PUB
    case Named(fs, _) => forall i :: 0 <= i < |fs| ==> fs[i].visibility == PUB
  }

  /** The field part of `pub_all`; with `setVis` the fields themselves
      become `pub` and the enclosed types are visited twice (a struct),
      without only the nested types do, once each (an enum's variants). */
  function FieldsPubAll(f: Fields, setVis: bool): (r: Fields)
    ensures FieldsAllPub(r, setVis) && FieldsShape(r, setVis) == FieldsShape(f, setVis)
    ensures FieldsSize(r) == FieldsSize(f)
    ensures setVis ==> FieldsArePublic(r)
    ensures f.Unit? <==> r.Unit?
    ensures f.Unnamed? ==> r.Unnamed? && |r.unnamed| == |f.unnamed| && |r.enclosed| == |f.enclosed|
    ensures f.Named? ==> r.Named? && |r.named| == |f.named| && |r.enclosed| == |f.enclosed|
    decreases FieldsSize(f), 2
  {
    match f
    case Unit => Unit
    case Unnamed(fs, enc) =>
      Unnamed(UnnamedPubAll(fs, setVis), if setVis then DatasPubAll(DatasPubAll(enc)) else DatasPubAll(enc))
    case Named(fs, enc) =>
      Named(NamedPubAll(fs, setVis), if setVis then DatasPubAll(DatasPubAll(enc)) else DatasPubAll(enc))
  }

  /** Each field keeps its attributes and (named) its name; with `setVis` it
      becomes `pub`, otherwise it keeps its visibility; a type value is kept and an inline data type rewritten. */
  function UnnamedPubAll(fs: seq<UnnamedField>, setVis: bool): (r: seq<UnnamedField>)
    ensures UnnamedAllPub(r, setVis) && UnnamedShape(r, setVis) == UnnamedShape(fs, setVis)
    ensures |r| == |fs| && UnnamedSize(r) == UnnamedSize(fs)
    ensures forall i :: 0 <= i < |r| ==>
      r[i].attributes == fs[i].attributes && (fs[i].value.TypeValue? ==> r[i].value == fs[i].value) &&
      (fs[i].value.DataValue? ==> r[i].value.DataValue? && r[i].value.explicitTy == fs[i].value.explicitTy) &&
      r[i].visibility == (if setVis then PUB else fs[i].visibility)
    decreases UnnamedSize(fs), 2
  {
    if |fs| == 0 then [] else
      var head := fs[0].(visibility := if setVis then PUB else fs[0].visibility,
                         value := ValuePubAll(fs[0].value));
      var r := [head] + UnnamedPubAll(fs[1..], setVis);
      assert r[0] == head && r[1..] == UnnamedPubAll(fs[1..], setVis);
      r
  }

  function NamedPubAll(fs: seq<NamedField>, setVis: bool): (r: seq<NamedField>)
    ensures NamedAllPub(r, setVis) && NamedShape(r, setVis) == NamedShape(fs, setVis)
    ensures |r| == |fs| && NamedSize(r) == NamedSize(fs)
    ensures forall i :: 0 <= i < |r| ==>
      r[i].attributes == fs[i].attributes && r[i].name == fs[i].name && (fs[i].value.TypeValue? ==> r[i].value == fs[i].value) &&
      (fs[i].value.DataValue? ==> r[i].value.DataValue? && r[i].value.explicitTy == fs[i].value.explicitTy) &&
      r[i].visibility == (if setVis then PUB else fs[i].visibility)
    decreases NamedSize(fs), 2
  {
    if |fs| == 0 then [] else
      var head := fs[0].(visibility := if setVis then PUB else fs[0].visibility,
                         value := ValuePubAll(fs[0].value));
      var r := [head] + NamedPubAll(fs[1..], setVis);
      assert r[0] == head && r[1..] == NamedPubAll(fs[1..], setVis);
      r
  }

  /** `UnnamedField::pub_all` / `NamedField::pub_all`: only the inline type is affected. */
  function ValuePubAll(v: FieldValue): (r: FieldValue)
    ensures ValueAllPub(r) && ValueShape(r) == ValueShape(v)
    ensures ValueSize(r) == ValueSize(v)
    ensures v.TypeValue? ==> r == v
    ensures v.DataValue? ==> r.DataValue? && r.explicitTy == v.explicitTy && r.data == DataPubAll(v.data)
    decreases ValueSize(v), 2
  {
    match v
    case TypeValue(_, _) => v
    case DataValue(t, d) => DataValue(t, DataPubAll(d))
  }

  function DatasPubAll(ds: seq<Data>): (r: seq<Data>)
    ensures DatasAllPub(r) && DatasShape(r) == DatasShape(ds)
    ensures |r| == |ds| && DatasSize(r) == DatasSize(ds)
    ensures forall i :: 0 <= i < |r| ==> DataAttributes(r[i]) == DataAttributes(ds[i])
    decreases DatasSize(ds), 2
  {
    if |ds| == 0 then [] else
      var r := [DataPubAll(ds[0])] + DatasPubAll(ds[1..]);
      assert r[0] == DataPubAll(ds[0]) && r[1..] == DatasPubAll(ds[1..]);
      r
  }

  function VariantsPubAll(vs: seq<EnumVariant>): (r: seq<EnumVariant>)
    ensures VariantsAllPub(r) && VariantsShape(r) == VariantsShape(vs)
    ensures |r| == |vs| && VariantsSize(r) == VariantsSize(vs)
    ensures forall i :: 0 <= i < |r| ==> r[i] == vs[i].(fields := r[i].fields)
    decreases VariantsSize(vs), 2
  {
    if |vs| == 0 then [] else
      var head := vs[0].(fields := FieldsPubAll(vs[0].fields, false));
      var r := [head] + VariantsPubAll(vs[1..]);
      assert r[0] == head && r[1..] == VariantsPubAll(vs[1..]);
      r
  }

  /** A tree that is already wholly public is a fixed point of `pub_all`. */
  lemma {:induction false} PubAllFixesPublic(d: Data)
    requires AllPub(d)
    ensures DataPubAll(d) == d
    decreases d, 2
  {
    match d
    case StructData(s) => FieldsPubAllFixes(s.fields, true);
    case EnumData(e) => VariantsPubAllFixes(e.variants); DatasPubAllFixes(e.enclosed);
    case _ =>
  }

  lemma {:induction false} FieldsPubAllFixes(f: Fields, setVis: bool)
    requires FieldsAllPub(f, setVis)
    ensures FieldsPubAll(f, setVis) == f
    decreases f, 2
  {
    match f
    case Unit =>
    case Unnamed(fs, enc) => UnnamedPubAllFixes(fs, setVis); DatasPubAllFixes(enc);
    case Named(fs, enc) => NamedPubAllFixes(fs, setVis); DatasPubAllFixes(enc);
  }

  lemma {:induction false} UnnamedPubAllFixes(fs: seq<UnnamedField>, setVis: bool)
    requires UnnamedAllPub(fs, setVis)
    ensures UnnamedPubAll(fs, setVis) == fs
    decreases fs, 1
  {
    if |fs| > 0 {
      ValuePubAllFixes(fs[0].value);
      UnnamedPubAllFixes(fs[1..], setVis);
      assert fs == [fs[0]] + fs[1..];
    }
  }

  lemma {:induction false} NamedPubAllFixes(fs: seq<NamedField>, setVis: bool)
    requires NamedAllPub(fs, setVis)
    ensures NamedPubAll(fs, setVis) == fs
    decreases fs, 1
  {
    if |fs| > 0 {
      ValuePubAllFixes(fs[0].value);
      NamedPubAllFixes(fs[1..], setVis);
      assert fs == [fs[0]] + fs[1..];
    }
  }

  lemma {:induction false} ValuePubAllFixes(v: FieldValue)
    requires ValueAllPub(v)
    ensures ValuePubAll(v) == v
    decreases v, 0
  {
    if v.DataValue? {
      PubAllFixesPublic(v.data);
    }
  }

  lemma {:induction false} DatasPubAllFixes(ds: seq<Data>)
    requires DatasAllPub(ds)
    ensures DatasPubAll(ds) == ds
    decreases ds, 1
  {
    if |ds| > 0 {
      PubAllFixesPublic(ds[0]);
      DatasPubAllFixes(ds[1..]);
      assert ds == [ds[0]] + ds[1..];
    }
  }

  lemma {:induction false} VariantsPubAllFixes(vs: seq<EnumVariant>)
    requires VariantsAllPub(vs)
    ensures VariantsPubAll(vs) == vs
    decreases vs, 1
  {
    if |vs| > 0 {
      FieldsPubAllFixes(vs[0].fields, false);
      VariantsPubAllFixes(vs[1..]);
      assert vs == [vs[0]] + vs[1..];
    }
  }

  /** `pub_all` is idempotent, so visiting a struct's enclosed types twice
      gives the same tree as visiting them once. */
  lemma PubAllIdempotent(d: Data)
    ensures DataPubAll(DataPubAll(d)) == DataPubAll(d)
  {
    PubAllFixesPublic(DataPubAll(d));
  }

  /** Two wholly public trees of the same shape are equal: the shape keeps
      everything but the visibilities `pub_all` assigns, and those are all
      `pub`. */
  lemma {:induction false} PublicShapeUnique(x: Data, y: Data)
    requires AllPub(x) && AllPub(y) && DataShape(x) == DataShape(y)
    ensures x == y
    decreases x, 2
  {
    match x
    case StructData(s) =>
      FieldsShapeUnique(s.fields, y.st.fields, true);
    case EnumData(e) =>
      VariantsShapeUnique(e.variants, y.en.variants);
      DatasShapeUnique(e.enclosed, y.en.enclosed);
    case _ =>
  }

  lemma {:induction false} FieldsShapeUnique(f: Fields, g: Fields, pub: bool)
    requires FieldsAllPub(f, pub) && FieldsAllPub(g, pub) && FieldsShape(f, pub) == FieldsShape(g, pub)
    ensures f == g
    decreases f, 2
  {
    match f
    case Unit =>
    case Unnamed(fs, enc) =>
      UnnamedShapeUnique(fs, g.unnamed, pub);
      DatasShapeUnique(enc, g.enclosed);
    case Named(fs, enc) =>
      NamedShapeUnique(fs, g.named, pub);
      DatasShapeUnique(enc, g.enclosed);
  }

  lemma {:induction false} UnnamedShapeUnique(xs: seq<UnnamedField>, ys: seq<UnnamedField>, pub: bool)
    requires UnnamedAllPub(xs, pub) && UnnamedAllPub(ys, pub) && UnnamedShape(xs, pub) == UnnamedShape(ys, pub)
    ensures xs == ys
    decreases xs, 1
  {
    if |xs| > 0 {
      assert UnnamedShape(xs, pub)[0] == UnnamedShape(ys, pub)[0];
      assert UnnamedShape(xs, pub)[1..] == UnnamedShape(xs[1..], pub);
      assert UnnamedShape(ys, pub)[1..] == UnnamedShape(ys[1..], pub);
      ValueShapeUnique(xs[0].value, ys[0].value);
      UnnamedShapeUnique(xs[1..], ys[1..], pub);
      assert xs == [xs[0]] + xs[1..] && ys == [ys[0]] + ys[1..];
    }
  }

  lemma {:induction false} NamedShapeUnique(xs: seq<NamedField>, ys: seq<NamedField>, pub: bool)
    requires NamedAllPub(xs, pub) && NamedAllPub(ys, pub) && NamedShape(xs, pub) == NamedShape(ys, pub)
    ensures xs == ys
    decreases xs, 1
  {
    if |xs| > 0 {
      assert NamedShape(xs, pub)[0] == NamedShape(ys, pub)[0];
      assert NamedShape(xs, pub)[1..] == NamedShape(xs[1..], pub);
      assert NamedShape(ys, pub)[1..] == NamedShape(ys[1..], pub);
      ValueShapeUnique(xs[0].value, ys[0].value);
      NamedShapeUnique(xs[1..], ys[1..], pub);
      assert xs == [xs[0]] + xs[1..] && ys == [ys[0]] + ys[1..];
    }
  }

  lemma {:induction false} ValueShapeUnique(v: FieldValue, w: FieldValue)
    requires ValueAllPub(v) && ValueAllPub(w) && ValueShape(v) == ValueShape(w)
    ensures v == w
    decreases v, 0
  {
    if v.DataValue? {
      PublicShapeUnique(v.data, w.data);
    }
  }

  lemma {:induction false} DatasShapeUnique(xs: seq<Data>, ys: seq<Data>)
    requires DatasAllPub(xs) && DatasAllPub(ys) && DatasShape(xs) == DatasShape(ys)
    ensures xs == ys
    decreases xs, 1
  {
    if |xs| > 0 {
      assert DatasShape(xs)[0] == DatasShape(ys)[0];
      assert DatasShape(xs)[1..] == DatasShape(xs[1..]);
      assert DatasShape(ys)[1..] == DatasShape(ys[1..]);
      PublicShapeUnique(xs[0], ys[0]);
      DatasShapeUnique(xs[1..], ys[1..]);
      assert xs == [xs[0]] + xs[1..] && ys == [ys[0]] + ys[1..];
    }
  }

  lemma {:induction false} VariantsShapeUnique(xs: seq<EnumVariant>, ys: seq<EnumVariant>)
    requires VariantsAllPub(xs) && VariantsAllPub(ys) && VariantsShape(xs) == VariantsShape(ys)
    ensures xs == ys
    decreases xs, 1
  {
    if |xs| > 0 {
      assert VariantsShape(xs)[0] == VariantsShape(ys)[0];
      assert VariantsShape(xs)[1..] == VariantsShape(xs[1..]);
      assert VariantsShape(ys)[1..] == VariantsShape(ys[1..]);
      FieldsShapeUnique(xs[0].fields, ys[0].fields, false);
      VariantsShapeUnique(xs[1..], ys[1..]);
      assert xs == [xs[0]] + xs[1..] && ys == [ys[0]] + ys[1..];
    }
  }

  /** `pub_all` is characterised by its two promises: the result is wholly
      public and differs from the input only in the visibilities it may
      assign; any tree with both properties is `DataPubAll(d)`. */
  lemma PubAllCharacterised(d: Data, x: Data)
    ensures AllPub(x) && DataShape(x) == DataShape(d) <==> x == DataPubAll(d)
  {
    if AllPub(x) && DataShape(x) == DataShape(d) {
      PublicShapeUnique(x, DataPubAll(d));
    }
  }

  /** `#[pub_all] enum E { A }`: as written `E` stays private, so the
      promise of `pub_all` fails; the corrected rewrite keeps it. */
  lemma EnumPubAllKeepsPrivate()
    ensures var e := Enum("E", [], [PubAll], [], [], [EnumVariant([], "A", Unit, false)], []);
      EnumPubAllAsWritten(e).visibility == [] && !AllPub(EnumData(EnumPubAllAsWritten(e))) &&
      EnumPubAll(e).visibility == PUB && AllPub(EnumData(EnumPubAll(e)))
  {
  }

  // ---------------------------------------------------------------- set_default, check_default

  /** `set_default` on a data item: a struct fills in its fields; an enum
      whose analysis says `False` makes its first variant the default. */
  function DataSetDefault(d: Data): (r: Data)
    ensures DataSize(r) == DataSize(d)
    ensures DataAttributes(r) == DataAttributes(d) && DataVisibility(r) == DataVisibility(d)
    ensures d.StructData? ==>
      r.StructData? && r.st == d.st.(fields := r.st.fields) && r.st.fields == FieldsSetDefault(d.st.fields)
    ensures d.EnumData? ==> r.EnumData? && r.en == EnumSetDefault(d.en)
    ensures !d.StructData? && !d.EnumData? ==> r == d
    decreases d, 3
  {
    match d
    case StructData(s) => StructData(s.(fields := FieldsSetDefault(s.fields)))
    case EnumData(e) => EnumData(EnumSetDefault(e))
    case _ => d
  }

  /** `Enum::set_default`: when no variant is the default (the analysis says
      `False`, which needs at least one variant), the first variant becomes
      the default and fills in its fields; every other part is kept. */
  function EnumSetDefault(e: Enum): (r: Enum)
    ensures VariantsSize(r.variants) == VariantsSize(e.variants) && r.enclosed == e.enclosed
    ensures r.attributes == e.attributes && r.visibility == e.visibility
    ensures EnumHasDefault(e) != False ==> r == e
    ensures EnumHasDefault(e) == False ==>
      |e.variants| > 0 && r == e.(variants := r.variants) && |r.variants| == |e.variants| &&
      r.variants[0] == VariantSetDefault(e.variants[0]) && r.variants[0].isDefault &&
      r.variants[1..] == e.variants[1..]
    decreases e, 2
  {
    if EnumHasDefault(e) != False then e
    else
      var v0 := VariantSetDefault(e.variants[0]);
      var r := e.(variants := [v0] + e.variants[1..]);
      assert e.variants == [e.variants[0]] + e.variants[1..];
      assert r.variants[0] == v0 && r.variants[1..] == e.variants[1..];
      r
  }

  function VariantSetDefault(v: EnumVariant): (r: EnumVariant)
    ensures r.isDefault && FieldsSize(r.fields) == FieldsSize(v.fields)
    ensures r.attributes == v.attributes && r.name == v.name
    ensures r.fields == FieldsSetDefault(v.fields)
    decreases v, 2
  {
    v.(isDefault := true, fields := FieldsSetDefault(v.fields))
  }

  /** A type field without a default gets `Default::default()`. */
  predicate ValueHasExpr(v: FieldValue)
  {
    v.TypeValue? ==> v.default.Some?
  }

  /** `Fields::set_default`: every field's value fills in its default. */
  function FieldsSetDefault(f: Fields): (r: Fields)
    ensures FieldsSize(r) == FieldsSize(f)
    ensures f.Unit? <==> r.Unit?
    ensures f.Unnamed? ==>
      (r.Unnamed? && |r.unnamed| == |f.unnamed| && r.enclosed == f.enclosed
       && r.unnamed == UnnamedSetDefault(f.unnamed)
       && forall i :: 0 <= i < |r.unnamed| ==> ValueHasExpr(r.unnamed[i].value))
    ensures f.Named? ==>
      (r.Named? && |r.named| == |f.named| && r.enclosed == f.enclosed
       && r.named == NamedSetDefault(f.named)
       && forall i :: 0 <= i < |r.named| ==> ValueHasExpr(r.named[i].value))
    decreases f, 2
  {
    match f
    case Unit => Unit
    case Unnamed(fs, enc) => Unnamed(UnnamedSetDefault(fs), enc)
    case Named(fs, enc) => Named(NamedSetDefault(fs), enc)
  }

  function UnnamedSetDefault(fs: seq<UnnamedField>): (r: seq<UnnamedField>)
    ensures |r| == |fs| && UnnamedSize(r) == UnnamedSize(fs)
    ensures forall i :: 0 <= i < |r| ==> (ValueHasExpr(r[i].value)
      && r[i].attributes == fs[i].attributes && r[i].visibility == fs[i].visibility
      && (fs[i].value.TypeValue? ==> r[i].value.TypeValue? && r[i].value.ty == fs[i].value.ty)
      && (fs[i].value.TypeValue? && fs[i].value.default.Some? ==> r[i].value == fs[i].value)
      && (fs[i].value.DataValue? ==> r[i].value.DataValue?)
      && r[i].value == ValueSetDefault(fs[i].value))
    decreases fs, 1
  {
    if |fs| == 0 then [] else
      var r := [fs[0].(value := ValueSetDefault(fs[0].value))] + UnnamedSetDefault(fs[1..]);
      assert r[0] == fs[0].(value := ValueSetDefault(fs[0].value)) && r[1..] == UnnamedSetDefault(fs[1..]);
      assert forall i :: 1 <= i < |fs| ==> fs[i] == fs[1..][i - 1];
      r
  }

  function NamedSetDefault(fs: seq<NamedField>): (r: seq<NamedField>)
    ensures |r| == |fs| && NamedSize(r) == NamedSize(fs)
    ensures forall i :: 0 <= i < |r| ==> (ValueHasExpr(r[i].value)
      && r[i].attributes == fs[i].attributes && r[i].visibility == fs[i].visibility && r[i].name == fs[i].name
      && (fs[i].value.TypeValue? ==> r[i].value.TypeValue? && r[i].value.ty == fs[i].value.ty)
      && (fs[i].value.TypeValue? && fs[i].value.default.Some? ==> r[i].value == fs[i].value)
      && (fs[i].value.DataValue? ==> r[i].value.DataValue?)
      && r[i].value == ValueSetDefault(fs[i].value))
    decreases fs, 1
  {
    if |fs| == 0 then [] else
      var r := [fs[0].(value := ValueSetDefault(fs[0].value))] + NamedSetDefault(fs[1..]);
      assert r[0] == fs[0].(value := ValueSetDefault(fs[0].value)) && r[1..] == NamedSetDefault(fs[1..]);
      assert forall i :: 1 <= i < |fs| ==> fs[i] == fs[1..][i - 1];
      r
  }

  /** `FieldValue::set_default`: a missing default becomes
      `Default::default()`, an existing one is kept, an inline type is
      asked to set its own defaults. */
  function ValueSetDefault(v: FieldValue): (r: FieldValue)
    ensures ValueSize(r) == ValueSize(v) && ValueHasExpr(r)
    ensures v.TypeValue? ==> r.TypeValue? && r.ty == v.ty
    ensures v.TypeValue? && v.default.None? ==> r.default == Some(DEFAULT_EXPR)
    ensures v.TypeValue? && v.default.Some? ==> r == v
    ensures v.DataValue? ==> r.DataValue? && r.explicitTy == v.explicitTy && r.data == DataSetDefault(v.data)
    decreases v, 0
  {
    match v
    case TypeValue(ty, None) => TypeValue(ty, Some(DEFAULT_EXPR))
    case TypeValue(_, Some(_)) => v
    case DataValue(t, d) => DataValue(t, DataSetDefault(d))
  }

  /** After `set_default`, a struct with at least one field of a plain type
      requires a `Default` implementation. */
  lemma SetDefaultRequiresImpl(fs: seq<NamedField>, enc: seq<Data>, k: nat)
    requires k < |fs| && fs[k].value.TypeValue?
    ensures FieldsHasDefault(FieldsSetDefault(Named(fs, enc))) == TrueRequired
  {
    var r := FieldsSetDefault(Named(fs, enc));
    var bs := FieldAnswers(r);
    assert bs[k] == TrueRequired;
    MergeAsFieldsSpec(bs);
  }

  /** `check_default` for a struct: a `#[default]` attribute is removed and
      the struct's fields fill in their defaults. */
  function StructCheckDefault(s: Struct): (r: Struct)
    ensures FieldsSize(r.fields) == FieldsSize(s.fields) && r.visibility == s.visibility
    ensures r.attributes == CheckAttrFlag(s.attributes, DefaultFlag).0
    ensures CheckAttrFlag(s.attributes, DefaultFlag).1.None? ==> r == s
    ensures CheckAttrFlag(s.attributes, DefaultFlag).1.Some? ==>
      r == s.(attributes := r.attributes, fields := r.fields) && r.fields == FieldsSetDefault(s.fields)
  {
    var (attrs, found) := CheckAttrFlag(s.attributes, DefaultFlag);
    if found.Some? then s.(attributes := attrs, fields := FieldsSetDefault(s.fields)) else s
  }

  function EnumCheckDefault(e: Enum): (r: Enum)
    ensures VariantsSize(r.variants) == VariantsSize(e.variants) && r.enclosed == e.enclosed
    ensures r.visibility == e.visibility
    ensures r.attributes == CheckAttrFlag(e.attributes, DefaultFlag).0
    ensures CheckAttrFlag(e.attributes, DefaultFlag).1.Some? ==> r == EnumSetDefault(e.(attributes := r.attributes))
    ensures CheckAttrFlag(e.attributes, DefaultFlag).1.None? ==> r == e
  {
    var (attrs, found) := CheckAttrFlag(e.attributes, DefaultFlag);
    if found.Some? then EnumSetDefault(e.(attributes := attrs)) else e
  }

  /** `EnumVariant::check_default`: `#[default]` or `= default` makes the
      variant the default and fills in its fields' defaults. */
  function VariantCheckDefault(v: EnumVariant): (r: EnumVariant)
    ensures FieldsSize(r.fields) == FieldsSize(v.fields)
    ensures r.attributes == CheckAttrFlag(v.attributes, DefaultFlag).0
    ensures r.isDefault <==> v.isDefault || CheckAttrFlag(v.attributes, DefaultFlag).1.Some?
    ensures r.name == v.name
    ensures r.fields == if r.isDefault then FieldsSetDefault(v.fields) else v.fields
  {
    var (attrs, found) := CheckAttrFlag(v.attributes, DefaultFlag);
    var v1 := v.(attributes := attrs);
    if found.Some? || v.isDefault then VariantSetDefault(v1) else v1
  }

  // ---------------------------------------------------------------- modify

  /** `check_pub_all` for a struct. */
  function StructCheckPubAll(s: Struct): (r: Struct)
    ensures FieldsSize(r.fields) == FieldsSize(s.fields)
    ensures r.attributes == CheckAttrFlag(s.attributes, PubAllFlag).0
    ensures CheckAttrFlag(s.attributes, PubAllFlag).1.Some? ==>
      r.visibility == PUB && FieldsArePublic(r.fields) && AllPub(StructData(r)) &&
      r == StructPubAll(s.(attributes := r.attributes))
    ensures CheckAttrFlag(s.attributes, PubAllFlag).1.None? ==> r == s
  {
    var (attrs, found) := CheckAttrFlag(s.attributes, PubAllFlag);
    if found.Some? then StructPubAll(s.(attributes := attrs)) else s
  }

  function EnumCheckPubAll(e: Enum): (r: Enum)
    ensures VariantsSize(r.variants) == VariantsSize(e.variants) && DatasSize(r.enclosed) == DatasSize(e.enclosed)
    ensures r.attributes == CheckAttrFlag(e.attributes, PubAllFlag).0
    ensures CheckAttrFlag(e.attributes, PubAllFlag).1.Some? ==>
      r.visibility == PUB && AllPub(EnumData(r)) && r == EnumPubAll(e.(attributes := r.attributes))
    ensures CheckAttrFlag(e.attributes, PubAllFlag).1.None? ==> r == e
  {
    var (attrs, found) := CheckAttrFlag(e.attributes, PubAllFlag);
    if found.Some? then EnumPubAll(e.(attributes := attrs)) else e
  }

  /** `Modify for Data`: structs and enums are rewritten, aliases kept. */
  function ModifyData(d: Data): (r: Data)
    ensures DataSize(r) == DataSize(d)
    ensures d.StructData? ==>
      (r.StructData? && r.st.name == d.st.name
       && CountKind(r.st.attributes, DeriveKind) <= 1 && CountKind(r.st.attributes, AllowKind) <= 1)
    ensures d.EnumData? ==>
      (r.EnumData? && r.en.name == d.en.name
       && CountKind(r.en.attributes, DeriveKind) <= 1 && CountKind(r.en.attributes, AllowKind) <= 1)
    ensures !TakesDerive(d) ==> r == d
    decreases DataSize(d), 2
  {
    match d
    case StructData(s) => StructData(ModifyStruct(s))
    case EnumData(e) => EnumData(ModifyEnum(e))
    case _ => d
  }

  /** `Modify for Struct`: `pub_all`, then `default`, then the attributes
      and (for enclosed types) the visibility go down to the children, the
      duplicated `derive`/`allow` lists are merged, and the fields are rewritten. */
  function ModifyStruct(s: Struct): (r: Struct)
    ensures FieldsSize(r.fields) == FieldsSize(s.fields) && r.name == s.name
    ensures CountKind(r.attributes, DeriveKind) <= 1 && CountKind(r.attributes, AllowKind) <= 1
    decreases 1 + FieldsSize(s.fields), 1
  {
    var s1 := StructCheckDefault(StructCheckPubAll(s));
    var f1 := TouchFields(CopyAttrs(s1.attributes), s1.fields);
    var f2 := match f1
      case Unit => f1
      case Unnamed(fs, enc) => Unnamed(fs, TouchDatas(SetVisibility(s1.visibility), enc))
      case Named(fs, enc) => Named(fs, TouchDatas(SetVisibility(s1.visibility), enc));
    RemoveDuplicateNormalizes(s1.attributes);
    s1.(attributes := RemoveDuplicate(s1.attributes), fields := ModifyFields(f2))
  }

  /** `Modify for Enum`: `pub_all`, `default`, attributes copied to and
      visibility inherited by every nested type, duplicates merged, then
      the variants and enclosed types are rewritten. */
  function ModifyEnum(e: Enum): (r: Enum)
    ensures VariantsSize(r.variants) == VariantsSize(e.variants) && DatasSize(r.enclosed) == DatasSize(e.enclosed)
    ensures r.name == e.name
    ensures CountKind(r.attributes, DeriveKind) <= 1 && CountKind(r.attributes, AllowKind) <= 1
    decreases 1 + VariantsSize(e.variants) + DatasSize(e.enclosed), 1
  {
    var e2 := EnumTouched(e);
    RemoveDuplicateNormalizes(e2.attributes);
    e2.(attributes := RemoveDuplicate(e2.attributes), variants := ModifyVariants(e2.variants),
        enclosed := ModifyDatas(e2.enclosed))
  }

  /** The part of `Modify for Enum` before the recursion: the flags, then the
      attributes copied to and the visibility inherited by every nested type. */
  function EnumTouched(e: Enum): (r: Enum)
    ensures VariantsSize(r.variants) == VariantsSize(e.variants) && DatasSize(r.enclosed) == DatasSize(e.enclosed)
    ensures r.name == e.name
  {
    var e1 := EnumCheckDefault(EnumCheckPubAll(e));
    var vs := TouchVariants(SetVisibility(e1.visibility), TouchVariants(CopyAttrs(e1.attributes), e1.variants));
    var enc := TouchDatas(SetVisibility(e1.visibility), TouchDatas(CopyAttrs(e1.attributes), e1.enclosed));
    e1.(variants := vs, enclosed := enc)
  }

  function ModifyVariants(vs: seq<EnumVariant>): (r: seq<EnumVariant>)
    ensures |r| == |vs| && VariantsSize(r) == VariantsSize(vs)
    decreases VariantsSize(vs), 2
  {
    if |vs| == 0 then [] else
      var r := [ModifyVariant(vs[0])] + ModifyVariants(vs[1..]);
      assert r[0] == ModifyVariant(vs[0]) && r[1..] == ModifyVariants(vs[1..]);
      r
  }

  /** `Modify for EnumVariant`. */
  function ModifyVariant(v: EnumVariant): (r: EnumVariant)
    ensures FieldsSize(r.fields) == FieldsSize(v.fields) && r.name == v.name
    ensures r.isDefault <==> v.isDefault || CheckAttrFlag(v.attributes, DefaultFlag).1.Some?
    decreases 1 + FieldsSize(v.fields), 1
  {
    var v1 := VariantCheckDefault(v);
    v1.(fields := ModifyFields(v1.fields))
  }

  /** `Modify for Fields`: every field, then every enclosed type. */
  function ModifyFields(f: Fields): (r: Fields)
    ensures FieldsSize(r) == FieldsSize(f)
    decreases FieldsSize(f), 2
  {
    match f
    case Unit => Unit
    case Unnamed(fs, enc) => Unnamed(ModifyUnnamedFields(fs), ModifyDatas(enc))
    case Named(fs, enc) => Named(ModifyNamedFields(fs), ModifyDatas(enc))
  }

  function ModifyUnnamedFields(fs: seq<UnnamedField>): (r: seq<UnnamedField>)
    ensures |r| == |fs| && UnnamedSize(r) == UnnamedSize(fs)
    decreases UnnamedSize(fs), 2
  {
    if |fs| == 0 then [] else
      var r := [ModifyUnnamedField(fs[0])] + ModifyUnnamedFields(fs[1..]);
      assert r[0] == ModifyUnnamedField(fs[0]) && r[1..] == ModifyUnnamedFields(fs[1..]);
      r
  }

  function ModifyNamedFields(fs: seq<NamedField>): (r: seq<NamedField>)
    ensures |r| == |fs| && NamedSize(r) == NamedSize(fs)
    decreases NamedSize(fs), 2
  {
    if |fs| == 0 then [] else
      var r := [ModifyNamedField(fs[0])] + ModifyNamedFields(fs[1..]);
      assert r[0] == ModifyNamedField(fs[0]) && r[1..] == ModifyNamedFields(fs[1..]);
      r
  }

  /** The part of `Modify for UnnamedField` / `NamedField` that acts on the
      value: `pub_all` and `default` flags, then the field's visibility and
      its `doc`/`cfg` attributes go down to an inline type. */
  function FieldValueRewrite(attributes: seq<Attr>, visibility: seq<Token>, v: FieldValue): (r: (seq<Attr>, FieldValue))
    ensures ValueSize(r.1) == ValueSize(v)
    ensures v.TypeValue? ==> r.1.TypeValue? && r.1.ty == v.ty
    ensures v.TypeValue? && CheckAttrFlag(attributes, DefaultFlag).1.None? ==> r.1 == v
  {
    var (a1, pubAll) := CheckAttrFlag(attributes, PubAllFlag);
    var v1 := if pubAll.Some? then ValuePubAll(v) else v;
    var (a2, dflt) := CheckAttrFlag(a1, DefaultFlag);
    var v2 := if dflt.Some? then ValueSetDefault(v1) else v1;
    var v3 := if v2.DataValue? then DataValue(v2.explicitTy, InheritVisibility(visibility, v2.data)) else v2;
    FlagsCommute(attributes);
    (a2, MoveFieldAttrsToSubtype(a2, v3))
  }

  /** Removing the `pub_all` flag does not change whether a `default` flag is present. */
  lemma FlagsCommute(attrs: seq<Attr>)
    ensures CheckAttrFlag(CheckAttrFlag(attrs, PubAllFlag).0, DefaultFlag).1.None?
      <==> CheckAttrFlag(attrs, DefaultFlag).1.None?
  {
    var k := FirstFlagged(attrs, PubAllFlag);
    if k < |attrs| {
      assert CheckAttrFlag(attrs, PubAllFlag).0 == attrs[..k] + attrs[k + 1..];
      RemoveKeepsDefault(attrs, k);
    }
  }

  /** Removing an attribute that is not `default` keeps every `default` one. */
  lemma RemoveKeepsDefault(attrs: seq<Attr>, k: nat)
    requires k < |attrs| && !attrs[k].Default?
    ensures var a1 := attrs[..k] + attrs[k + 1..];
      (forall j :: 0 <= j < |a1| ==> !Flagged(a1[j], DefaultFlag))
      <==> (forall j :: 0 <= j < |attrs| ==> !Flagged(attrs[j], DefaultFlag))
  {
    var a1 := attrs[..k] + attrs[k + 1..];
    assert forall j :: 0 <= j < k ==> a1[j] == attrs[j];
    assert forall j :: k < j < |attrs| ==> a1[j - 1] == attrs[j];
  }

  function ModifyUnnamedField(f: UnnamedField): (r: UnnamedField)
    ensures ValueSize(r.value) == ValueSize(f.value) && r.visibility == f.visibility
    decreases 1 + ValueSize(f.value), 1
  {
    var (attrs, v) := FieldValueRewrite(f.attributes, f.visibility, f.value);
    f.(attributes := attrs, value := ModifyValue(v))
  }

  function ModifyNamedField(f: NamedField): (r: NamedField)
    ensures ValueSize(r.value) == ValueSize(f.value) && r.visibility == f.visibility && r.name == f.name
    decreases 1 + ValueSize(f.value), 1
  {
    var (attrs, v) := FieldValueRewrite(f.attributes, f.visibility, f.value);
    f.(attributes := attrs, value := ModifyValue(v))
  }

  /** `Modify for FieldValue`: only an inline type has something to rewrite. */
  function ModifyValue(v: FieldValue): (r: FieldValue)
    ensures ValueSize(r) == ValueSize(v)
    ensures v.TypeValue? ==> r == v
    decreases ValueSize(v), 2
  {
    match v
    case TypeValue(_, _) => v
    case DataValue(t, d) => DataValue(t, ModifyData(d))
  }

  function ModifyDatas(ds: seq<Data>): (r: seq<Data>)
    ensures |r| == |ds| && DatasSize(r) == DatasSize(ds)
    decreases DatasSize(ds), 2
  {
    if |ds| == 0 then [] else
      var r := [ModifyData(ds[0])] + ModifyDatas(ds[1..]);
      assert r[0] == ModifyData(ds[0]) && r[1..] == ModifyDatas(ds[1..]);
      r
  }

  /** `modify`: every top-level item is rewritten; none is added or removed,
      and every struct and enum ends up with at most one `derive` and one `allow`. */
  function Modify(root: Root): (r: Root)
    ensures r.debug == root.debug && |r.datum| == |root.datum|
    ensures forall i :: 0 <= i < |root.datum| ==> DataSize(r.datum[i]) == DataSize(root.datum[i])
    ensures forall i :: 0 <= i < |root.datum| && root.datum[i].StructData? ==>
      r.datum[i].StructData? && CountKind(r.datum[i].st.attributes, DeriveKind) <= 1
    ensures forall i :: 0 <= i < |root.datum| && !TakesDerive(root.datum[i]) ==> r.datum[i] == root.datum[i]
  {
    ModifyDatasAt(root.datum);
    root.(datum := ModifyDatas(root.datum))
  }

  lemma {:induction false} ModifyDatasAt(ds: seq<Data>)
    ensures forall i :: 0 <= i < |ds| ==> ModifyDatas(ds)[i] == ModifyData(ds[i])
  {
    if |ds| > 0 {
      ModifyDatasAt(ds[1..]);
      assert forall i :: 1 <= i < |ds| ==> ds[i] == ds[1..][i - 1];
    }
  }
}
