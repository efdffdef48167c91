// Token trees as the procedural macros see them, and the debugging
// helpers of macros/src/tokens.rs: the recursive renderer
// `ts_description`, the destination choice of `print_tokens` and the
// literal built by `stringify_tokens`.
module Tokens {
  import opened Wrappers

  datatype Delim = Paren | Brace | Bracket | NoDelim

  /** One token tree of a `proc_macro` token stream. */
  datatype Token =
    | Ident(name: string)
    | Punct(ch: char)
    | Lit(text: string)
    | Group(delim: Delim, inner: seq<Token>)

  /** `" ".repeat(n)` */
  function Spaces(n: nat): (r: string)
    ensures |r| == n && forall i :: 0 <= i < n ==> r[i] == ' '
  {
    if n == 0 then "" else " " + Spaces(n - 1)
  }

  /** `Vec<String>::join(sep)` */
  function Join(parts: seq<string>, sep: string): string
  {
    if |parts| == 0 then ""
    else if |parts| == 1 then parts[0]
    else parts[0] + sep + Join(parts[1..], sep)
  }

  /** `TokenStream::to_string`; consecutive punctuation is printed joined
      (`&&`), every other pair of neighbours is separated by one space. */
  function TsString(ts: seq<Token>): string
  {
    if |ts| == 0 then ""
    else if |ts| == 1 then TokenString(ts[0])
    else if ts[0].Punct? && ts[1].Punct? then TokenString(ts[0]) + TsString(ts[1..])
    else TokenString(ts[0]) + " " + TsString(ts[1..])
  }

  function TokenString(t: Token): string
  {
    match t
    case Ident(n) => n
    case Punct(c) => [c]
    case Lit(s) => s
    case Group(d, inner) =>
      match d
      case Paren => "(" + TsString(inner) + ")"
      case Brace => "{" + TsString(inner) + "}"
      case Bracket => "[" + TsString(inner) + "]"
      case NoDelim => TsString(inner)
  }

  // ---------------------------------------------------------------- tree size

  /** Number of token trees, counting every tree nested inside a group. */
  function TokSize(t: Token): (n: nat)
    ensures n >= 1
    decreases t
  {
    match t
    case Group(_, inner) => 1 + TsSize(inner)
    case _ => 1
  }

  function TsSize(ts: seq<Token>): nat
    decreases ts
  {
    if |ts| == 0 then 0 else TokSize(ts[0]) + TsSize(ts[1..])
  }

  lemma {:induction false} TsSizeAppend(a: seq<Token>, b: seq<Token>)
    ensures TsSize(a + b) == TsSize(a) + TsSize(b)
    decreases |a|
  {
    if |a| == 0 {
      assert a + b == b;
    } else {
      assert (a + b)[0] == a[0];
      assert (a + b)[1..] == a[1..] + b;
      TsSizeAppend(a[1..], b);
    }
  }

  /** `rest` is what is left of `ts` after some tokens were taken from its front. */
  predicate Suffix(rest: seq<Token>, ts: seq<Token>)
  {
    |rest| <= |ts| && rest == ts[|ts| - |rest|..]
  }

  lemma {:induction false} SuffixSize(rest: seq<Token>, ts: seq<Token>)
    requires Suffix(rest, ts)
    ensures TsSize(rest) <= TsSize(ts)
    ensures |rest| < |ts| ==> TsSize(rest) < TsSize(ts)
    decreases |ts|
  {
    if |rest| < |ts| {
      assert ts[1..][|ts| - 1 - |rest|..] == ts[|ts| - |rest|..];
      SuffixSize(rest, ts[1..]);
    }
  }

  // ---------------------------------------------------------------- ts_description

  /** The text block `ts_description` writes for one token tree. */
  function DescribeTree(t: Token, offset: nat): string
    decreases t
  {
    var space := Spaces(offset);
    space + match t
      case Ident(n) => "ident: " + n
      case Lit(s) => "liter: " + s
      case Punct(c) => "punct: " + [c]
      case Group(d, inner) =>
        var body := TsDescription(inner, offset + 1);
        match d
        case Paren => "group (\n" + body + "\n" + space + ")"
        case Brace => "group {\n" + body + "\n" + space + "}"
        case Bracket => "group (\n" + body + "\n" + space + ")"
        case NoDelim => "group\n" + body
  }

  /** `ts_description(ts, offset)`: one block per top-level tree, joined by newlines. */
  function TsDescription(ts: seq<Token>, offset: nat): string
    decreases ts
  {
    if |ts| == 0 then ""
    else if |ts| == 1 then DescribeTree(ts[0], offset)
    else DescribeTree(ts[0], offset) + "\n" + TsDescription(ts[1..], offset)
  }

  /** Each block starts with the indentation of its level followed by the tree's kind. */
  lemma DescribeTreeIndented(t: Token, offset: nat)
    ensures var d := DescribeTree(t, offset);
      |d| > offset && d[..offset] == Spaces(offset) &&
      (t.Ident? ==> d[offset..] == "ident: " + t.name) &&
      (t.Lit? ==> d[offset..] == "liter: " + t.text) &&
      (t.Punct? ==> d[offset..] == "punct: " + [t.ch]) &&
      (t.Group? ==> d[offset..offset + 5] == "group")
  {
    var sp := Spaces(offset);
    var tail := DescribeTree(t, offset)[offset..];
    SplitAfter(sp, tail);
    if t.Group? {
      assert tail[..5] == "group";
    }
  }

  /** The two halves of a concatenation. */
  lemma SplitAfter<X>(a: seq<X>, b: seq<X>)
    ensures (a + b)[..|a|] == a && (a + b)[|a|..] == b
  {
  }

  /** Rendering a concatenation is rendering each part, joined by one newline:
      the output has exactly one block per top-level tree. */
  lemma {:induction false} TsDescriptionAppend(a: seq<Token>, b: seq<Token>, offset: nat)
    requires |a| > 0 && |b| > 0
    ensures TsDescription(a + b, offset) == TsDescription(a, offset) + "\n" + TsDescription(b, offset)
    decreases |a|
  {
    if |a| == 1 {
      assert (a + b)[0] == a[0] && (a + b)[1..] == b;
    } else {
      assert (a + b)[0] == a[0];
      assert (a + b)[1..] == a[1..] + b;
      TsDescriptionAppend(a[1..], b, offset);
    }
  }

  /** `n` spaces start at position `i` of `s`. */
  predicate SpacesAt(s: string, i: nat, n: nat)
  {
    i + n <= |s| && forall j :: i <= j < i + n ==> s[j] == ' '
  }

  /** Position `i` starts a line of `s`. */
  predicate LineStart(s: string, i: nat)
  {
    i < |s| && (i == 0 || s[i - 1] == '\n')
  }

  /** Every non-empty line of `s` starts with `n` spaces. */
  predicate Indented(s: string, n: nat)
  {
    forall i: nat :: i < |s| && LineStart(s, i) && s[i] != '\n' ==> SpacesAt(s, i, n)
  }

  predicate NoNewline(s: string)
  {
    forall i :: 0 <= i < |s| ==> s[i] != '\n'
  }

  /** No identifier, literal or punctuation character of the tree holds a
      line break (a raw string literal can). */
  predicate TreeOneLine(t: Token)
    decreases t
  {
    match t
    case Ident(n) => NoNewline(n)
    case Lit(s) => NoNewline(s)
    case Punct(c) => c != '\n'
    case Group(_, inner) => forall i :: 0 <= i < |inner| ==> TreeOneLine(inner[i])
  }

  /** A single line that starts with `n` spaces is indented by `n`. */
  lemma OneLineIndented(x: string, n: nat)
    requires NoNewline(x)
    ensures Indented(Spaces(n) + x, n)
  {
    var s := Spaces(n) + x;
    assert forall j :: 0 <= j < |s| ==> s[j] != '\n';
  }

  /** Joining two indented texts with a line break keeps the indentation. */
  lemma JoinIndented(a: string, b: string, n: nat)
    requires Indented(a, n) && Indented(b, n)
    ensures Indented(a + "\n" + b, n)
  {
    var s := a + "\n" + b;
    forall i: nat | LineStart(s, i) && s[i] != '\n'
      ensures SpacesAt(s, i, n)
    {
      if i < |a| {
        assert LineStart(a, i);
      } else {
        assert i > |a|;
        assert LineStart(b, i - |a| - 1);
        assert forall j :: |a| < j < |s| ==> s[j] == b[j - |a| - 1];
      }
    }
  }

  /** Deeper indentation is in particular indentation by fewer spaces. */
  lemma IndentedWeaken(s: string, n: nat)
    requires Indented(s, n + 1)
    ensures Indented(s, n)
  {
  }

  lemma GroupTextSplit(space: string, open: string, body: string, close: char)
    ensures space + (open + "\n" + body + "\n" + space + [close]) ==
      (space + open) + "\n" + body + "\n" + (space + [close])
  {
  }

  /** An opening line, indented contents and a closing line. */
  lemma DelimitedIndented(open: string, body: string, close: char, offset: nat)
    requires NoNewline(open) && close != '\n' && Indented(body, offset)
    ensures Indented(Spaces(offset) + (open + "\n" + body + "\n" + Spaces(offset) + [close]), offset)
  {
    var space := Spaces(offset);
    OneLineIndented(open, offset);
    OneLineIndented([close], offset);
    JoinIndented(space + open, body, offset);
    JoinIndented((space + open) + "\n" + body, space + [close], offset);
    GroupTextSplit(space, open, body, close);
  }

  /** The block of a group whose contents are indented one level deeper. */
  lemma GroupIndented(d: Delim, inner: seq<Token>, offset: nat)
    requires Indented(TsDescription(inner, offset + 1), offset + 1)
    ensures Indented(DescribeTree(Group(d, inner), offset), offset)
  {
    var space := Spaces(offset);
    var body := TsDescription(inner, offset + 1);
    IndentedWeaken(body, offset);
    if d.NoDelim? {
      OneLineIndented("group", offset);
      JoinIndented(space + "group", body, offset);
      assert space + ("group\n" + body) == (space + "group") + "\n" + body;
    } else if d.Brace? {
      assert "group {" + "\n" == "group {\n" && ['}'] == "}";
      DelimitedIndented("group {", body, '}', offset);
    } else {
      assert "group (" + "\n" == "group (\n" && [')'] == ")";
      DelimitedIndented("group (", body, ')', offset);
    }
  }

  /** The closing line of a delimited group has exactly the group's indentation. */
  lemma GroupClosingLine(d: Delim, inner: seq<Token>, offset: nat)
    requires !d.NoDelim?
    ensures var s := DescribeTree(Group(d, inner), offset);
      |s| >= offset + 2 && s[|s| - offset - 2..] == "\n" + Spaces(offset) + [if d.Brace? then '}' else ')']
  {
    var close := if d.Brace? then '}' else ')';
    var s := DescribeTree(Group(d, inner), offset);
    var head := Spaces(offset) + (if d.Brace? then "group {" else "group (") + "\n" + TsDescription(inner, offset + 1);
    assert s == head + ("\n" + Spaces(offset) + [close]);
    SplitAfter(head, "\n" + Spaces(offset) + [close]);
  }

  /** Every line of a tree's block starts with the block's indentation, and
      the lines of a group's contents start with one more space. */
  lemma {:induction false} BlockIndented(t: Token, offset: nat)
    requires TreeOneLine(t)
    ensures Indented(DescribeTree(t, offset), offset)
    ensures t.Group? ==> Indented(TsDescription(t.inner, offset + 1), offset + 1)
    decreases t, 1
  {
    match t
    case Ident(n) => OneLineIndented("ident: " + n, offset);
    case Lit(x) => OneLineIndented("liter: " + x, offset);
    case Punct(c) => OneLineIndented("punct: " + [c], offset);
    case Group(d, inner) =>
      BlocksIndented(inner, offset + 1);
      GroupIndented(d, inner, offset);
  }

  lemma {:induction false} BlocksIndented(ts: seq<Token>, offset: nat)
    requires forall i :: 0 <= i < |ts| ==> TreeOneLine(ts[i])
    ensures Indented(TsDescription(ts, offset), offset)
    decreases ts, 0
  {
    if |ts| == 1 {
      BlockIndented(ts[0], offset);
    } else if |ts| > 1 {
      BlockIndented(ts[0], offset);
      BlocksIndented(ts[1..], offset);
      JoinIndented(DescribeTree(ts[0], offset), TsDescription(ts[1..], offset), offset);
    }
  }

  /** A bracket group is described with the same `(`/`)` as a
      parenthesised one. */
  lemma GroupRendering(inner: seq<Token>, offset: nat)
    ensures DescribeTree(Group(Bracket, inner), offset) == DescribeTree(Group(Paren, inner), offset)
  {
  }

  // ---------------------------------------------------------------- print_tokens

  /** What `syn::parse::<Meta>` yields for the attribute of `print_tokens`.
      A path is the list of its segments; `get_ident` succeeds on a single
      segment. A name-value's right side is a string literal or something else. */
  datatype MetaValue = StrValue(value: string) | OtherValue
  datatype Meta =
    | MetaPath(path: seq<string>)
    | MetaNameValue(path: seq<string>, rhs: MetaValue)
    | MetaList(path: seq<string>, args: seq<Token>)

  datatype PrintTo = Stdout | Stderr | File(path: string)

  /** The destination chosen by the closure at the head of `print_tokens`;
      every early `return` of the closure keeps the default `Stderr`. */
  function PrintDestination(attr: Option<Meta>): (dst: PrintTo)
    ensures dst == Stdout <==> attr == Some(MetaPath(["stdout"]))
    ensures dst.File? <==> attr.Some? && attr.value.MetaNameValue? && attr.value.path == ["file"]
                            && attr.value.rhs.StrValue?
    ensures dst.File? ==> dst.path == attr.value.rhs.value
    ensures dst == Stderr <==> !(attr == Some(MetaPath(["stdout"])))
                               && !(attr.Some? && attr.value.MetaNameValue? && attr.value.path == ["file"]
                                    && attr.value.rhs.StrValue?)
  {
    match attr
    case None => Stderr
    case Some(MetaPath(p)) =>
      if |p| != 1 then Stderr
      else if p[0] == "stdout" then assert p == [p[0]]; Stdout
      else if p[0] == "stderr" then Stderr
      else Stderr
    case Some(MetaNameValue(p, rhs)) =>
      if |p| != 1 || p[0] != "file" then Stderr
      else if rhs.StrValue? then File(rhs.value)
      else Stderr
    case Some(MetaList(_, _)) => Stderr
  }

  /** What `print_tokens` writes and where, and the token stream it returns. */
  datatype PrintOutcome = PrintOutcome(dst: PrintTo, text: string, output: seq<Token>)

  function PrintTokens(attr: Option<Meta>, item: seq<Token>): (r: PrintOutcome)
    ensures r.output == item
    ensures r.dst == PrintDestination(attr)
    ensures |r.text| >= 13 && r.text[..13] == "print_tokens\n"
    ensures r.text[13..] == TsDescription(item, 0) + "\n"
  {
    var body := TsDescription(item, 0) + "\n";
    SplitAfter("print_tokens\n", body);
    PrintOutcome(PrintDestination(attr), "print_tokens\n" + body, item)
  }

  // ---------------------------------------------------------------- stringify_tokens

  /** The source form `Literal::string` gives a string: quoted, with
      backslash, double quote and newline escaped. */
  function Escape(s: string): string
  {
    if |s| == 0 then ""
    else (if s[0] == '\\' then "\\\\"
          else if s[0] == '"' then "\\\""
          else if s[0] == '\n' then "\\n"
          else [s[0]]) + Escape(s[1..])
  }

  /** Reads back the value of an escaped literal body. */
  function Unescape(s: string): Option<string>
  {
    if |s| == 0 then Some("")
    else if s[0] != '\\' then
      if s[0] == '"' || s[0] == '\n' then None
      else match Unescape(s[1..]) case None => None case Some(r) => Some([s[0]] + r)
    else if |s| < 2 then None
    else
      var c := if s[1] == '\\' then Some('\\') else if s[1] == '"' then Some('"')
               else if s[1] == 'n' then Some('\n') else None;
      match c
      case None => None
      case Some(ch) =>
        match Unescape(s[2..]) case None => None case Some(r) => Some([ch] + r)
  }

  lemma {:induction false} EscapeRoundTrip(s: string)
    ensures Unescape(Escape(s)) == Some(s)
  {
    if |s| > 0 {
      EscapeRoundTrip(s[1..]);
      var e := Escape(s[1..]);
      if s[0] == '\\' {
        assert Escape(s) == "\\\\" + e;
        assert (Escape(s))[2..] == e;
      } else if s[0] == '"' {
        assert Escape(s) == "\\\"" + e;
        assert (Escape(s))[2..] == e;
      } else if s[0] == '\n' {
        assert Escape(s) == "\\n" + e;
        assert (Escape(s))[2..] == e;
      } else {
        assert Escape(s) == [s[0]] + e;
        assert (Escape(s))[0] == s[0] && (Escape(s))[1..] == e;
      }
      assert [s[0]] + s[1..] == s;
    }
  }

  function StringLiteral(value: string): Token
  {
    Lit("\"" + Escape(value) + "\"")
  }

  /** The value of a string literal token, if it is one. */
  function LiteralValue(t: Token): Option<string>
  {
    if t.Lit? && |t.text| >= 2 && t.text[0] == '"' && t.text[|t.text| - 1] == '"'
    then Unescape(t.text[1..|t.text| - 1])
    else None
  }

  /** `stringify_tokens`: a single string literal whose value is the
      description of `item` after a `stringify_token` header line. */
  function StringifyTokens(item: seq<Token>): (r: seq<Token>)
    ensures |r| == 1
    ensures LiteralValue(r[0]) == Some("stringify_token\n" + TsDescription(item, 0) + "\n")
  {
    var src := "stringify_token\n" + TsDescription(item, 0) + "\n";
    EscapeRoundTrip(src);
    var lit := StringLiteral(src);
    assert lit.text[1..|lit.text| - 1] == Escape(src);
    [lit]
  }
}
