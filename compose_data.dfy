// The tree `compose_struct!` parses its input into
// (macros/src/compose_struct.rs, module `typedef`). Type expressions,
// generics, visibilities and `where` clauses stay token sequences; the
// `src` strings the source keeps for its error messages are not modelled.
module ComposeData {
  import opened Wrappers
  import opened Tokens

  /** `quote!(pub)` */
  const PUB: seq<Token> := [Ident("pub")]

  /** An attribute, classified by its kind. */
  datatype Attr =
    | Derive(names: seq<string>)
    | Allow(names: seq<string>)
    | Cfg(cond: seq<Token>)
    | Doc(text: string)
    | Default
    | PubAll
    | Other(ts: seq<Token>)

  /** The parsed input: the data types in order and whether `debug` was present. */
  datatype Root = Root(debug: bool, datum: seq<Data>)

  datatype Data =
    | StructData(st: Struct)
    | EnumData(en: Enum)
    | TypeData(ta: TypeAlias)
    | TraitData(tr: TraitAlias)
    | DebugFlag

  datatype Struct = Struct(
    name: string,
    generics: seq<Token>,
    attributes: seq<Attr>,
    visibility: seq<Token>,
    whereCondition: seq<Token>,
    fields: Fields)

  datatype Enum = Enum(
    name: string,
    generics: seq<Token>,
    attributes: seq<Attr>,
    visibility: seq<Token>,
    whereCondition: seq<Token>,
    variants: seq<EnumVariant>,
    enclosed: seq<Data>)

  datatype EnumVariant = EnumVariant(
    attributes: seq<Attr>,
    name: string,
    fields: Fields,
    isDefault: bool)

  /** `Fields`; the two field lists are the source's `CapsuledFields`, with the
      types written inside the braces (`enclosed`) kept beside the fields. */
  datatype Fields =
    | Unit
    | Unnamed(unnamed: seq<UnnamedField>, enclosed: seq<Data>)
    | Named(named: seq<NamedField>, enclosed: seq<Data>)

  datatype UnnamedField = UnnamedField(
    attributes: seq<Attr>,
    visibility: seq<Token>,
    value: FieldValue)

  datatype NamedField = NamedField(
    attributes: seq<Attr>,
    visibility: seq<Token>,
    name: string,
    value: FieldValue)

  /** A field holds either a type with an optional default expression, or an
      inline data type with an optional explicit type. */
  datatype FieldValue =
    | TypeValue(ty: seq<Token>, default: Option<seq<Token>>)
    | DataValue(explicitTy: Option<seq<Token>>, data: Data)

  datatype TypeAlias = TypeAlias(
    name: seq<Token>,
    artifact: seq<Token>,
    attributes: seq<Attr>,
    visibility: seq<Token>)

  datatype TraitAlias = TraitAlias(
    name: string,
    generics: seq<Token>,
    artifact: seq<Token>,
    attributes: seq<Attr>,
    visibility: seq<Token>,
    whereCondition: seq<Token>)

  /** Attributes of a data item; `Debug` has none. */
  function DataAttributes(d: Data): seq<Attr>
  {
    match d
    case StructData(s) => s.attributes
    case EnumData(e) => e.attributes
    case TypeData(t) => t.attributes
    case TraitData(t) => t.attributes
    case DebugFlag => []
  }

  /** Replaces the attributes of a data item (no-op on `Debug`). */
  function WithAttributes(d: Data, attrs: seq<Attr>): (r: Data)
    ensures d.DebugFlag? ==> r == d
    ensures !d.DebugFlag? ==> DataAttributes(r) == attrs
  {
    match d
    case StructData(s) => StructData(s.(attributes := attrs))
    case EnumData(e) => EnumData(e.(attributes := attrs))
    case TypeData(t) => TypeData(t.(attributes := attrs))
    case TraitData(t) => TraitData(t.(attributes := attrs))
    case DebugFlag => DebugFlag
  }
}
