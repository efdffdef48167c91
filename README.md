# A verified model of the macro front ends, iterator adaptors and integer coefficients

This project models, in Dafny, the core of a Rust utility crate and its companion procedural-macro crate, and proves properties of the model.

- **`compose_struct!`** (`macros/src/compose_struct.rs`). The parser turns nested struct, enum and alias descriptions into a tree of data items, fields and attributes. Each parser is a phase state machine, modelled as a step function, a run over the token trees, and a loop method proved equal to the run. The rewriting pass distributes attributes to nested types, merges duplicate `derive`/`allow` lists, removes marker attributes, fills in defaults and applies `pub_all`. The default analysis works over the four-valued answer `TrueRequired`/`TrueOptional`/`False`/`NotAllowed` and its merge rules. Modules: `ComposeData`, `ComposeParser`, `Modification`, `HasDefault`.
- **`for_each!` and `smart_for_each!`** (`macros/src/for_each.rs`, `macros/src/smart_for_each.rs`). The argument front ends are modelled: token splitting, `check_mut_flag`, `FnParse::parse`, the option parsers and `match_arg`, reduction aliases and their identity/operation tables, condition concatenation, and mixed-radix index flattening with its inverse. `smart_for_each!` adds the variable and substep names, the `arms(...)` state machine, the default arms and the conversion of an arm. Modules: `ForEachUtils`, `ForEachInput`, `ForEachReduction`, `ForEachElement`, `ForEachConvert`, `SmartForEach`.
- **Token debugging helpers** (`macros/src/tokens.rs`). These are the recursive renderer `ts_description`, the destination choice of `print_tokens` and `stringify_tokens`. Module: `Tokens`.
- **Iterator adaptors** (`src/iterator.rs`, `src/iterator/*.rs`). Each is a class whose fields hold the remaining items of its component iterators. Its methods are proved against a specification of the whole output sequence and of `size_hint`. The adaptors are `CycleN`, `min_max_by`, `OneOrZero`, tuple `Zip`/`ZipEq` and `len_equality`, array `Zip` (and `MultiZip`), `Chain`, the forward odometer `CartesianProduct`, the double-ended product, and `ExtendedMap` with `map_ok`, `map_err`, `map_some` and `map_into`. Modules: `IterBase`, `CycleN`, `MinMaxBy`, `OneOrZero`, `Zip`, `ArrayZip`, `Chain`, `Product`, `ProductDoubleEnded`, `ExtendedMap`.
- **Tuple helpers** (`src/tuples.rs`): `zip_options`, `ZipIters`, `ChainIters`, `with_index`, `ZipArrays`. Module: `Tuples`.
- **Numerics** (`src/numerics.rs`, `src/numerics/basic_operations.rs`): compound assignment for `&&`, `||`, `min` and `max`, and `minimum`/`maximum` over many values. Module: `Numerics`.
- **Integer coefficients** (`src/numerics/special_functions/integer_coefficients.rs`, repeated in `src/numerics/special_functions.rs`): the exact-fraction binomial and multinomial coefficients, proved equal to n!/(k!(n−k)!) and (Σp)!/Πp!, and the memoised Bernoulli numbers, proved to satisfy their recurrence. Module: `IntegerCoefficients`.

Panics and `error()` exits are modelled as the `Err` or `None` of the `Result`/`Option` types in `Wrappers`. Where code is written twice in the source, it is modelled once, and different rows below cite each copy.

## Model

| member | source | states |
|---|---|---|
| Tokens.DescribeTreeIndented | macros/src/tokens.rs:75-91 | every rendered tree starts with `offset` spaces, then `ident: name`, `liter: text`, `punct: c`, or `group` |
| Tokens.TsDescriptionAppend | macros/src/tokens.rs:77-110 | rendering a concatenation is the two renderings joined by one newline: one block per top-level tree |
| Tokens.GroupRendering | macros/src/tokens.rs:99-101 | a bracket group is described exactly as a parenthesised one, with `(` and `)` |
| Tokens.BlockIndented | macros/src/tokens.rs:75-106 | for a tree whose names and literals hold no newline, every line of its block starts with `offset` spaces, and every line of a group's contents with `offset + 1` |
| Tokens.BlocksIndented | macros/src/tokens.rs:72-110 | every line of the description of a token sequence starts with `offset` spaces |
| Tokens.GroupIndented | macros/src/tokens.rs:89-105 | a group's block is indented by `offset` whenever its contents are indented by `offset + 1`, for every delimiter |
| Tokens.GroupClosingLine | macros/src/tokens.rs:92-101 | the last line of a delimited group's block is `offset` spaces followed by `}` for a brace group and `)` for a parenthesis or bracket group |
| Tokens.DescribeTree | macros/src/tokens.rs:78-107 | the block of one token tree: `ident: `, `liter: `, `punct: ` lines, and for a group a `group (`/`group {` line, the contents one deeper and the closing line (no closing line without a delimiter); its properties are the indentation lemmas above |
| Tokens.TsDescription | macros/src/tokens.rs:72-110 | the blocks of the top-level trees joined by newlines; `TsDescriptionAppend` and `BlocksIndented` state its shape |
| Tokens.Escape | macros/src/tokens.rs:65-68 | the quoted form `Literal::string` gives a string, modelled with only backslash, quote and newline escaped (tab, carriage return, `\0` and other non-printable characters, which `Literal::string` also escapes, are left as they are); `EscapeRoundTrip` proves it reads back |
| Tokens.PrintDestination | macros/src/tokens.rs:6-36 | the destination is `Stdout` iff the attribute is the path `stdout`, `File(p)` iff it is `file = "p"`, and `Stderr` in every other case, including a failed parse |
| Tokens.PrintTokens | macros/src/tokens.rs:38-54 | returns `item` unchanged, writes to the chosen destination, and the text is `print_tokens\n` + the description + `\n` |
| Tokens.EscapeRoundTrip | macros/src/tokens.rs:65-68 | the string literal built for a value reads back as that value |
| Tokens.StringifyTokens | macros/src/tokens.rs:61-69 | the output is one string literal whose value is `stringify_token\n` + the description + `\n` |
| HasDefault.ConvertAsData | macros/src/compose_struct.rs:2837-2844 | a nested type never answers `TrueRequired`; it answers `TrueOptional` iff its own answer was `TrueRequired` or `TrueOptional`; `False` and `NotAllowed` pass through |
| HasDefault.VariantAnswer | macros/src/compose_struct.rs:2754-2762 | the variant table: `TrueRequired` iff (default and fields required or optional) or (not default and fields required); `False` iff not default and fields `False` or optional; `NotAllowed` iff (default and fields `False`) or fields `NotAllowed`; never `TrueOptional` |
| HasDefault.FoldFieldsNeverNotAllowed | macros/src/compose_struct.rs:2808-2816 | the field merge only ends in `NotAllowed` when nothing was merged into a `NotAllowed` start |
| HasDefault.FoldFieldsRequired | macros/src/compose_struct.rs:2808-2816 | the field merge gives `TrueRequired` iff some operand is `TrueRequired` |
| HasDefault.FoldFieldsOptional | macros/src/compose_struct.rs:2808-2816 | a `TrueOptional` field merge comes only from `TrueOptional`/`NotAllowed` operands, with at least one `TrueOptional` |
| HasDefault.FoldFieldsAllOptional | macros/src/compose_struct.rs:2812 | merging only `TrueOptional`s gives `TrueOptional` |
| HasDefault.MergeAsFieldsSpec | macros/src/compose_struct.rs:2806-2819 | `False` for no fields; `NotAllowed` only for the single list `[NotAllowed]`; `TrueRequired` iff some field is `TrueRequired`; `TrueOptional` only from optional or not-allowed fields; all optional gives `TrueOptional` |
| HasDefault.FoldVariantsSpec | macros/src/compose_struct.rs:2824-2831 | closed form of the variant merge: any `TrueOptional`/`NotAllowed` among two or more operands gives `NotAllowed`; otherwise the count of `TrueRequired` decides: 0 gives `False`, 1 gives `TrueRequired`, more give `NotAllowed` |
| HasDefault.MergeAsVariantsSpec | macros/src/compose_struct.rs:2822-2834 | `NotAllowed` for no variants; a single variant's answer is kept; otherwise the closed form above |
| HasDefault.DataHasDefault | macros/src/compose_struct.rs:2726-2736 | a nested data item never answers `TrueRequired` |
| HasDefault.ValueHasDefault | macros/src/compose_struct.rs:2781-2789 | a typed field answers `TrueRequired` iff it has a default and `False` iff it has none; a nested data field never answers `TrueRequired` |
| HasDefault.NestedNeverRequires | macros/src/compose_struct.rs:2765-2789 | a struct whose fields are all nested types never requires a `Default` impl |
| HasDefault.StructDefaultImpl | macros/src/compose_struct.rs:2368-2386 | a struct gets a `Default` impl iff its fields answer `TrueRequired` or `TrueOptional`, and an error iff they answer `NotAllowed` |
| HasDefault.EnumDefaultVariantAsWritten | macros/src/compose_struct.rs:2422-2431 | the `find_map` as written: it picks the first `TrueRequired` variant when no `NotAllowed` comes before it; `None` when there is neither; an error only when a `NotAllowed` variant is reached |
| HasDefault.TwoDefaultVariantsAccepted | macros/src/compose_struct.rs:2422-2431 | an enum with two `= default` unit variants gets the first as its default with no error, although the merged answer for the enum is `NotAllowed` |
| HasDefault.EnumDefaultVariant | macros/src/compose_struct.rs:2744-2751 | corrected: an error iff the enum's merged answer is `NotAllowed`; otherwise the chosen variant is the only `TrueRequired` one and every other variant answers `False` |
| HasDefault.ExactlyOneRequired | macros/src/compose_struct.rs:2827-2829 | with no optional or not-allowed answers and at most one `TrueRequired`, every other answer is `False` |
| HasDefault.MergeAsFields | macros/src/compose_struct.rs:2806-2819 | `merge_as_fields`: the fields rule folded over the answers, `False` for none; `MergeAsFieldsSpec` gives its closed form |
| HasDefault.MergeAsVariants | macros/src/compose_struct.rs:2822-2834 | `merge_as_variants`: the variants rule folded over the answers, `NotAllowed` for none; `MergeAsVariantsSpec` gives its closed form |
| HasDefault.EnumHasDefault | macros/src/compose_struct.rs:2744-2751 | an enum's answer: its variants' answers merged as variants |
| HasDefault.VariantHasDefault | macros/src/compose_struct.rs:2753-2763 | a variant's answer from its default mark and its fields' answer; `VariantAnswer` gives the table |
| HasDefault.FieldsHasDefault | macros/src/compose_struct.rs:2765-2779 | `TrueOptional` for a unit body, otherwise the fields' answers merged as fields |
| Modification.FirstFlagged | macros/src/compose_struct.rs:2275-2276 | the position found is the first attribute that satisfies the flag predicate, or the length when none does |
| Modification.CheckAttrFlag | macros/src/compose_struct.rs:2274-2278 | returns `None` and leaves the list unchanged iff no attribute matches; otherwise it returns the first match and the list without exactly that one element |
| Modification.InsertName | macros/src/compose_struct.rs:2262-2265 | inserting a name into a sorted, duplicate-free list keeps it sorted and duplicate-free and adds exactly that name |
| Modification.SortDedup | macros/src/compose_struct.rs:2262-2265 | sorting by the names' strings and dropping equal neighbours gives a strictly sorted list with the same set of names |
| Modification.SortedUnique | macros/src/compose_struct.rs:2262-2265 | two strictly sorted lists with the same names are equal, so the merged list does not depend on the input order |
| Modification.MakeKind | macros/src/compose_struct.rs:2205-2228 | `to_attr` builds an attribute of the requested kind whose list is exactly the names given |
| Modification.KindAppend | macros/src/compose_struct.rs:2235-2256 | counting, collecting names of and filtering out one kind distribute over concatenation |
| Modification.CountKindAppend | macros/src/compose_struct.rs:2235-2237 | the count of matching attributes distributes over concatenation |
| Modification.NamesOfKindAppend | macros/src/compose_struct.rs:2245-2252 | the names collected from matching attributes distribute over concatenation |
| Modification.OtherAttrsAppend | macros/src/compose_struct.rs:2244-2256 | the non-matching attributes kept distribute over concatenation |
| Modification.OtherAttrsClean | macros/src/compose_struct.rs:2244-2256 | after filtering out one kind no attribute of that kind is left, and filtering again changes nothing |
| Modification.RemoveDuplicated | macros/src/compose_struct.rs:2230-2271 | fewer than two matching attributes leave the list unchanged; otherwise at most one matching attribute is left, it comes first, its names are strictly sorted and are exactly the names of all matching attributes, and the other attributes keep their order |
| Modification.RemoveDuplicateImpl | macros/src/compose_struct.rs:2230-2271 | the loop over the attributes computes `RemoveDuplicated` |
| Modification.OtherAttrsKeepsOtherKind | macros/src/compose_struct.rs:2204-2228 | merging the `allow` lists does not change how many `derive` attributes there are |
| Modification.NamesThroughOtherAttrs | macros/src/compose_struct.rs:2204-2228 | merging the `allow` lists does not change the `derive` names |
| Modification.RemoveDuplicateNormalizes | macros/src/compose_struct.rs:2204-2228 | after `remove_duplicate` there is at most one `derive` and at most one `allow`, and the `derive` names are those of the input |
| Modification.InheritedNames | macros/src/compose_struct.rs:2152-2157 | keeps exactly the names of a derive list that are in the whitelist `Clone, Copy, Debug, PartialEq, Eq, PartialOrd, Ord, Serialize, Deserialize` |
| Modification.CopiedDerive | macros/src/compose_struct.rs:2143-2162 | the copied derive names are exactly the whitelisted names some parent `derive` lists |
| Modification.CopiedAllow | macros/src/compose_struct.rs:2143-2162 | the copied allow names are exactly the names some parent `allow` lists |
| Modification.CopiedCfgs | macros/src/compose_struct.rs:2143-2162 | the copied `cfg`s are exactly the parent's `cfg` attributes |
| Modification.AddCopied | macros/src/compose_struct.rs:2165-2197 | adding the copied attributes changes no nested structure; the debug marker, which the source treats as unreachable, is left alone |
| Modification.CopyAttrToSubtype | macros/src/compose_struct.rs:2139-2199 | every target gets the same prefix, target by target, and an empty target list stays empty |
| Modification.CopyAttrToSubtypeSpec | macros/src/compose_struct.rs:2165-2197 | each target's attributes become the copied `cfg`s, then one `allow` with every parent allow name, then (for structs and enums only) one `derive` with the whitelisted parent derive names, then its own attributes; type and trait aliases never get a `derive` |
| Modification.InCopyPrefix | macros/src/compose_struct.rs:2176-2192 | an attribute is in the prefix iff it is a parent `cfg`, the merged `allow` (when non-empty) or the merged `derive` (when non-empty and the target takes derives) |
| Modification.CopyPrefixKinds | macros/src/compose_struct.rs:2176-2192 | the prefix holds only `cfg`, `allow` and `derive` attributes, its `cfg`s are exactly the parent's, and it has no `derive` for an alias |
| Modification.CopyPrefixNames | macros/src/compose_struct.rs:2176-2192 | the prefix's `allow` names are the parent's allow names and its `derive` names the whitelisted parent derive names |
| Modification.CopyPrefixHasDerive | macros/src/compose_struct.rs:2186-2190 | a struct or enum target whose parent derives a whitelisted name gets a `derive` |
| Modification.DocAndCfg | macros/src/compose_struct.rs:2121-2128 | keeps exactly the field's `doc` and `cfg` attributes |
| Modification.MoveFieldAttrsToSubtype | macros/src/compose_struct.rs:2120-2136 | a typed field is unchanged; a nested struct or enum gets the field's `doc`/`cfg` attributes appended after its own; a nested alias is unchanged |
| Modification.InheritVisibility | macros/src/compose_struct.rs:2108-2117 | the nested type's visibility becomes the given one and nothing else changes |
| Modification.TouchDatas | macros/src/compose_struct.rs:1672-1684 | a rewrite applied to the collected subtypes is applied to each of them in place |
| Modification.TouchFieldsCollect | macros/src/compose_struct.rs:1836-1852 | rewriting the fields' nested types in place and then collecting them equals collecting them and rewriting each, so the `&mut` list the source builds is modelled faithfully |
| Modification.TouchDatasAppend | macros/src/compose_struct.rs:1836-1852 | rewriting collected subtypes distributes over concatenation |
| Modification.TouchUnnamedCollect | macros/src/compose_struct.rs:1836-1852 | the same for unnamed fields |
| Modification.TouchNamedCollect | macros/src/compose_struct.rs:1836-1852 | the same for named fields |
| Modification.DataPubAll | macros/src/compose_struct.rs:1892-1898 | `pub_all` leaves a struct or enum wholly public (`AllPub`: the item, every struct field and every struct or enum nested anywhere in it are `pub`) and changes nothing else (`DataShape`, which blanks only those visibilities, is kept); a struct goes to `StructPubAll`, an enum to `EnumPubAll`; attributes and size are kept; aliases are untouched |
| Modification.StructPubAll | macros/src/compose_struct.rs:1907-1940 | the struct and each of its fields become `pub` and every type nested in its fields or enclosed becomes wholly public (`AllPub`); the fields keep their shape (`FieldsShape`), so each field keeps its attributes, name and value up to the visibilities `pub_all` assigns, and nothing but the visibility and the fields changes |
| Modification.EnumPubAllAsWritten | macros/src/compose_struct.rs:1949-1959 | as written, `pub_all` on an enum leaves the enum's own visibility and attributes unchanged |
| Modification.EnumPubAll | macros/src/compose_struct.rs:1949-1959 | corrected: the enum becomes `pub` and wholly public (`AllPub`); its variants and enclosed types keep their shape (`VariantsShape`, `DatasShape`), so only visibilities change; each variant keeps its name, attributes and default flag; counts and sizes are kept |
| Modification.EnumPubAllKeepsPrivate | macros/src/compose_struct.rs:1949-1959 | as written, an enum marked `#[pub_all]` with no visibility stays private, so the result is not wholly public (`!AllPub`); after the correction it is |
| Modification.DatasPubAll | macros/src/compose_struct.rs:1920-1922 | every enclosed type becomes wholly public and keeps its shape (`DatasShape`), attributes, count and size |
| Modification.VariantsPubAll | macros/src/compose_struct.rs:1955-1958 | only the types nested in each variant's fields become wholly public; every variant keeps its name, attributes and default flag, and its fields keep their shape including their own visibilities (`VariantsShape`) |
| Modification.PubAllFixesPublic | macros/src/compose_struct.rs:1892-1898 | a data item that is already wholly public is a fixed point of `pub_all` |
| Modification.FieldsPubAllFixes | macros/src/compose_struct.rs:1910-1939 | fields that are already wholly public are left unchanged |
| Modification.UnnamedPubAllFixes | macros/src/compose_struct.rs:1917-1919 | unnamed fields that are already wholly public are left unchanged |
| Modification.NamedPubAllFixes | macros/src/compose_struct.rs:1929-1931 | named fields that are already wholly public are left unchanged |
| Modification.ValuePubAllFixes | macros/src/compose_struct.rs:1968-1972 | a field value that is already wholly public is left unchanged |
| Modification.DatasPubAllFixes | macros/src/compose_struct.rs:1920-1922 | enclosed types that are already wholly public are left unchanged |
| Modification.VariantsPubAllFixes | macros/src/compose_struct.rs:1955-1958 | variants whose nested types are already wholly public are left unchanged |
| Modification.PubAllIdempotent | macros/src/compose_struct.rs:1920-1939 | `pub_all` is idempotent, so a struct's enclosed types being visited twice (by the loop and again by `collect_subtype`) gives the same result as visiting them once |
| Modification.PublicShapeUnique | macros/src/compose_struct.rs:1881-1898 | two wholly public data items of the same shape are equal |
| Modification.FieldsShapeUnique | macros/src/compose_struct.rs:1910-1939 | wholly public fields of the same shape are equal |
| Modification.UnnamedShapeUnique | macros/src/compose_struct.rs:1917-1919 | wholly public unnamed field lists of the same shape are equal |
| Modification.NamedShapeUnique | macros/src/compose_struct.rs:1929-1931 | wholly public named field lists of the same shape are equal |
| Modification.ValueShapeUnique | macros/src/compose_struct.rs:1968-1972 | wholly public field values of the same shape are equal |
| Modification.DatasShapeUnique | macros/src/compose_struct.rs:1920-1922 | wholly public enclosed-type lists of the same shape are equal |
| Modification.VariantsShapeUnique | macros/src/compose_struct.rs:1955-1958 | variant lists whose nested types are wholly public and whose shapes agree are equal |
| Modification.PubAllCharacterised | macros/src/compose_struct.rs:1881-1898 | a data item is `DataPubAll(d)` if and only if it is wholly public and has `d`'s shape: `pub_all` makes everything `pub` and changes nothing else |
| Modification.FieldsPubAll | macros/src/compose_struct.rs:1910-1939 | every type nested in the fields or enclosed becomes wholly public; with the struct flag every field also becomes `pub`, while an enum variant's fields keep their visibility; the shape (`FieldsShape`: names, attributes, values, enclosed types up to the visibilities assigned), counts and size are kept |
| Modification.UnnamedPubAll | macros/src/compose_struct.rs:1917-1919 | each unnamed field becomes `pub` (in a struct) or keeps its visibility (in a variant); its attributes and typed value are kept, and an inline type becomes wholly public with its explicit type and shape kept (`UnnamedShape`) |
| Modification.NamedPubAll | macros/src/compose_struct.rs:1929-1931 | each named field becomes `pub` (in a struct) or keeps its visibility (in a variant); its name, attributes and typed value are kept, and an inline type becomes wholly public with its explicit type and shape kept (`NamedShape`) |
| Modification.ValuePubAll | macros/src/compose_struct.rs:1968-1972 | a typed field value is unchanged; an inline type keeps its explicit type and becomes `DataPubAll` of itself, wholly public with its shape kept |
| Modification.DataSetDefault | macros/src/compose_struct.rs:2002-2008 | a struct gets its fields' defaults filled in (`FieldsSetDefault`) and nothing else changes; an enum is rewritten by `EnumSetDefault`; aliases are unchanged; attributes, visibility and size are kept |
| Modification.EnumSetDefault | macros/src/compose_struct.rs:2028-2032 | an enum answering anything but `False` is unchanged; otherwise it has a variant, the first variant becomes the default with its fields' defaults filled in, and every other variant and every other part of the enum is kept |
| Modification.VariantSetDefault | macros/src/compose_struct.rs:2042-2045 | the variant becomes the default one, its fields become `FieldsSetDefault` of the old ones, and its name and attributes are kept |
| Modification.FieldsSetDefault | macros/src/compose_struct.rs:2049-2069 | every field of a struct or variant ends up with a default expression; the field list goes through `UnnamedSetDefault` / `NamedSetDefault`, so names, attributes, visibilities, types and existing defaults are kept; the enclosed types and the shape are kept |
| Modification.UnnamedSetDefault | macros/src/compose_struct.rs:2078-2080 | every unnamed field gets a default; fields with one keep it; attributes, visibility and types are kept; each value becomes `ValueSetDefault` of the old one, so an inline type sets its own defaults |
| Modification.NamedSetDefault | macros/src/compose_struct.rs:2089-2091 | every named field gets a default; fields with one keep it; names, attributes, visibility and types are kept; each value becomes `ValueSetDefault` of the old one, so an inline type sets its own defaults |
| Modification.ValueSetDefault | macros/src/compose_struct.rs:2095-2104 | a typed value without a default gets `Default::default()`, one with a default keeps it, and an inline type keeps its explicit type and becomes `DataSetDefault` of itself |
| Modification.SetDefaultRequiresImpl | macros/src/compose_struct.rs:2049-2104 | after `set_default`, a struct with at least one typed field requires a `Default` impl |
| Modification.StructCheckDefault | macros/src/compose_struct.rs:2011-2016 | removes the first `#[default]` marker; with one, the fields become `FieldsSetDefault` of the old ones and nothing else changes; a struct without one is unchanged |
| Modification.EnumCheckDefault | macros/src/compose_struct.rs:2022-2027 | removes the first `#[default]` marker from the enum's attributes; with one, the unmarked enum goes through `EnumSetDefault` (the first variant made default when none is); without one the enum is unchanged |
| Modification.VariantCheckDefault | macros/src/compose_struct.rs:2035-2041 | a variant becomes default iff it was already default or carried a `#[default]` marker, which is removed; a default variant's fields become `FieldsSetDefault` of the old ones, others keep theirs; the name is kept |
| Modification.StructCheckPubAll | macros/src/compose_struct.rs:1901-1906 | removes the first `#[pub_all]` marker; with one the result is `StructPubAll` of the unmarked struct, so it is wholly public (`AllPub`); without one the struct is unchanged |
| Modification.EnumCheckPubAll | macros/src/compose_struct.rs:1943-1948 | corrected: removes the first `#[pub_all]` marker from the enum's attributes; with one the result is the corrected `EnumPubAll` of the unmarked enum, `pub` and wholly public (`AllPub`); without one the enum is unchanged |
| Modification.ModifyData | macros/src/compose_struct.rs:1656-1664 | rewriting keeps the kind, name and size of a struct or enum, leaves at most one `derive` and one `allow`, and leaves aliases unchanged |
| Modification.ModifyStruct | macros/src/compose_struct.rs:1666-1705 | a rewritten struct keeps its name and size and has at most one `derive` and one `allow` |
| Modification.ModifyEnum | macros/src/compose_struct.rs:1708-1740 | corrected: a rewritten enum keeps its name and size and has at most one `derive` and one `allow` |
| Modification.EnumTouched | macros/src/compose_struct.rs:1710-1731 | the flag checks, attribute copy and visibility copy keep the enum's name and size |
| Modification.ModifyVariants | macros/src/compose_struct.rs:1733-1736 | every variant is rewritten in place, with sizes kept |
| Modification.ModifyVariant | macros/src/compose_struct.rs:1742-1747 | a variant becomes default iff it was default or carried `#[default]`; name and size kept |
| Modification.ModifyFields | macros/src/compose_struct.rs:1750-1769 | rewriting fields keeps their size |
| Modification.ModifyUnnamedFields | macros/src/compose_struct.rs:1760-1767 | every unnamed field is rewritten in place |
| Modification.ModifyNamedFields | macros/src/compose_struct.rs:1760-1767 | every named field is rewritten in place |
| Modification.FieldValueRewrite | macros/src/compose_struct.rs:1771-1809 | a field's flag checks keep its type; a typed field without `#[default]` keeps its value |
| Modification.FlagsCommute | macros/src/compose_struct.rs:1773-1774 | removing the `#[pub_all]` marker first does not change whether a `#[default]` marker is found |
| Modification.RemoveKeepsDefault | macros/src/compose_struct.rs:2274-2278 | removing a non-`default` attribute does not change whether a `#[default]` marker is present |
| Modification.ModifyUnnamedField | macros/src/compose_struct.rs:1771-1790 | an unnamed field keeps its visibility and size |
| Modification.ModifyNamedField | macros/src/compose_struct.rs:1792-1811 | a named field keeps its visibility, name and size |
| Modification.ModifyValue | macros/src/compose_struct.rs:1813-1820 | a typed value is unchanged; a nested type is rewritten |
| Modification.ModifyDatas | macros/src/compose_struct.rs:1738 | every enclosed type is rewritten in place |
| Modification.ModifyDatasAt | macros/src/compose_struct.rs:1738 | element `i` of the rewritten list is the rewrite of element `i` |
| Modification.Modify | macros/src/compose_struct.rs:1644-1649 | every root item is rewritten in place: same count, same sizes, at most one `derive` per struct, aliases unchanged |
| Modification.RemoveDuplicate | macros/src/compose_struct.rs:2204-2228 | `remove_duplicate`: the duplicate `derive` attributes merged, then the duplicate `allow` ones; `RemoveDuplicateNormalizes` proves at most one of each is left with the names kept |
| Modification.CopyPrefix | macros/src/compose_struct.rs:2176-2192 | the attributes `copy_attr_to_subtype` puts in front of a child's own; `InCopyPrefix`, `CopyPrefixKinds`, `CopyPrefixNames` and `CopyPrefixHasDerive` state them |
| ComposeParser.ParseIdentsLoop | macros/src/compose_struct.rs:1606-1632 | the loop over the tokens computes `ParseIdents` |
| ComposeParser.IdentsRunExtends | macros/src/compose_struct.rs:1619-1622 | names are only appended: a successful run keeps the names read so far as a prefix |
| ComposeParser.IdentsRunSpec | macros/src/compose_struct.rs:1616-1631 | the state machine succeeds with exactly `names` iff the tokens are those names separated by commas, with at most one trailing comma |
| ComposeParser.ParseIdentsSpec | macros/src/compose_struct.rs:1606-1632 | `Vec<Ident>::parse_from` returns `Some(names)` iff the input is a comma-separated list of exactly those idents |
| ComposeParser.CommaListSeparated | macros/src/compose_struct.rs:1616-1631 | rendering names with commas between them gives a comma-separated list |
| ComposeParser.ParseIdentsRoundTrip | macros/src/compose_struct.rs:1606-1632 | parsing rendered names gives them back, with or without a trailing comma |
| ComposeParser.TrailingComma | macros/src/compose_struct.rs:1623-1625 | a single trailing comma is accepted |
| ComposeParser.ParseAttr | macros/src/compose_struct.rs:1544-1554 | parsing an attribute fails iff the input is empty or does not start with an ident |
| ComposeParser.ParseAttrLoop | macros/src/compose_struct.rs:1540-1603 | the loop over the tokens computes `ParseAttr` |
| ComposeParser.ParseAttrForms | macros/src/compose_struct.rs:1555-1598 | `derive(…)` and `allow(…)` with an ident list, `cfg(…)`, `doc = "…"`, `default` and `pub_all` parse to their attributes |
| ComposeParser.AttrRunOne | macros/src/compose_struct.rs:1570-1598 | a one-token run is one step of the attribute state machine |
| ComposeParser.ParseAttrFallsBack | macros/src/compose_struct.rs:1595-1597 | a token after `default` or `pub_all`, or a `derive` group that is not an ident list, makes the attribute `Other` with the whole input |
| ComposeParser.AttrRunOther | macros/src/compose_struct.rs:1594 | an attribute of any other kind stays `Other` whatever follows |
| ComposeParser.ParseAttrOther | macros/src/compose_struct.rs:1555-1559 | an attribute that is not one of the known kinds parses to `Other` with the whole input |
| ComposeParser.DataStep | macros/src/compose_struct.rs:600-779 | one step of the data-header state machine never grows the body by more than the token read |
| ComposeParser.DataStepLeavesBeginning | macros/src/compose_struct.rs:600-779 | every accepted token moves the parser out of the `Beginning` phase |
| ComposeParser.DataStepKindKeepsBody | macros/src/compose_struct.rs:628-643 | the step that fixes the kind (`struct`, `enum`, `type`, `trait`) reads no body |
| ComposeParser.DataStepKeepsInv | macros/src/compose_struct.rs:600-779 | a step keeps the state invariant (a name is set in every phase after the name) |
| ComposeParser.DataRun | macros/src/compose_struct.rs:581-782 | the header loop consumes a prefix of the tokens, keeps the invariant and leaves the `Beginning` phase once it read a token |
| ComposeParser.ParseDataLoop | macros/src/compose_struct.rs:581-782 | corrected: the loop over the tokens computes `DataRun` |
| ComposeParser.ParseOptionData | macros/src/compose_struct.rs:557-813 | the rest is a suffix of the input, and a data item found consumes at least one token; what it builds is stated by `ComposeSyntax.DataRoundTrip` |
| ComposeParser.FieldStep | macros/src/compose_struct.rs:1336-1449 | one field-parser step only appends to the text read, keeps the field invariant and consumes the token |
| ComposeParser.HeadArm | macros/src/compose_struct.rs:1338-1379 | the attribute, visibility and name phases of a field keep the invariant |
| ComposeParser.TypeArm | macros/src/compose_struct.rs:1380-1406 | the type phase of a field keeps the invariant |
| ComposeParser.ValueArm | macros/src/compose_struct.rs:1407-1429 | the default-value and nested-type phases keep the invariant |
| ComposeParser.EnclosedArm | macros/src/compose_struct.rs:1430-1446 | the enclosed-type phases keep the invariant |
| ComposeParser.FieldRun | macros/src/compose_struct.rs:1330-1452 | the field loop consumes a prefix of the tokens and keeps the invariant |
| ComposeParser.ParseFieldLoop | macros/src/compose_struct.rs:1330-1452 | the loop over the tokens computes `FieldRun` |
| ComposeParser.FieldRunFacts | macros/src/compose_struct.rs:1456-1497 | after a field run, the default and the text read are no larger than the input, and the parser consumed something unless it stayed at `Beginning` |
| ComposeParser.UnnamedFieldParse | macros/src/compose_struct.rs:1059-1260 | an item found consumes part of the input; the field it builds is stated by `ComposeSyntax.UnnamedFieldRoundTrip` |
| ComposeParser.NamedFieldParse | macros/src/compose_struct.rs:1297-1499 | an item found consumes part of the input; the field it builds is stated by `ComposeSyntax.NamedFieldRoundTrip` |
| ComposeParser.UnnamedFieldsParse | macros/src/compose_struct.rs:1026-1057 | a parsed tuple struct body has at least one field; the fields it reads are stated by `ComposeSyntax.UnnamedFieldsRoundTrip` |
| ComposeParser.NamedFieldsParse | macros/src/compose_struct.rs:1263-1295 | a parsed struct body has at least one field; the fields it reads are stated by `ComposeSyntax.NamedFieldsRoundTrip` |
| ComposeParser.VariantStep | macros/src/compose_struct.rs:925-996 | one variant-parser step keeps the variant invariant and grows the text read by at most the token |
| ComposeParser.VariantRun | macros/src/compose_struct.rs:918-1000 | the variant loop consumes a prefix of the tokens and keeps the invariant |
| ComposeParser.ParseVariantLoop | macros/src/compose_struct.rs:918-1000 | the loop over the tokens computes `VariantRun` |
| ComposeParser.EnumVariantParse | macros/src/compose_struct.rs:887-1023 | a variant found consumes part of the input; the variant it builds is stated by `ComposeSyntax.VariantRoundTrip` |
| ComposeParser.NonDebug | macros/src/compose_struct.rs:509-517 | keeps exactly the items that are not the `debug` marker |
| ComposeParser.FilterDebug | macros/src/compose_struct.rs:509-523 | the root keeps exactly the non-`debug` items, `debug` is set iff a marker was present, and it is an error iff nothing else is left |
| ComposeParser.PrependedAppend | macros/src/compose_struct.rs:505-507 | pushing items one by one equals pushing them all at once |
| ComposeParser.RootItemsUnfold | macros/src/compose_struct.rs:505-507 | one iteration of the `while let`: an error stops, `None` ends, an item is pushed before the rest |
| ComposeParser.CollectItems | macros/src/compose_struct.rs:505-507 | the `while let` loop collects exactly `RootItems` |
| ComposeParser.FilterDebugLoop | macros/src/compose_struct.rs:509-523 | the filtering loop computes `FilterDebug` |
| ComposeParser.ParseRootLoop | macros/src/compose_struct.rs:497-526 | corrected: `Root::parse_from` computes `ParseRoot` |
| ComposeParser.ParseOptionDataNone | macros/src/compose_struct.rs:781-785 | the data parser returns `None` iff the input is empty |
| ComposeParser.ParseRootNonEmpty | macros/src/compose_struct.rs:520-522 | an empty input is rejected |
| ComposeParser.UnitStructParses | macros/src/compose_struct.rs:628-717 | `struct S;` parses to a unit struct and the rest of the input is left |
| ComposeParser.StructKeywordStep | macros/src/compose_struct.rs:628-631 | `struct` at the start sets the kind and moves to the name |
| ComposeParser.NameStep | macros/src/compose_struct.rs:644-647 | an ident after the keyword is the name |
| ComposeParser.WhereKeywordStep | macros/src/compose_struct.rs:671-679 | `where` after a struct's name starts the where clause |
| ComposeParser.WhereItemStep | macros/src/compose_struct.rs:771-774 | other tokens are appended to the where clause |
| ComposeParser.WhereBodyStep | macros/src/compose_struct.rs:728-737 | a brace group after a where clause makes a named struct and stops; as written the group is not stored as the body |
| ComposeParser.WhereStructRun | macros/src/compose_struct.rs:628-737 | the header run over `struct S where T { x: T }` ends with the body empty as written and the fields kept when corrected |
| ComposeParser.WhereClauseRun | macros/src/compose_struct.rs:671-737 | the run from the name over `where T { … }` |
| ComposeParser.DataRunNext | macros/src/compose_struct.rs:581-779 | a `Next` step continues the run on the rest |
| ComposeParser.DataRunStop | macros/src/compose_struct.rs:581-779 | a `Stop` step ends the run with the rest unread |
| ComposeParser.EmptyNamedItems | macros/src/compose_struct.rs:1268-1279 | an empty body has no fields |
| ComposeParser.EmptyNamedFieldsRejected | macros/src/compose_struct.rs:1281-1286 | a named struct with no fields is rejected |
| ComposeParser.WhereStructRejectedAsWritten | macros/src/compose_struct.rs:728-737 | as written, `struct S where T { x: T }` is rejected with the zero-fields error |
| ComposeParser.ParseOptionDataBuilt | macros/src/compose_struct.rs:781-812 | a run that ends a named struct or enum at its body gives the built struct or enum, or the build's error |
| ComposeParser.FieldNameStep | macros/src/compose_struct.rs:1370-1373 | an ident at the start of a field is its name |
| ComposeParser.FieldColonStep | macros/src/compose_struct.rs:1374-1376 | `:` after the name starts the type |
| ComposeParser.FieldTypeStep | macros/src/compose_struct.rs:1403-1406 | tokens after `:` are appended to the type |
| ComposeParser.OneNamedFieldRun | macros/src/compose_struct.rs:1336-1406 | the field loop over `x: T` reads name `x` and type `T` |
| ComposeParser.FieldTypeRun | macros/src/compose_struct.rs:1374-1406 | the run from the name over `: T` |
| ComposeParser.ColonTypeRun | macros/src/compose_struct.rs:1374-1406 | from any state at the name, `: t` makes `t` the type |
| ComposeParser.FieldRunNext | macros/src/compose_struct.rs:1330-1450 | a `Next` step continues the field run on the rest |
| ComposeParser.OneNamedFieldParse | macros/src/compose_struct.rs:1456-1474 | `x: T` parses to one named field of type `T` with no default |
| ComposeParser.OneNamedField | macros/src/compose_struct.rs:1263-1295 | a body `x: T` parses to exactly that field |
| ComposeParser.WhereStructParsed | macros/src/compose_struct.rs:728-737 | corrected: `struct S where T { x: T }` parses to a named struct with field `x: T` and where clause `T` |
| ComposeParser.WhereStructBuild | macros/src/compose_struct.rs:816-847 | a completed header with a `where` clause and a body builds the struct |
| ComposeParser.ParseRoot | macros/src/compose_struct.rs:497-526 | corrected: `Root::parse_from` over the corrected data parser (the body after a `where` clause kept): every data type up to the first `None`, then the `debug` markers removed and an error for none left; `ComposeSyntax.ParseRootRoundTrip` states what it reads back |
| ComposeParser.RootItems | macros/src/compose_struct.rs:505-507 | corrected: the `while let` loop over the corrected `Option<Data>::parse_from` (the body after a `where` clause kept), stopping at the first `None`; `RootItemsUnfold` and `ComposeSyntax.RootItemsRoundTrip` state it |
| ComposeParser.ParseData | macros/src/compose_struct.rs:529-555 | corrected: `Data::parse_from` over the corrected data parser (the body after a `where` clause kept): one item and nothing after it, `no data` or `multiple data` otherwise; `ComposeSyntax.ParseDataRoundTrip` states what it reads back |
| ComposeParser.ParseIdents | macros/src/compose_struct.rs:1606-1632 | the comma-separated identifier list; `ParseIdentsSpec` and `ParseIdentsRoundTrip` state it |
| ComposeParser.Build | macros/src/compose_struct.rs:781-812 | the item a complete parse result becomes, by kind: struct bodies through the field parsers, an enum through its variants (an error for none), aliases as they are; `ParseOptionDataBuilt` and `ComposeSyntax.StructBuild`/`EnumBuild` state it |
| ComposeSyntax.NamedFieldRoundTrip | macros/src/compose_struct.rs:1297-1499 | a named field without attributes (`pub`-or-private `name: T` or `name: T = expr`) is parsed back from its tokens, and the tokens after it are returned untouched |
| ComposeSyntax.UnnamedFieldRoundTrip | macros/src/compose_struct.rs:1059-1260 | an unnamed field without attributes (`T` or `T = expr`, optionally `pub`) is parsed back from its tokens, the rest untouched |
| ComposeSyntax.NamedItemsRoundTrip | macros/src/compose_struct.rs:1268-1279 | the comma-separated items of a brace group of such named fields are read back in order, with nothing enclosed and no inner attributes |
| ComposeSyntax.NamedFieldsRoundTrip | macros/src/compose_struct.rs:1263-1295 | `NamedFields::parse_from` of the rendered non-empty field list gives back exactly those fields |
| ComposeSyntax.UnnamedItemsRoundTrip | macros/src/compose_struct.rs:1034-1042 | the comma-separated items of a parenthesised list of such unnamed fields are read back in order |
| ComposeSyntax.UnnamedFieldsRoundTrip | macros/src/compose_struct.rs:1026-1057 | `UnnamedFields::parse_from` of the rendered non-empty field list gives back exactly those fields |
| ComposeSyntax.VariantRoundTrip | macros/src/compose_struct.rs:887-1023 | a variant without attributes (unit, tuple or braced fields, optionally `= default`) is parsed back from its tokens, the rest untouched |
| ComposeSyntax.VariantItemsRoundTrip | macros/src/compose_struct.rs:850-886 | the comma-separated variants inside an enum's braces are read back in order |
| ComposeSyntax.StructRoundTrip | macros/src/compose_struct.rs:816-849 | a unit, tuple or braced struct without attributes, generics or `where` clause is read back by `Option<Data>::parse_from`, the tokens after it untouched |
| ComposeSyntax.EnumRoundTrip | macros/src/compose_struct.rs:850-886 | an enum without attributes, generics or `where` clause and with at least one variant is read back by `Option<Data>::parse_from`, the rest untouched |
| ComposeSyntax.DataRoundTrip | macros/src/compose_struct.rs:557-813 | `Option<Data>::parse_from` reads any such struct or enum back from the front of a stream and returns the remaining tokens unchanged |
| ComposeSyntax.ParseDataRoundTrip | macros/src/compose_struct.rs:529-555 | `Data::parse_from` of such a rendered data type gives it back |
| ComposeSyntax.RootItemsRoundTrip | macros/src/compose_struct.rs:505-507 | the `while let` loop of `Root::parse_from` reads back every data type of a rendered list, in order |
| ComposeSyntax.NonDebugKeeps | macros/src/compose_struct.rs:509-517 | filtering out `debug` markers keeps a list without markers unchanged |
| ComposeSyntax.FilterDebugKeeps | macros/src/compose_struct.rs:509-523 | a non-empty list of such data types without markers passes the root's checks with `debug` false |
| ComposeSyntax.ParseRootRoundTrip | macros/src/compose_struct.rs:497-526 | `Root::parse_from` of a rendered non-empty list of such data types gives that list back, with `debug` false |
| ForEachUtils.TryMapCollect | macros/src/for_each.rs:405-415 | `Some` iff `f` gives `Some` on every element, and then the values are the mapped elements in order |
| ForEachUtils.TryMapCollectLoop | macros/src/for_each.rs:405-415 | the loop that stops at the first `None` computes `TryMapCollect` |
| ForEachUtils.CommaJoinLoop | macros/src/for_each.rs:430-438 | the loop computes the items joined by commas, with nothing for no items |
| ForEachUtils.NestedTupleLoop | macros/src/for_each.rs:439-447 | the loop computes the left-nested pairs `((a, b), c)` |
| ForEachUtils.TupleLoop | macros/src/for_each.rs:448-461 | the loop computes `(a, b, …,)` with a comma after every item, and with each item prefixed by `mut` for `tuple_mut` |
| ForEachUtils.SplitTsLoop | macros/src/for_each.rs:797-817 | the loop computes `SplitTs` |
| ForEachUtils.SplitFromCommaFree | macros/src/for_each.rs:801-815 | no segment produced by the split contains a comma |
| ForEachUtils.SplitFromEmpty | macros/src/for_each.rs:812-814 | the split is empty iff nothing was read and nothing is left |
| ForEachUtils.SplitFromRun | macros/src/for_each.rs:801-810 | comma-free tokens are collected into the current segment |
| ForEachUtils.CommaJoinFront | macros/src/for_each.rs:430-438 | joining two or more items is the first item, a comma, and the rest joined |
| ForEachUtils.SplitCommaJoin | macros/src/for_each.rs:797-817 | splitting comma-free items joined by commas gives the items back when the last one is not empty |
| ForEachUtils.CommaJoinSplitFrom | macros/src/for_each.rs:797-817 | joining the segments with commas and adding back a trailing comma gives the original tokens |
| ForEachUtils.CommaJoinSplit | macros/src/for_each.rs:797-817 | `split_ts` loses only a trailing comma: empty segments between commas are kept |
| ForEachUtils.TupleBodySplit | macros/src/for_each.rs:448-454 | splitting the inside of `tuple` gives the items back, since the trailing empty segment is dropped |
| ForEachUtils.TupleBodyShape | macros/src/for_each.rs:448-454 | the inside of `tuple` ends with a comma, or is empty for no items |
| ForEachUtils.SplitAppendSegment | macros/src/for_each.rs:797-817 | appending a comma-free segment and a comma adds exactly that segment to the split |
| ForEachUtils.SplitAfterCommaFrom | macros/src/for_each.rs:797-817 | the same from any state of the split loop |
| ForEachUtils.NestedTupleCommaFree | macros/src/for_each.rs:439-447 | the nested tuple of comma-free items has no top-level comma |
| ForEachUtils.UnnestNestedTuple | macros/src/for_each.rs:439-447 | unnesting the nested pairs once per item gives the items back |
| ForEachUtils.CheckMutFlag | macros/src/for_each.rs:852-866 | the flag is set iff the first token is the ident `mut`, and then the rest follows it; otherwise the tokens are returned unchanged, including for empty input |
| ForEachUtils.FirstEqual | macros/src/for_each.rs:766-774 | the position of the first `=` punct, or `None` when there is none |
| ForEachUtils.IdentNames | macros/src/for_each.rs:778-788 | the string of each ident, in order |
| ForEachUtils.FnParseRoundTrip | macros/src/for_each.rs:765-793 | `vars = n1 n2 …` parses back to those vars and the names joined by spaces |
| ForEachUtils.FnParseNamesRoundTrip | macros/src/for_each.rs:765-793 | without `=` the vars are empty and the name is the idents joined by spaces |
| ForEachUtils.FirstEqualAfter | macros/src/for_each.rs:766-774 | the first `=` after `=`-free vars is at their length |
| ForEachInput.OpNameRoundTrip | macros/src/for_each.rs:902-913 | each operator's canonical name maps back to that operator |
| ForEachInput.OpsAndType | macros/src/for_each.rs:893-900 | the operator tokens are the prefix before the first group, and the type is that group's contents, if there is one |
| ForEachInput.ReductionOpLoop | macros/src/for_each.rs:890-914 | the loop over the tokens computes `ReductionOp` |
| ForEachInput.OpsPrefix | macros/src/for_each.rs:893-900 | the loop stops at the first group |
| ForEachInput.OpsAll | macros/src/for_each.rs:893-900 | without a group every token is an operator token and there is no type |
| ForEachInput.ReductionOpNamed | macros/src/for_each.rs:902-913 | every alias maps to its operator: `+`/`add`/`sum` to Add, `&&`/`and`/`all` to And, `min`/`minimum` to Min and so on, with an optional type in parentheses; And and Or take no type |
| ForEachInput.SplitAtColon | macros/src/for_each.rs:879-883 | the tokens before the first `:` and the tokens after it |
| ForEachInput.ParseReductionArgs | macros/src/for_each.rs:875-888 | an input of fewer than 3 tokens is rejected |
| ForEachInput.ParseReductionArgsLoop | macros/src/for_each.rs:875-888 | the loop over the tokens computes `ParseReductionArgs` |
| ForEachInput.SplitAtColonAt | macros/src/for_each.rs:879-883 | the split is at the first `:` |
| ForEachInput.MatchArgResult | macros/src/for_each.rs:544-752 | a matched option keeps the body and appends at most one argument |
| ForEachInput.ReduceFoldConflict | macros/src/for_each.rs:677-690 | mixing a `reduce*` with a `fold*` option fails whatever the arguments; repeating the same mode with valid arguments succeeds |
| ForEachInput.ReduceAfterFold | macros/src/for_each.rs:685-688 | `reduce` after `fold` fails with the mode-conflict panic |
| ForEachInput.ParseInput | macros/src/for_each.rs:475-542 | a successful `Input::new` has at least one argument and a body |
| ForEachInput.ParseLoopKeepsArgs | macros/src/for_each.rs:493-538 | arguments are only appended: those already read stay in place |
| ForEachInput.SemicolonBody | macros/src/for_each.rs:525-529 | everything after the first top-level `;` is the body |
| ForEachInput.Input.constructor | macros/src/for_each.rs:476-488 | a fresh input starts with no arguments, no mode, the default `not(disable_parallel_execution)` cfg condition, no debug and no body |
| ForEachInput.Input.MatchArg | macros/src/for_each.rs:544-752 | the fields are updated as `MatchArgResult` says, or the same error is raised |
| ForEachInput.Input.Parse | macros/src/for_each.rs:493-542 | succeeds iff the option loop succeeds with at least one argument and a body, and then the fields hold its result |
| ForEachInput.Input.ReadOptions | macros/src/for_each.rs:494-538 | the token loop leaves the fields as `ParseLoop` computes: a parenthesised group is an option, a brace group or `;` sets the body, other groups fail, and tokens after a body fail |
| ForEachInput.NewInput | macros/src/for_each.rs:475-490 | `Input::new` succeeds iff `ParseInput` does, and the new input holds its result |
| ForEachInput.IndexIntExample | macros/src/for_each.rs:560-578 | `i = index(n); body` reads one `IndexInt` argument and the body |
| ForEachInput.ParseLoop | macros/src/for_each.rs:497-538 | the option loop of `Input::parse`: a parenthesised group ends an option, a brace group or `;` gives the body, and an option after the body panics; `ParseLoopKeepsArgs`, `SemicolonBody` and `Input.ReadOptions` state it |
| ForEachInput.ReductionOp | macros/src/for_each.rs:890-914 | `reduction_op`: an operator name optionally followed by `(Type)`; `ReductionOpNamed` and `OpNameRoundTrip` state it |
| ForEachInput.OpFromName | macros/src/for_each.rs:902-913 | the table of operator names `reduction_op` accepts; `OpNameRoundTrip` proves every operator is read back from its name |
| ForEachInput.IndexRangeArg | macros/src/for_each.rs:547-559 | `$var = index($range)`: a variable before `=` and a range expression as the argument, `None` otherwise; `match_arg` tries it first |
| ForEachInput.IndexIntArg | macros/src/for_each.rs:562-578 | `index($var)` (the argument is both the variable and the size) and `$var = index($size)`; `IndexIntExample` shows the second form |
| ForEachInput.IndexMultipleArg | macros/src/for_each.rs:581-617 | `(i, j) = index(n, m)` and `i, j = index(n, m)`: one variable per size, either listed or as one parenthesised tuple, `None` for any other count |
| ForEachInput.EachArg | macros/src/for_each.rs:621-665 | `each`, `mut each`, `each_nd` and `mut each_nd`, with `mut` allowed before the array instead but not in both places; a `&v` or `&mut v` pattern must match the mutability |
| ForEachInput.ReductionArg | macros/src/for_each.rs:667-707 | `reduce`/`fold` and their `_assign` forms; mixing `reduce` and `fold` is rejected, as `ReduceFoldConflict` and `ReduceAfterFold` state |
| ForEachReduction.CallValueRead | macros/src/for_each.rs:1195-1212 | the emitted `zero()`, `one()`, `minimum_value()`, `maximum_value()` calls, with or without a type, read back as that value |
| ForEachReduction.NegatedCallValueRead | macros/src/for_each.rs:1205-1206 | `!zero()` reads back as the all-ones word |
| ForEachReduction.IdentityRead | macros/src/for_each.rs:1195-1212 | the emitted identity of every operator evaluates to that operator's neutral element: 0, 1, the least or greatest `i64`, `true`, `false`, or the all-ones/all-zeros word |
| ForEachReduction.CombinerRead | macros/src/for_each.rs:1215-1228 | the emitted combining expression of every operator reads back as its binary operation; subtraction combines partial results with `+` |
| ForEachReduction.CompoundRead | macros/src/for_each.rs:1231-1244 | a compound assignment is the outer expression followed by `c= i;` |
| ForEachReduction.MethodRead | macros/src/for_each.rs:1231-1244 | a method assignment is the outer expression followed by `.name(i);` |
| ForEachReduction.AssignmentRead | macros/src/for_each.rs:1231-1244 | the emitted statement that folds the partial result into the outer variable reads back as the operator's step (`-=` for subtraction, `max_assign` for max and so on) |
| ForEachReduction.CompoundAssignmentRead | macros/src/for_each.rs:1233-1235 | the same for the compound-assignment operators |
| ForEachReduction.MethodAssignmentRead | macros/src/for_each.rs:1236-1239 | the same for the method-call operators |
| ForEachReduction.FoldIn | macros/src/for_each.rs:1195-1228 | folding values of a domain with a closed operation stays in the domain |
| ForEachReduction.FoldThenAssign | macros/src/for_each.rs:1195-1244 | reducing from the identity and then assigning into the outer variable equals applying the step to the outer variable value by value, when the three operations are lawful |
| ForEachReduction.FoldSplit | macros/src/for_each.rs:1215-1228 | with an associative combiner and a neutral identity, reducing two runs separately and combining gives the reduction of the whole |
| ForEachReduction.LawfulSum | macros/src/for_each.rs:1197 | addition with identity 0 satisfies those laws |
| ForEachReduction.LawfulDifference | macros/src/for_each.rs:1197-1198 | adding partial results and then subtracting the total from the outer variable equals subtracting each value |
| ForEachReduction.LawfulProduct | macros/src/for_each.rs:1199-1200 | multiplication with identity 1 |
| ForEachReduction.LawfulMax | macros/src/for_each.rs:1201-1202 | `max` with the least `i64` as identity on bounded integers |
| ForEachReduction.LawfulMin | macros/src/for_each.rs:1203-1204 | `min` with the greatest `i64` as identity |
| ForEachReduction.LawfulAnd | macros/src/for_each.rs:1209 | `&&` with identity `true` |
| ForEachReduction.LawfulOr | macros/src/for_each.rs:1210 | logical or with identity `false` is a lawful reduction |
| ForEachReduction.PointwiseAssociative | macros/src/for_each.rs:1224-1226 | bitwise operations on words are associative |
| ForEachReduction.LawfulBitwise | macros/src/for_each.rs:1205-1208 | bitwise and with all ones, and bitwise or and xor with all zeros, satisfy the laws |
| ForEachReduction.LawfulTables | macros/src/for_each.rs:1195-1244 | the three tables agree for every operator |
| ForEachReduction.ReductionMeaning | macros/src/for_each.rs:1195-1244 | for every operator, the emitted identity, combiner and outer assignment together update the outer variable exactly as applying the operator value by value |
| ForEachReduction.ReductionSplit | macros/src/for_each.rs:1195-1228 | for every operator, any split of the values reduced separately and combined with the emitted operation gives the same result, so parallel chunking does not change it |
| ForEachReduction.ReductionIdentity | macros/src/for_each.rs:1195-1212 | `reduction_identity`: the emitted starting value per operator (`zero()`, `one()`, `minimum_value()`, `maximum_value()`, `!zero()`, `true`, `false`); `IdentityRead` proves each evaluates to its operator's neutral element |
| ForEachReduction.ReductionOperation | macros/src/for_each.rs:1215-1228 | `reduction_operation`: the emitted combination of two partial results, subtraction combining by addition; `CombinerRead` and `ReductionSplit` prove it combines lawfully |
| ForEachConvert.CondBoolConcatLoop | macros/src/for_each.rs:999-1016 | the loop builds the same tokens as the definition: `false` for no conditions, the condition itself for one, `(a) && (b) && …` otherwise |
| ForEachConvert.ConjunctsOfConjunction | macros/src/for_each.rs:1005-1013 | splitting the emitted `(a) && (b) && …` at its top-level `&&` recovers exactly the conditions, in order |
| ForEachConvert.CondBoolConcatMeaning | macros/src/for_each.rs:999-1016 | no conditions give `false`, one gives itself, and two or more give a conjunction whose conjuncts are exactly those conditions |
| ForEachConvert.CondCfgConcatLoop | macros/src/for_each.rs:1018-1029 | the loop builds the same tokens as the definition |
| ForEachConvert.CondCfgConcatMeaning | macros/src/for_each.rs:1018-1029 | no predicates give nothing, one gives itself, and two or more give `all( … )` whose comma-separated items are exactly those predicates |
| ForEachConvert.ProductLoop | macros/src/for_each.rs:1168-1176 | the loop builds the same `(a) * (b) * …` as the definition |
| ForEachConvert.ProductEval | macros/src/for_each.rs:1168-1176 | evaluating the emitted product, each factor by its value, gives the product of the values |
| ForEachConvert.ProductOfPositive | macros/src/for_each.rs:1080-1081 | a product of positive sizes is positive |
| ForEachConvert.DecomposeComponent | macros/src/for_each.rs:1180-1185 | component i of the decomposition is `ip / Π size[i+1..] % size[i]` |
| ForEachConvert.DecomposeInBounds | macros/src/for_each.rs:1178-1193 | every component of the decomposition is below its size |
| ForEachConvert.FlattenDecompose | macros/src/for_each.rs:1178-1193 | for `ip` below the product of the sizes, row-major flattening of the decomposition gives `ip` back |
| ForEachConvert.FlattenBound | macros/src/for_each.rs:1072 | a row-major flattening of an in-bounds index tuple is below the product of the sizes |
| ForEachConvert.DecomposeFlatten | macros/src/for_each.rs:1178-1193 | decomposing the flattening of an in-bounds index tuple gives that tuple back |
| ForEachConvert.DecomposeThenFlatten | macros/src/for_each.rs:1178-1193 | every flat index below the product decomposes into an in-bounds tuple that flattens back to it |
| ForEachConvert.FlattenThenDecompose | macros/src/for_each.rs:1178-1193 | every in-bounds tuple flattens below the product and decomposes back to itself |
| ForEachConvert.IndexBijection | macros/src/for_each.rs:1072-1089 | decomposition and row-major flattening are inverse bijections between the flat indices below the product and the in-bounds index tuples |
| ForEachConvert.Component | macros/src/for_each.rs:1180-1185 | each emitted component is non-empty and has no top-level comma |
| ForEachConvert.IndexDecompositionLoop | macros/src/for_each.rs:1178-1193 | the loop builds the same `( c0, c1, … )` as the definition |
| ForEachConvert.ComponentEval | macros/src/for_each.rs:1180-1185 | evaluating emitted component i with the sizes' values gives component i of the arithmetic decomposition |
| ForEachConvert.DecompositionEval | macros/src/for_each.rs:1178-1193 | evaluating the whole emitted tuple gives the arithmetic decomposition of `ip` |
| ForEachConvert.CondBoolConcat | macros/src/for_each.rs:999-1016 | the reference definition of `cond_bool_concat`; `CondBoolConcatMeaning` states what it builds and `CondBoolConcatLoop` ties the loop to it |
| ForEachConvert.CondCfgConcat | macros/src/for_each.rs:1018-1029 | the reference definition of `cond_cfg_concat`; `CondCfgConcatMeaning` and `CondCfgConcatLoop` state it |
| ForEachConvert.Product | macros/src/for_each.rs:1168-1176 | `product`: the size expressions multiplied, each in parentheses; `ProductEval` proves it evaluates to the product of the sizes and `ProductLoop` ties the loop to it |
| ForEachConvert.IndexDecomposition | macros/src/for_each.rs:1178-1193 | `index_decomposition`: the tuple of component expressions `ip / Π size[i+1..] % size[i]`; `IndexDecompositionLoop` and `DecomposeComponent` state it |
| ForEachConvert.Decompose | macros/src/for_each.rs:1178-1193 | the value the decomposition computes for a flat index; `FlattenDecompose`, `DecomposeFlatten` and `DecomposeInBounds` prove it inverts row-major flattening |
| ForEachConvert.Flatten | macros/src/for_each.rs:1072 | row-major flattening of a multi-index, the independent partner of `Decompose`; `FlattenBound` bounds it |
| ForEachElement.IteratorsOfOptions | macros/src/for_each.rs:1069-1151 | after `make_element` runs over all options, the iterators and closure arguments are those of the non-reduction options, in order, and the parallel import is requested exactly when one of them runs in parallel mode |
| ForEachElement.ReductionsOfOptions | macros/src/for_each.rs:1136-1158 | each reduction option contributes, at the same position of every reduction list, an identity that reads as its operator's neutral element, a combiner over its own `a1_`/`a2_` pair, and its inner and `tmp_` names |
| ForEachElement.EachPatternKept | macros/src/for_each.rs:1127-1131 | the closure argument emitted for an `each` option reads back as the pattern the user wrote, including `&mut v` |
| ForEachElement.EachPatternLostAsWritten | macros/src/for_each.rs:1132 | the source's `&mut $var` emits the literal `$var`, which no longer reads back as `&mut v` |
| ForEachElement.IteratingNonEmpty | macros/src/for_each.rs:1160-1162 | some option is non-reduction exactly when the iterating options are non-empty |
| ForEachElement.ConvertOk | macros/src/for_each.rs:1041-1067 | construction with the check made once at the end succeeds exactly when some option iterates, and then yields the pieces of all options |
| ForEachElement.AddElementCount | macros/src/for_each.rs:1069-1158 | one option adds one iterator unless it is a reduction |
| ForEachElement.ConvertAsWrittenFrom | macros/src/for_each.rs:1160-1162 | once an iterator exists, the per-option check never fails again |
| ForEachElement.ConvertAsWrittenOk | macros/src/for_each.rs:1063-1162 | as written, construction succeeds exactly when the first option is not a reduction |
| ForEachElement.ReductionFirstRejected | macros/src/for_each.rs:1160-1162 | `reduce(+: s)` listed before `index(i, 10)` is rejected as written but accepted with the check made at the end |
| ForEachElement.Converted.constructor | macros/src/for_each.rs:1041-1061 | a new value has empty pieces and the given execution mode |
| ForEachElement.Converted.MakeElement | macros/src/for_each.rs:1069-1158 | corrected: the pieces after one option are the old pieces updated as that option specifies |
| ForEachElement.Converted.MakeElements | macros/src/for_each.rs:1063-1065 | corrected: the pieces after the loop are the old pieces updated option by option |
| ForEachElement.NewConverted | macros/src/for_each.rs:1041-1067 | corrected: a fresh value holding the pieces of all options, with success exactly when some option iterates |
| ForEachElement.AddElement | macros/src/for_each.rs:1069-1158 | corrected: the pieces one option adds in `make_element`: iterators for `index` and `each` forms, with the `&mut` closure pattern naming the variable (`LambdaArg`, not `LambdaArgAsWritten`), a reduction for `reduce`/`fold`; `AddElementCount`, `IteratorsOfOptions` and `ReductionsOfOptions` state them |
| ForEachElement.Convert | macros/src/for_each.rs:1041-1067 | `Converted::new` with the existence check made once after all options; `ConvertOk` states when it succeeds and `ConvertAsWrittenOk` ties it to the source's order |
| ForEachElement.ConvertAsWritten | macros/src/for_each.rs:1063-1162 | `Converted::new` as written: the check that some iterator exists runs after every option; `ReductionFirstRejected` and `ConvertAsWrittenOk` state its behaviour |
| ForEachElement.LambdaArg | macros/src/for_each.rs:1127-1131 | the closure pattern of an `each` option: the variable, with `&` or `&mut` when the user wrote one; `EachPatternKept` states it |
| ForEachElement.LambdaArgAsWritten | macros/src/for_each.rs:1127-1132 | the closure pattern as the source quotes it, where the `&mut` case writes the literal `$var`; `EachPatternLostAsWritten` exhibits it |
| SmartForEach.VarFromStr | macros/src/smart_for_each.rs:112-117 | a recognised name is the name of the variable returned |
| SmartForEach.VarNames | macros/src/smart_for_each.rs:112-117 | every variable is recognised by its own name, and exactly the six declared names are recognised |
| SmartForEach.IndexIdentInjective | macros/src/smart_for_each.rs:118-125 | distinct variables get distinct index identifiers |
| SmartForEach.SubstepFromStr | macros/src/smart_for_each.rs:142-147 | a recognised name is the name of the substep returned |
| SmartForEach.SubstepNames | macros/src/smart_for_each.rs:142-147 | every substep is recognised by its own name, and exactly `φ`, `c`, `T` and `None` are recognised |
| SmartForEach.ParseArmLoop | macros/src/smart_for_each.rs:401-441 | the state-machine loop returns what the recursive definition of arm parsing returns |
| SmartForEach.VarsRead | macros/src/smart_for_each.rs:418-425 | after `->`, a run of variable names is appended to the pending arm's variables |
| SmartForEach.ArmRead | macros/src/smart_for_each.rs:405-425 | a rendered `Substep -> v …` leaves the parser with that arm pending |
| SmartForEach.RenderedArmsRead | macros/src/smart_for_each.rs:401-433 | rendered comma-terminated arms are read back as those arms, in order |
| SmartForEach.ParseArmRoundTrip | macros/src/smart_for_each.rs:401-441 | parsing rendered arms gives them back, with or without a final arm lacking its comma |
| SmartForEach.ParseArmRejects | macros/src/smart_for_each.rs:405-432 | an unknown substep name, an unknown variable name or an out-of-place comma fails the whole parse |
| SmartForEach.PendingSubstep | macros/src/smart_for_each.rs:434-440 | a substep pending at the end of input becomes a final arm with the variables collected so far |
| SmartForEach.SmartMatchArg | macros/src/smart_for_each.rs:256-362 | matching an option never touches the body |
| SmartForEach.IndexVariableCount | macros/src/smart_for_each.rs:297-314 | `index` accepts two or three variables, and has a `t` exactly when it has three |
| SmartForEach.DoubleMutRejected | macros/src/smart_for_each.rs:276-278 | `mut` in both the option name and its argument is a parse failure |
| SmartForEach.ArmsReplace | macros/src/smart_for_each.rs:325-361 | a parsable `arms(…)` replaces the arms entirely, and an unparsable one is a parse failure |
| SmartForEach.SmartParseInput | macros/src/smart_for_each.rs:205-253 | a successful parse has at least one option and a body |
| SmartForEach.ArmsFromOption | macros/src/smart_for_each.rs:180-197 | after parsing, the arms are either the initial ones or what `ParseArm` reads from the contents of some group of the input; that this group is an `arms(…)` option is stated per option by `ArmsReplace` |
| SmartForEach.Input.constructor | macros/src/smart_for_each.rs:176-199 | a new input holds the four default arms, no options, no body and debugging off |
| SmartForEach.Input.MatchArg | macros/src/smart_for_each.rs:256-362 | the state after one option is that of the option-matching definition, and the error is the same |
| SmartForEach.Input.Parse | macros/src/smart_for_each.rs:205-253 | the parsing loop succeeds exactly when the definition does with some option and a body, and then leaves the state it gives |
| SmartForEach.NewSmartInput | macros/src/smart_for_each.rs:176-201 | construction succeeds exactly when the whole-input definition does, and then holds its result |
| SmartForEach.WithMut | macros/src/smart_for_each.rs:638-644 | every item is prefixed with `mut` |
| SmartForEach.TupleBodyMut | macros/src/smart_for_each.rs:631-644 | the `mut` slice body is the plain slice body of the `mut`-prefixed items |
| SmartForEach.SliceItems | macros/src/smart_for_each.rs:631-644 | splitting the rendered `[a, b, …,]` at commas recovers the items, and each `slice_mut` item reads as `mut` followed by the item |
| SmartForEach.ConvertArgs | macros/src/smart_for_each.rs:533-605 | one body fragment per variable of the arm |
| SmartForEach.FracsPerVariable | macros/src/smart_for_each.rs:548-603 | the fragment for a variable holds, option by option, the `let t = i…;` and `let v = v_x;` bindings for that variable |
| SmartForEach.ConvertArmMeaning | macros/src/smart_for_each.rs:527-622 | an arm without variables becomes `panic!()`; otherwise the output is the split definitions followed by one `par_for_each!` whose closures hold each variable's bindings before the body |
| SmartForEach.ParseArm | macros/src/smart_for_each.rs:401-441 | the recursive definition of `parse_arm`; `ParseArmRoundTrip`, `ParseArmRejects` and `ParseArmLoop` state it |
| SmartForEach.ConvertArm | macros/src/smart_for_each.rs:527-622 | `convert` for one arm; `ConvertArmMeaning` states what it emits |
| SmartForEach.NdArg | macros/src/smart_for_each.rs:256-294 | `each_nd`, `mut each_nd` and `whole_nd`, optionally with a variable before `=` and `mut` before the array; `mut` in both places gives `None` |
| SmartForEach.IndexArg | macros/src/smart_for_each.rs:296-321 | `t, i, j = index(size)` and `i, j = index(size)`: three or two identifiers and a size expression, `None` for any other count |
| SmartForEach.SmartParseLoop | macros/src/smart_for_each.rs:209-250 | the option loop of `Input::parse`: a parenthesised group ends an option, a brace group or `;` gives the body, and an option after the body is an error |
| SmartForEach.Slice | macros/src/smart_for_each.rs:631-636 | `slice`: `[a, b, …,]` with a comma after every item; `SliceItems` proves the items are recovered |
| SmartForEach.SliceMut | macros/src/smart_for_each.rs:638-644 | `slice_mut`: `[mut a, mut b, …,]`; `SliceItems` proves each item reads back as `mut` followed by it |
| Numerics.Min | src/numerics/basic_operations.rs:33-35 | `min` as `min_assign` uses it yields one of its two arguments, and it is no greater than either (the copy at src/numerics.rs:138-140 is the same) |
| Numerics.Max | src/numerics/basic_operations.rs:36-38 | `max` as `max_assign` uses it yields one of its two arguments, and it is no smaller than either (the copy at src/numerics.rs:141-143 is the same) |
| Numerics.BoolPlace.AndAssign | src/numerics/basic_operations.rs:15-17 | the place then holds its old value and `rhs` (the copy at src/numerics.rs:120-122 is the same) |
| Numerics.BoolPlace.OrAssign | src/numerics/basic_operations.rs:18-20 | the place then holds its old value or `rhs` (the copy at src/numerics.rs:123-125 is the same) |
| Numerics.OrdPlace.MinAssign | src/numerics/basic_operations.rs:33-35 | the place then holds the smaller of its old value and `rhs`: no greater than either and equal to one of them (the copy at src/numerics.rs:138-140 is the same) |
| Numerics.OrdPlace.MaxAssign | src/numerics/basic_operations.rs:36-38 | the place then holds the larger of the two (the copy at src/numerics.rs:141-143 is the same) |
| Numerics.ReduceMinimum | src/numerics/basic_operations.rs:79-83 | fails exactly on empty input, and otherwise returns an element no greater than any element |
| Numerics.ReduceMaximum | src/numerics/basic_operations.rs:84-88 | fails exactly on empty input, and otherwise returns an element no smaller than any element |
| Numerics.SliceMinimum | src/numerics.rs:180-187 | the recursive slice minimum fails exactly on an empty slice |
| Numerics.SliceMaximum | src/numerics.rs:188-195 | the recursive slice maximum fails exactly on an empty slice |
| Numerics.SliceMinMaxBounds | src/numerics.rs:179-224 | on a non-empty slice, array or `Vec` the recursive minimum is an element no greater than any element, and the maximum one no smaller than any |
| Numerics.SliceIsReduce | src/numerics.rs:179-224 | the recursive slice minimum and maximum agree with the iterator reductions on every input, empty included |
| Numerics.LeastUnique | src/numerics/basic_operations.rs:79-88 | a least element of a sequence is unique, so any two correct minimums agree |
| Numerics.GreatestUnique | src/numerics/basic_operations.rs:79-88 | a greatest element is unique |
| CycleN.RepeatIndex | src/iterator.rs:19-21 | item `j` of pass `k` of the repetition is item `j` of the original |
| CycleN.StepRemaining | src/iterator/misc.rs:38-49 | `next` yields the first item still to come and leaves the rest; once nothing is left it yields `None` and nothing stays left |
| CycleN.SizeHintLeftSound | src/iterator.rs:52-60 | a hint that counts what is left bounds the number of items to come, is exact while that number fits in `usize`, and on a fresh iterator equals the source's hint |
| CycleN.SizeHintAsWrittenTooLarge | src/iterator/misc.rs:52-60 | after three calls on two passes over `[1, 2]` one item is left, but the hint as written still claims at least four |
| CycleN.CycleN.constructor | src/iterator/misc.rs:19-21 | the iterator starts with the original, a fresh pass, both counts equal to `repeat`, and the original repeated `repeat` times still to come |
| CycleN.CycleN.Next | src/iterator/misc.rs:38-49 | the new state is the one `Step` gives; the item is the first still to come and the rest remain, or `None` when nothing is left |
| CycleN.CycleN.Hint | src/iterator/misc.rs:52-60 | the corrected hint bounds the number of items still to come |
| CycleN.CollectCycleN | src/iterator.rs:19-49 | draining `original.cycle_n(repeat)` gives the original `repeat` times |
| CycleN.Step | src/iterator/misc.rs:38-49 | `CycleN::next`: advance the current pass, start a new pass while the count is above one, and stop at zero; `StepRemaining` proves it yields the items still to come in order |
| CycleN.SizeHintAsWritten | src/iterator/misc.rs:52-60 | the hint as written, the original's length times the whole count; `SizeHintAsWrittenTooLarge` shows it ignores what was consumed |
| MinMaxBy.MinMaxByOf | src/iterator/misc.rs:96-98 | `min_max_by` is `None` exactly on an empty iterator |
| MinMaxBy.MinOfMeaning | src/iterator/misc.rs:98-107 | under a total order the first component is no greater than any item, and it is the first of the least items, as `min_by` keeps its first argument on ties |
| MinMaxBy.MaxOfMeaning | src/iterator/misc.rs:98-107 | under a total order the second component is no smaller than any item, and it is the last of the greatest items, as `max_by` takes its second argument on ties |
| MinMaxBy.MinMaxOfMeaning | src/iterator.rs:96-108 | both of the above at once, for a non-empty iterator |
| MinMaxBy.MinMax | src/iterator.rs:92-94 | `min_max` on integers is `None` exactly on empty input, and otherwise gives a least and a greatest element of the input |
| MinMaxBy.MinMaxByLoop | src/iterator/misc.rs:96-108 | the fold as a loop gives the same pair as the definition, in the order the source folds |
| MinMaxBy.MinBy | src/iterator/misc.rs:98-107 | `min_by` on two items: the first unless it compares greater, so ties keep the earlier item; `MinOfMeaning` states the fold over it |
| MinMaxBy.MaxBy | src/iterator/misc.rs:98-107 | `max_by` on two items: the second unless the first compares greater, so ties keep the later item; `MaxOfMeaning` states the fold over it |
| MinMaxBy.MinMaxOf | src/iterator/misc.rs:96-108 | the fold of `min_max_by` from the first item; `MinMaxOfMeaning` proves it gives a least and a greatest item, and `MinMaxByLoop` ties the loop to it |
| OneOrZero.OneOrZero.constructor | src/iterator/misc.rs:154-158 | the closure is stored and not called; its value, if any, is the one item to come |
| OneOrZero.OneOrZero.Next | src/iterator/misc.rs:131-134 | the closure is taken and called at most once in all; the result is the one item to come, or `None`, and nothing is left afterwards |
| OneOrZero.OneOrZero.NextBack | src/iterator/misc.rs:144-147 | from the back the same: the last item to come, then nothing |
| OneOrZero.OneOrZero.Hint | src/iterator/misc.rs:135-138 | the hint is `(0, Some(1))` exactly while the closure is pending and `(0, Some(0))` after, and it bounds the items to come |
| OneOrZero.CollectOneOrZero | src/iterator/misc.rs:127-158 | draining calls the closure exactly once and yields its value if it returned one |
| OneOrZero.PairToArray | src/iterator.rs:131-135 | a pair becomes an array of length 2 |
| OneOrZero.TripleToArray | src/iterator.rs:131-135 | a triple becomes an array of length 3 |
| OneOrZero.ToArrayInOrder | src/iterator.rs:131-135 | the array lists the tuple's components in order |
| Tuples.ZipOptions | src/tuples.rs:13-16 | `Some` exactly when every component is `Some`, and then holds their values in order |
| Tuples.ZipOptionsArray | src/tuples.rs:24-29 | the loop over the array gives the same result as the tuple version |
| Tuples.ZipPair | src/tuples.rs:50-52 | the zip of a pair of iterators is as long as the shorter one |
| Tuples.ZipPairIndex | src/tuples.rs:50-52 | its i-th item is the pair of the i-th items |
| Tuples.ChainPair | src/tuples.rs:62-64 | chaining a pair yields all of the first iterator's items and then all of the second's |
| Tuples.WithIndex | src/tuples.rs:83-91 | the i-th element is paired with index i |
| Tuples.TryIntoArray | src/tuples.rs:101-103 | the conversion of a `Vec` into an array of length n succeeds exactly when the lengths agree |
| Tuples.ZipArrays | src/tuples.rs:97-104 | two arrays of length N zip into an array of length N |
| Tuples.ZipArraysUnzip | src/tuples.rs:97-104 | the first and second components of the zipped array are the two arrays, position by position |
| Zip.Zipped | src/iterator/zip.rs:74-76 | the zip of a tuple of iterators is as long as the shortest component, and tuple i collects item i of every component |
| Zip.ZippedEmpty | src/iterator/zip.rs:74-76 | an empty component makes the whole zip empty |
| Zip.ZippedDrop | src/iterator/zip.rs:74-80 | dropping the first d items of every component drops the first d tuples |
| Zip.ZippedTake | src/iterator.rs:220-227 | cutting every component to its first e items keeps the first e tuples |
| Zip.TupleNthZipped | src/iterator/zip.rs:78-80 | `nth(n)` yields tuple n of the zip and leaves the tuples after it; with no tuple n it yields `None` and leaves nothing |
| Zip.TupleNthBackZipped | src/iterator/zip.rs:138-145 | `nth_back(n)` yields tuple n counted from the back and leaves the tuples before it; with no such tuple it yields `None` and leaves nothing |
| Zip.MinKnown | src/iterator/zip.rs:85 | the smallest known upper bound is `None` exactly when no bound is known, and otherwise is one of the bounds and no greater than any of them |
| Zip.ZipHintSound | src/iterator/zip.rs:82-87 | when each component's hint bounds its length, the zip's hint bounds the shortest length, and it is exact when all components are exact |
| Zip.ZipHintBounds | src/iterator.rs:206-211 | the bound part: the minimum of the lower bounds is at most the shortest length, and the least known upper bound, if any, at least it |
| Zip.ZipHintExact | src/iterator/zip.rs:82-87 | the exact case: exact component hints give the exact shortest length |
| Zip.MinKnownAttained | src/iterator.rs:209 | when all bounds are known, the least is attained at the component holding it |
| Zip.TrimAll | src/iterator.rs:221-225 | the loops cut every component to the shortest length from the back |
| Zip.TrimBack | src/iterator/zip.rs:132-134 | repeated `next_back` cuts one component down to `m` items |
| Zip.NthEach | src/iterator/zip.rs:79 | asking the components for `nth(n)` in order, stopping at the first `None`, gives the tuple and the remaining components the definitions describe |
| Zip.NthRestAt | src/iterator/zip.rs:79 | the components asked up to the first short one, and untouched after it, are the remaining components of `nth(n)` |
| Zip.NthBackEach | src/iterator/zip.rs:144 | asking the cut components for `nth_back(n)` in order gives the tuple and the remaining components the definitions describe |
| Zip.NthBackRestShort | src/iterator/zip.rs:141-144 | when there is no such tuple only the first component has been emptied |
| Zip.NthBackRestLong | src/iterator/zip.rs:141-144 | otherwise every component is cut to before the tuple |
| Zip.TupleZip.constructor | src/iterator/zip.rs:60-62 | the zip holds the given components |
| Zip.TupleZip.Nth | src/iterator/zip.rs:78-80 | the item and new components are those of the `nth` definitions |
| Zip.TupleZip.Next | src/iterator/zip.rs:74-76 | `next` is `nth(0)` |
| Zip.TupleZip.NthBack | src/iterator/zip.rs:138-145 | the item and new components are those of the `nth_back` definitions, after cutting to the shortest length |
| Zip.TupleZip.NextBack | src/iterator/zip.rs:129-136 | `next_back` is `nth_back(0)` |
| Zip.TupleZip.Hint | src/iterator/zip.rs:82-87 | on exact components the hint is the exact number of tuples left |
| Zip.CollectZip | src/iterator.rs:202-204 | draining a zip gives all its tuples |
| Zip.CollectZipStep | src/iterator/zip.rs:74-76 | `next` after t tuples yields tuple t, or ends after the last one |
| Zip.CollectZipMore | src/iterator/zip.rs:74-76 | the case with a tuple left |
| Zip.LenEqualityAllSame | src/iterator/zip.rs:557-596 | `len_equality` passes exactly when all the lengths are equal, and always for one length |
| Zip.ZipEqNthMeaning | src/iterator/zip.rs:192-234 | `ZipEq::nth(n)` yields tuple n when every component has it, `None` when none has, and otherwise panics naming the first short component; a single component never panics |
| Zip.ZipEqNthInside | src/iterator/zip.rs:104-109 | the case where every component has item n |
| Zip.ZipEqNthBeyond | src/iterator/zip.rs:220-234 | the case where some component has no item n |
| Zip.AllSameMinLen | src/iterator/zip.rs:152-160 | with equal lengths every length is the shortest one |
| Zip.ZipEqNthBackMeaning | src/iterator/zip.rs:157-160 | `ZipEq::nth_back(n)` panics exactly when the lengths differ, changing nothing; otherwise it yields tuple n from the back and leaves the tuples before it |
| Zip.AllSameCut | src/iterator/zip.rs:152-160 | with equal lengths cutting to the shortest changes nothing |
| Zip.TupleZipEq.constructor | src/iterator/zip.rs:63-65 | the zip holds the given components |
| Zip.TupleZipEq.Nth | src/iterator/zip.rs:104-109 | every component is asked for `nth(n)`, and the result is that of the definition |
| Zip.TupleZipEq.Next | src/iterator/zip.rs:97-102 | `next` is `nth(0)` |
| Zip.TupleZipEq.NthBack | src/iterator/zip.rs:157-160 | the lengths are checked, then the result is that of the `nth_back` definition |
| Zip.TupleZipEq.NextBack | src/iterator/zip.rs:152-155 | `next_back` is `nth_back(0)` |
| Zip.TupleZipEq.Hint | src/iterator/zip.rs:111-116 | the hint is the exact shortest length |
| Zip.Match | src/iterator/zip.rs:220-234 | the match on the answers gives the tuple when all are `Some`, `None` when all are `None`, and otherwise the panic naming the first `None` |
| Zip.CollectZipEq | src/iterator/zip.rs:97-102 | draining succeeds exactly when all components have the same length, and then gives all tuples; otherwise it panics naming the first component of the shortest length |
| Zip.CollectZipEqPanics | src/iterator/zip.rs:220-234 | a panic while draining means the lengths differ, and names the first shortest component |
| Zip.FirstShortDrop | src/iterator/zip.rs:220-234 | once the shortest components are drained, the first empty one is the first of the shortest length |
| Zip.MinLenDrop | src/iterator/zip.rs:74-76 | consuming t items from each component lowers the shortest length by t |
| Zip.CollectZipEqMore | src/iterator/zip.rs:97-102 | a tuple while draining is the next tuple of the zip |
| Zip.CollectZipEqEnds | src/iterator/zip.rs:97-102 | an end without panic means all lengths were equal and every tuple was yielded |
| Zip.NthValue | src/iterator/zip.rs:74-81 | `Zip::nth(n)` and `next`: each component's `nth(n)` in order, stopping at the first without one; `TupleNthZipped` proves it is tuple n of the zip when there is one and `None` otherwise, and `NthEach` ties the loop to it |
| Zip.ZipEqValue | src/iterator/zip.rs:97-110 | `ZipEq::nth(n)` and `next`: the tuple when all components answer, `None` when none does, and a panic naming the first silent component otherwise; `ZipEqNthMeaning` states it |
| Zip.LenEquality | src/iterator/zip.rs:557-596 | `len_equality`: a panic when two neighbouring lengths differ; `LenEqualityAllSame` proves it passes exactly when all lengths are equal |
| Zip.ZipHint | src/iterator/zip.rs:82-87 | `Zip::size_hint`: the least lower bound and the least known upper bound; `ZipHintSound`, `ZipHintBounds` and `ZipHintExact` state it |
| Zip.MinLen | src/iterator/zip.rs:74-87 | the length of the shortest component, the number of tuples a zip yields; `MinLenDrop` and `AllSameMinLen` state it |
| ArrayZip.ArrayNextZipped | src/iterator/zip.rs:637-649 | `next` yields the first vector still to come and leaves the others, or `None` when none is left, including without components |
| ArrayZip.ReduceHints | src/iterator/zip.rs:651-664 | the reduced lower bound is the least of the lower bounds; the upper bound is `None` exactly when no component knows one, and otherwise is the least known one |
| ArrayZip.ReduceHintsIsZipHint | src/iterator.rs:280-293 | the `reduce` over hints gives the same hint as the tuple zip's `size_hint` |
| ArrayZip.ArrayNextBackPanicsWhenEmpty | src/iterator/zip.rs:673-678 | without components `next` yields `None` and the hint is `(0, Some(0))`, but `next_back` panics on the minimum of no lengths |
| ArrayZip.ArrayNextBackMeaning | src/iterator/zip.rs:673-695 | when `next_back` does not panic it agrees with the corrected definition, which never panics with components; it yields the last vector still to come and leaves the ones before it |
| ArrayZip.ArrayZip.constructor | src/iterator/zip.rs:624-628 | the zip holds the given components |
| ArrayZip.ArrayZip.Next | src/iterator/zip.rs:637-649 | every component is advanced once and the item is that of the definition |
| ArrayZip.ArrayZip.NextBack | src/iterator/zip.rs:673-695 | corrected: the components are cut to the shortest length, then each gives its last item |
| ArrayZip.ArrayZip.Hint | src/iterator/zip.rs:651-664 | on exact components the hint is the exact number of vectors left |
| ArrayZip.TakeBackAll | src/iterator.rs:303-312 | with equal lengths m, the last items form column m - 1 and every component loses its last item; with m = 0 the result is `None` |
| ArrayZip.CollectArrayZip | src/iterator.rs:266-278 | draining gives all the vectors of the zip |
| ArrayZip.ArrayNextValue | src/iterator/zip.rs:637-649 | `next` on a `Vec` of iterators: `None` without components, otherwise every component advanced and the heads when none ran out; `ArrayNextZipped` proves it yields the next vector of the zip |
| ArrayZip.CombineHint | src/iterator/zip.rs:651-664 | the `reduce` step of `size_hint`: the smaller lower bound and the smaller of the known upper bounds; `ReduceHints` and `ReduceHintsIsZipHint` state the reduction |
| ArrayZip.ArrayNextBackAsWritten | src/iterator/zip.rs:673-695 | `next_back` as written, `minimum()` of no lengths panicking; `ArrayNextBackPanicsWhenEmpty` exhibits the panic |
| ArrayZip.ArrayNextBack | src/iterator/zip.rs:673-695 | `next_back` with the empty case answered `None` as `next` does; `ArrayNextBackMeaning` proves it agrees with the source wherever the source does not panic and yields the last vector of the zip |
| Chain.ConcatAt | src/iterator/chain.rs:49-55 | the chained items are those of the components before i, then component i, then those after |
| Chain.ConcatEmpty | src/iterator/chain.rs:49-55 | chaining empty components yields nothing |
| Chain.ConcatUpdate | src/iterator/chain.rs:49-55 | replacing component i changes only its part of the chained items |
| Chain.SumMonotone | src/iterator/chain.rs:57-64 | a sum of lengths grows with each length |
| Chain.ConcatLength | src/iterator/chain.rs:57-64 | the number of chained items is the sum of the component lengths |
| Chain.ChainHintSound | src/iterator/chain.rs:57-64 | when each component's hint bounds its length, the sum of lower bounds and the sum of upper bounds, known only when all are known, bound the total, exactly when all are exact |
| Chain.ChainPairIsConcat | src/tuples.rs:62-64 | chaining a pair is chaining the two-component tuple |
| Chain.Chain.constructor | src/iterator/chain.rs:39-41 | the chain holds the components with both cursors at zero |
| Chain.Chain.Next | src/iterator/chain.rs:49-55 | `next` skips exhausted components from the front cursor and takes the head of the first non-empty one, leaving every other component unchanged; it yields the first chained item still to come, or `None` with the cursor past the end |
| Chain.Chain.NextBack | src/iterator/chain.rs:91-97 | `next_back` does the same from the last component, with the back cursor counting from the end; it yields the last chained item still to come |
| Chain.Chain.Hint | src/iterator/chain.rs:57-64 | on exact components the hint is the exact number of items left |
| Chain.CollectChain | src/iterator/chain.rs:49-55 | draining a chain with `next` gives the components' items in order |
| Chain.CollectChainBack | src/iterator/chain.rs:91-97 | draining it with `next_back` gives them in reverse order |
| Chain.Concat | src/iterator/chain.rs:49-55 | the items a chain yields: those of every component in component order; `ConcatAt`, `ConcatLength` and `CollectChain` state it |
| Chain.ChainHint | src/iterator/chain.rs:57-64 | `size_hint`: the sum of the lower bounds, and the sum of the upper bounds when all are known; `ChainHintSound` proves it bounds the number of items |
| Product.ExtendIndex | src/iterator/product.rs:236-243 | tuple j of a prefix's extension is the prefix followed by item j of the component |
| Product.ExtendAllLength | src/iterator/product.rs:172-185 | extending every prefix by every item multiplies the counts |
| Product.ExtendAllNone | src/iterator/product.rs:172-185 | an empty component extends nothing |
| Product.ExtendAllIndex | src/iterator/product.rs:172-185 | tuple number a times the component length plus b is prefix a followed by item b, so the last component varies fastest |
| Product.ExtendAllCons | src/iterator/product.rs:172-185 | the first prefix's tuples come first |
| Product.ProdLength | src/iterator/product.rs:187-201 | the product of the first k + 1 components has as many tuples as their lengths multiply to |
| Product.ProdEmpty | src/iterator/product.rs:152-161 | an empty component empties the product |
| Product.ProdSingle | src/iterator/product.rs:119-131 | the product of one component is its items as 1-tuples |
| Product.MulLe | src/iterator/product.rs:35-42 | products of natural numbers grow with their factors |
| Product.MulAddSound | src/iterator/product.rs:35-42 | `size_hint_mul_add` of sound hints of x, y and z is a sound hint of `x * y + z`, and exact for exact hints |
| Product.ProductOne.constructor | src/iterator/product.rs:105-111 | the single-component product holds its iterator |
| Product.ProductOne.Next | src/iterator/product.rs:119-122 | `next` is the inner `next`: the first 1-tuple still to come |
| Product.ProductOne.Nth | src/iterator/product.rs:124-127 | `nth(n)` is the inner `nth(n)`: 1-tuple n, and the ones after it are left |
| Product.ProductOne.NextBack | src/iterator/product.rs:423-424 | `next_back` gives the last 1-tuple still to come |
| Product.ProductOne.Hint | src/iterator/product.rs:129-131 | the hint is the inner iterator's, the exact number of 1-tuples left |
| Product.PendingFrame | src/iterator/product.rs:229-245 | the pending tuples of the first k + 1 components depend only on those components and the current values before k |
| Product.PendingLength | src/iterator/product.rs:187-201 | the number of pending tuples is the odometer count the hint computes |
| Product.OdometerStep | src/iterator/product.rs:219-245 | a step at component k changes no later component and no current value from k on |
| Product.OdometerStepMeaning | src/iterator/product.rs:219-245 | a step at component k yields the next tuple of the first k + 1 components, the current values followed by the item, leaves the rest pending, and yields `None` exactly when nothing is pending |
| Product.OdometerCarry | src/iterator/product.rs:236-243 | when component k is exhausted, the meaning of the step before it gives the meaning of the step at k |
| Product.CarryRestarts | src/iterator/product.rs:238-242 | after the carry, component k restarts from its original and yields its first item after the new current values |
| Product.PendingTake | src/iterator/product.rs:236-237 | when component k has an item it comes next, after the current values |
| Product.PendingReplaced | src/iterator/product.rs:239 | replacing component k leaves the earlier pending tuples as they were |
| Product.PendingUpdateAbove | src/iterator/product.rs:229-245 | changing a later component leaves the pending tuples of the first k + 1 alone |
| Product.ExtendHead | src/iterator/product.rs:236-243 | an extension by a non-empty component starts with its first item |
| Product.PendingExhausted | src/iterator/product.rs:238-241 | an exhausted component k leaves every later prefix with each item of its original pending |
| Product.PendingRestart | src/iterator/product.rs:238-241 | the pending tuples of a component are its remaining items after the current values, then the later prefixes with its whole original |
| Product.ExtendAllStep | src/iterator/product.rs:236-243 | the first tuple of an extension, and the ones after it |
| Product.InitialIters | src/iterator/product.rs:152-161 | construction keeps one iterator per component |
| Product.InitialCurrent | src/iterator/product.rs:157-158 | the current values, when present, hold one item of each component but the last |
| Product.InitialPending | src/iterator/product.rs:152-161 | right after construction the pending tuples of the first k + 1 components are their product but the first tuple, which is the current values up to k |
| Product.InitialEmpty | src/iterator/product.rs:157-158 | when a component before the last is empty there are no current values and the product is empty |
| Product.InitialItems | src/iterator/product.rs:152-161 | after construction the tuples still to come are the whole product |
| Product.NextAsWrittenRepeats | src/iterator/product.rs:172-215 | the product of `[1]` and `[5]` as written yields `(1, 5)`, then `None`, then `(1, 5)` again, although it is declared a `FusedIterator` |
| Product.RepeatsStart | src/iterator/product.rs:152-161 | construction over `[1]` and `[5]` takes 1 as the current value |
| Product.RepeatsTake | src/iterator/product.rs:172-185 | the first `next` yields `(1, 5)` |
| Product.RepeatsRestart | src/iterator/product.rs:236-243 | the second `next` yields `None` but resets the last component |
| Product.RepeatsProduct | src/iterator/product.rs:152-185 | the product of `[1]` and `[5]` is the single tuple `(1, 5)` |
| Product.ProductHintSound | src/iterator/product.rs:187-201 | the hint, built by `size_hint_mul_add` component by component, bounds the odometer count and is exact for exact components |
| Product.ExactHints | src/iterator/product.rs:194-199 | one exact hint per component |
| Product.HintAsWrittenCountsDeadState | src/iterator/product.rs:187-201 | for `[]` and `[1, 2]` the product is empty, but the hint as written reports exactly 2 |
| Product.CartesianProduct.constructor | src/iterator/product.rs:152-161 | construction takes the first items of all components but the last, and the tuples still to come are the whole product |
| Product.CartesianProduct.Advance | src/iterator/product.rs:219-245 | the nested matches as a recursive method give the odometer step |
| Product.CartesianProduct.Next | src/iterator/product.rs:172-185 | the new state is that of the fused `next`; it yields the first tuple still to come, and after its first `None` it has no current values |
| Product.CartesianProduct.Hint | src/iterator/product.rs:187-201 | corrected: the hint, `(0, Some(0))` without current values, is the exact number of tuples still to come |
| Product.CollectProduct | src/iterator/product.rs:152-185 | draining the product gives all the tuples of the cartesian product, the last component varying fastest |
| Product.NextAsWritten | src/iterator/product.rs:172-185 | `next` as written: when the first component runs out it yields `None` but keeps the current values, so the following call starts over; `NextAsWrittenRepeats` exhibits it |
| Product.NextFused | src/iterator/product.rs:213-215 | `next` as the `FusedIterator` declaration promises: the first `None` also clears the current values; `CartesianProduct.Next` and `CollectProduct` are stated with it |
| Product.ProductHint | src/iterator/product.rs:187-201 | `size_hint`: the first component's hint, then component by component times the original's hint plus the component's own; `ProductHintSound` proves it bounds the tuples left |
| Product.MulAdd | src/iterator/product.rs:35-42 | `size_hint_mul_add`: `a * b + c` on both bounds, the upper one only when all three are known; `MulAddSound` proves it bounds `x * y + z` |
| Product.Pending | src/iterator/product.rs:219-245 | the tuples still to come in odometer order, from the iterators and current values; `PendingLength`, `PendingTake` and `OdometerStepMeaning` state how `next` consumes them |
| ProductDoubleEnded.CheckedLength | src/iterator/product.rs:478-482 | the length, when it does not overflow, is the product of the component lengths |
| ProductDoubleEnded.CheckedLengthNone | src/iterator/product.rs:478-482 | construction fails exactly when the product of some first components' lengths exceeds `usize::MAX`, even when a later length is zero |
| ProductDoubleEnded.Digits | src/iterator/product.rs:781-794 | `index_each` gives one digit per component |
| ProductDoubleEnded.DigitsSplit | src/iterator/product.rs:788-791 | the digits of the first k + 1 components are those of the first k for `i / len[k]`, then `i % len[k]` |
| ProductDoubleEnded.LengthProductPositive | src/iterator/product.rs:478-482 | a positive product has positive factors |
| ProductDoubleEnded.BelowProduct | src/iterator/product.rs:781-794 | a mixed-radix step stays below the product |
| ProductDoubleEnded.DigitsFlat | src/iterator/product.rs:781-794 | for a position below the length, every digit of `index_each` is below its component's length and the digits flatten back to the position |
| ProductDoubleEnded.FlatDigits | src/iterator/product.rs:781-794 | digits below the lengths flatten to a position below the length whose `index_each` gives them back |
| ProductDoubleEnded.PickSnoc | src/iterator/product.rs:530-537 | picking one more component's item appends it |
| ProductDoubleEnded.DigitsAt | src/iterator/product.rs:781-794 | the digits of the first k + 1 components |
| ProductDoubleEnded.DigitsAtLengths | src/iterator/product.rs:781-794 | they are `index_each` for those components' lengths |
| ProductDoubleEnded.ProdAtIndex | src/iterator/product.rs:575 | tuple i of the product of the first k + 1 components is, component by component, the item at its digit |
| ProductDoubleEnded.ProdAtIndexStep | src/iterator/product.rs:788-791 | the step of that induction |
| ProductDoubleEnded.ProdIndex | src/iterator/product.rs:568-579 | tuple i of the product is item `index_each(i)[k]` of every component k |
| ProductDoubleEnded.ProdSize | src/iterator/product.rs:478-492 | the product has exactly as many tuples as the computed length |
| ProductDoubleEnded.LenAsWrittenOverCounts | src/iterator/product.rs:303-307 | the length as written counts one tuple too many: a fresh product of lengths 2 and 3 reports 7, an exhausted one 1 |
| ProductDoubleEnded.NthAsWrittenUnderflows | src/iterator/product.rs:550-565 | over four tuples, `next` then `nth_back(10)` moves `backward_index` below `forward_index`, after which `nth(0)` underflows; mirrored, `nth(10)` after `next_back` makes `nth_back(0)` underflow |
| ProductDoubleEnded.DoubleEndedProduct.constructor | src/iterator/product.rs:477-499 | construction records the lengths and their product, with the forward position 0, the backward position the length, and the whole product to come |
| ProductDoubleEnded.DoubleEndedProduct.IndexEach | src/iterator/product.rs:781-794 | the loop computes the mixed-radix digits of the position |
| ProductDoubleEnded.DoubleEndedProduct.TupleAt | src/iterator/product.rs:568-579 | the tuple at a position is tuple `i` of the product |
| ProductDoubleEnded.DoubleEndedProduct.Next | src/iterator/product.rs:509-548 | `next` yields the first tuple still to come and leaves the rest; the backward position does not move |
| ProductDoubleEnded.DoubleEndedProduct.NextBack | src/iterator/product.rs:634-673 | `next_back` yields the last tuple still to come and leaves the rest; the forward position does not move |
| ProductDoubleEnded.DoubleEndedProduct.Nth | src/iterator/product.rs:550-621 | corrected: `nth(n)` yields tuple n of those still to come and leaves the ones after it, or nothing when fewer are left |
| ProductDoubleEnded.DoubleEndedProduct.NthBack | src/iterator/product.rs:675-746 | corrected: `nth_back(n)` yields tuple n counted from the back and leaves the ones before it |
| ProductDoubleEnded.DoubleEndedProduct.Len | src/iterator/product.rs:754-756 | corrected: `len` is the number of tuples still to come |
| ProductDoubleEnded.DoubleEndedProduct.Hint | src/iterator/product.rs:623-626 | corrected: `size_hint` is that number, exactly |
| ProductDoubleEnded.Make | src/iterator/product.rs:477-499 | construction fails, as the `expect` panics, exactly when the length overflows; otherwise the product is fresh and holds all the tuples |
| ProductDoubleEnded.CollectBack | src/iterator/product.rs:634-673 | draining from the back gives the product's tuples, last first |
| ProductDoubleEnded.LenAsWritten | src/iterator/product.rs:303-307 | `length` as written, `backward_index - forward_index + 1` or 0; `LenAsWrittenOverCounts` shows it counts one tuple too many |
| ProductDoubleEnded.NthAsWritten | src/iterator/product.rs:550-565 | the index update of `nth(by)` as written, with underflowing subtractions as errors; `NthAsWrittenUnderflows` exhibits the underflow |
| ProductDoubleEnded.NthBackAsWritten | src/iterator/product.rs:675-690 | the index update of `nth_back(by)` as written: past the front `backward_index` becomes 0, even below `forward_index`; `NthAsWrittenUnderflows` exhibits the result |
| ExtendedMap.MapAll | src/iterator/extended_map.rs:59-66 | mapping an iterator through a stateful map function yields exactly one output per input item |
| ExtendedMap.MapAllAt | src/iterator/extended_map.rs:59-66 | output i is the map function applied to input i in the state left by the calls on the earlier inputs |
| ExtendedMap.MapAllKeepsState | src/iterator/extended_map.rs:19-24 | a map function that captures no mutable state leaves the state unchanged and maps every item independently of the others |
| ExtendedMap.FoldLeftAppend | src/iterator/extended_map.rs:48-57 | folding a concatenation is folding the second part from the result of the first part |
| ExtendedMap.ExtendedMap.constructor | src/iterator/extended_map.rs:13-16 | the map holds the inner iterator and the map function with its captured state |
| ExtendedMap.ExtendedMap.Next | src/iterator/extended_map.rs:32-36 | an empty inner iterator gives None and the function is not called; otherwise the head goes through one call, which updates the state, and the inner iterator advances by one; the result is the head of the remaining mapped items |
| ExtendedMap.ExtendedMap.Nth | src/iterator/extended_map.rs:38-42 | nth(n) skips n inner items without calling the function and maps only item n; past the end it gives None and empties the iterator |
| ExtendedMap.ExtendedMap.NextBack | src/iterator/extended_map.rs:72-77 | an empty inner iterator gives None; otherwise only the last inner item is mapped and removed |
| ExtendedMap.ExtendedMap.NthBack | src/iterator/extended_map.rs:79-84 | nth_back(n) maps only the item n places from the back and drops it and everything after it; past the front it gives None and empties the iterator |
| ExtendedMap.ExtendedMap.Hint | src/iterator/extended_map.rs:44-46 | the size hint is the inner iterator's, which is exactly the number of mapped items left |
| ExtendedMap.ExtendedMap.Len | src/iterator/extended_map.rs:86-89 | the length is the inner iterator's length, the number of mapped items left |
| ExtendedMap.ExtendedMap.Fold | src/iterator/extended_map.rs:48-57 | folding the map is folding the mapped items in order; it consumes the inner iterator and leaves the state every call in turn has produced |
| ExtendedMap.CollectMapped | src/iterator/extended_map.rs:59-66 | collecting the map yields every inner item mapped in order, with the state threaded through the calls |
| ExtendedMap.MapOkCall | src/iterator/extended_map.rs:497-499 | an `Ok` value goes through the closure and stays `Ok`; an `Err` passes unchanged and the closure is not called |
| ExtendedMap.MapErrCall | src/iterator/extended_map.rs:521-523 | an `Err` value goes through the closure and stays `Err`; an `Ok` passes unchanged and the closure is not called |
| ExtendedMap.MapSomeCall | src/iterator/extended_map.rs:545-547 | a `Some` value goes through the closure and stays `Some`; `None` passes unchanged and the closure is not called |
| ExtendedMap.MapOk | src/iterator/extended_map.rs:586-590 | `map_ok` builds a fresh map over the iterator with the `Ok`-mapping function |
| ExtendedMap.MapErr | src/iterator/extended_map.rs:593-597 | `map_err` builds a fresh map over the iterator with the `Err`-mapping function |
| ExtendedMap.MapSome | src/iterator/extended_map.rs:600-604 | `map_some` builds a fresh map over the iterator with the `Some`-mapping function |
| ExtendedMap.MapInto | src/iterator/extended_map.rs:607-609 | `map_into` builds a fresh map over the iterator with the conversion function |
| ExtendedMap.MapIntoItems | src/iterator/extended_map.rs:566-570 | the conversion keeps no state, and every collected item is the conversion of the input at the same position |
| ExtendedMap.MapOkKeepsErrors | src/iterator/extended_map.rs:493-500 | over a whole iterator `map_ok` keeps every `Err` unchanged at its place and turns no `Ok` into an `Err` |
| ExtendedMap.MapErrKeepsOks | src/iterator/extended_map.rs:517-524 | over a whole iterator `map_err` keeps every `Ok` unchanged at its place and turns no `Err` into an `Ok` |
| ExtendedMap.MapSomeKeepsNones | src/iterator/extended_map.rs:541-548 | over a whole iterator `map_some` keeps the `None`s exactly where they were |
| ExtendedMap.MapOkIdentity | src/iterator/extended_map.rs:586-590 | `map_ok` with the identity closure gives back the iterator unchanged |
| ExtendedMap.MapOkCompose | src/iterator/extended_map.rs:586-590 | `map_ok(f)` followed by `map_ok(g)` equals one `map_ok` with the composition |
| ExtendedMap.MapErrIdentity | src/iterator/extended_map.rs:593-597 | `map_err` with the identity closure gives back the iterator unchanged |
| ExtendedMap.MapSomeIdentity | src/iterator/extended_map.rs:600-604 | `map_some` with the identity closure gives back the iterator unchanged |
| ExtendedMap.MapOkFn | src/iterator/extended_map.rs:491-500 | the map function `map_ok` installs: `MapOkCall` on each item, which `MapOkKeepsErrors` and `MapOkCompose` state over a whole iterator |
| ExtendedMap.MapErrFn | src/iterator/extended_map.rs:515-524 | the map function `map_err` installs: `MapErrCall` on each item; `MapErrKeepsOks` states it over a whole iterator |
| ExtendedMap.MapSomeFn | src/iterator/extended_map.rs:539-548 | the map function `map_some` installs: `MapSomeCall` on each item; `MapSomeKeepsNones` states it over a whole iterator |
| ExtendedMap.MapIntoFn | src/iterator/extended_map.rs:564-570 | the map function `map_into` installs: the conversion, with no state; `MapIntoItems` states it over a whole iterator |
| IntegerCoefficients.ChooseAbove | src/numerics/special_functions/integer_coefficients.rs:17-20 | the binomial coefficient C(n, k) is 0 when k exceeds n |
| IntegerCoefficients.ChooseAll | src/numerics/special_functions.rs:110-125 | C(n, n) is 1 |
| IntegerCoefficients.ChooseFact | src/numerics/special_functions/integer_coefficients.rs:17-34 | C(n, k) · k! · (n − k)! = n! for k ≤ n |
| IntegerCoefficients.ChooseSymmetric | src/numerics/special_functions/integer_coefficients.rs:21-22 | C(n, k) = C(n, n − k), which makes replacing k by min(k, n − k) harmless |
| IntegerCoefficients.ProdFalling | src/numerics/special_functions.rs:115-119 | the numerators n, n − 1, …, n − k + 1 multiply to n! / (n − k)! |
| IntegerCoefficients.ProdRising | src/numerics/special_functions/integer_coefficients.rs:48-51 | the numerators first + 1, …, sum multiply to sum! / first! |
| IntegerCoefficients.ZipFoldRatio | src/numerics/special_functions/integer_coefficients.rs:23-31 | folding `a · num/den` over the zipped pairs multiplies the start value by the ratio of the products |
| IntegerCoefficients.RatioQuotient | src/numerics/special_functions/integer_coefficients.rs:48-57 | the ratio of the zipped fractions times the product of the denominators is the product of the numerators |
| IntegerCoefficients.BinomialFold | src/numerics/special_functions/integer_coefficients.rs:23-31 | the product of fractions computed by `binomial_coefficient` is exactly C(n, k) |
| IntegerCoefficients.BinomialIsChoose | src/numerics/special_functions/integer_coefficients.rs:18-34 | `binomial_coefficient` panics exactly when k > n, and otherwise returns C(n, k); its integrality panic never fires |
| IntegerCoefficients.Positives | src/numerics/special_functions/integer_coefficients.rs:40-41 | dropping the zero parameters keeps only positive ones and changes neither the sum nor the product of factorials |
| IntegerCoefficients.Denominators | src/numerics/special_functions/integer_coefficients.rs:51-53 | the concatenated ranges `1..=p` have as many entries as the parameters' sum, all positive, and multiply to the product of the parameters' factorials |
| IntegerCoefficients.MultiFact | src/numerics/special_functions.rs:129-152 | the multinomial coefficient times the product of the parameters' factorials is the factorial of their sum |
| IntegerCoefficients.PositiveFold | src/numerics/special_functions/integer_coefficients.rs:48-57 | with at least one positive parameter, the fold of `multinomial_coefficients` equals the multinomial coefficient |
| IntegerCoefficients.MultinomialOfPositives | src/numerics/special_functions/integer_coefficients.rs:42-59 | with at least two positive parameters `multinomial_coefficients` returns the multinomial coefficient of the positive ones and does not panic |
| IntegerCoefficients.MultinomialIsQuotient | src/numerics/special_functions/integer_coefficients.rs:37-60 | `multinomial_coefficients` never panics; its value is (Σp)! / Πp!; with fewer than two positive parameters it is 1; zero parameters do not change it |
| IntegerCoefficients.PositivesIdempotent | src/numerics/special_functions.rs:132-133 | filtering out zeros twice is filtering once |
| IntegerCoefficients.PositivesOfPositive | src/numerics/special_functions.rs:132-133 | a list of positive parameters passes the filter unchanged |
| IntegerCoefficients.BernoulliIdentity | src/numerics/special_functions/integer_coefficients.rs:85-98 | for even n ≥ 2 the computed B_n satisfies Σ_{k ≤ n} C(n+1, k) B_k = 0 |
| IntegerCoefficients.EvenTermsRecurrence | src/numerics/special_functions/integer_coefficients.rs:87-97 | summing only the cached even Bernoulli numbers, starting from −C(n+1, 1)/2, gives the full recurrence sum, because the odd terms after B₁ vanish |
| IntegerCoefficients.NextEvenIsBernoulli | src/numerics/special_functions/integer_coefficients.rs:85-98 | one loop step, given the cached B_0, B_2, …, B_{n−2}, computes B_n |
| IntegerCoefficients.BernoulliTwo | src/numerics/special_functions.rs:155-157 | the cached second entry 1/6 is B_2 |
| IntegerCoefficients.BernoulliFour | src/numerics/special_functions.rs:160-196 | B_4 = −1/30 |
| IntegerCoefficients.BernoulliCache.constructor | src/numerics/special_functions/integer_coefficients.rs:63-65 | the cache starts as [1, 1/6], which are B_0 and B_2 |
| IntegerCoefficients.BernoulliCache.Get | src/numerics/special_functions/integer_coefficients.rs:68-104 | `bernoulli_number(n)` returns B_n: 1, −1/2 and 0 for n = 0, 1 and odd n without touching the cache; for even n it extends the cache to n/2 + 1 entries when needed, keeps the entries already there, and keeps the cache valid |
| IntegerCoefficients.Binomial | src/numerics/special_functions/integer_coefficients.rs:18-34 | `binomial_coefficient`: a panic for `k > n`, otherwise the folded product of ratios after `k` becomes `min(k, n - k)`; `BinomialIsChoose` proves it is `C(n, k)` and never fails otherwise |
| IntegerCoefficients.Multinomial | src/numerics/special_functions/integer_coefficients.rs:37-60 | `multinomial_coefficient`: the rising product over the positive parameters, divided through; `MultinomialIsQuotient` proves it is `(Σp)! / Πp!` |
| IntegerCoefficients.BernoulliNumber | src/numerics/special_functions/integer_coefficients.rs:63-104 | the reference definition of the Bernoulli numbers the cache returns (`B₁ = −1/2`, odd ones after it 0, even ones by the defining recurrence); `BernoulliIdentity` and `BernoulliCache.Get` are stated against it |
| IntegerCoefficients.NextEven | src/numerics/special_functions/integer_coefficients.rs:85-98 | one step of the cache filling: the next even Bernoulli number from the even ones before it; `NextEvenIsBernoulli` proves it equals `BernoulliNumber(n)` |

## Left out

- Parallel execution: the rayon producer/consumer code of `src/iterator/zip.rs` and `src/iterator/extended_map.rs`, and the code that `for_each!` and `smart_for_each!` generate. Only the token-level transformations are modelled.
- Code emission of `compose_struct!` (the `compose` methods that build the final Rust items). Only the decisions it takes on the default analysis are modelled.
- The assembly of the final loop by `for_each!` (`construct_whole`, `make_iterator` and the code after them in `macros/src/for_each.rs`), and the `match` wrapper built by `smart_for_each!`'s `construct`.
- `syn::parse2` is replaced by small syntactic stand-ins for identifiers, expressions, types, ranges and tuples. `quote!` is token-sequence concatenation. Spans, the `src` strings kept for error messages, and the text of error messages are not modelled.
- The file, stdout and stderr writes of `print_tokens`: the chosen destination is returned as a value.
- Tokens.Escape: escapes only backslash, double quote and newline. `Literal::string` also escapes tab, carriage return, `\0` and other non-printable characters, so the literal's text can differ, though the value it reads back as is the same.
- The in-place `&mut` rewriting of the `compose_struct!` tree: each rewrite is a function from the old tree to the new one, so aliasing between nodes is not captured.
- The `Lazy<Mutex<…>>` around the Bernoulli cache: the cache is a class with a sequence field, and locking and sharing between threads are not modelled.
- Bounded integers: `usize` and `Ratio<usize>` are unbounded, so overflow inside the coefficient folds is not modelled. Overflow is modelled where the source handles it: the saturating and checked multiplication in `CycleN::size_hint` and the checked length of the double-ended product.
- Product.MulAdd: `size_hint_mul_add` computes `a * b + c` in `usize` without a check, so a product or sum past `usize::MAX` panics in a debug build and wraps in a release build; the model computes it unbounded and does not capture either.
- Product.ProductHint: the hint of the forward product is built from `size_hint_mul_add`, so the same overflow is not modelled.
- Chain.ChainHint: `Chain::size_hint` adds the lower bounds and the upper bounds in `usize` without a check; the model sums them unbounded, so the overflow panic or wrap-around is not modelled.
- Exact rationals (`Ratio<usize>`, `BigRational`) are Dafny `real`.
- The generic `Ord` item types of `min_max_by`, `minimum`/`maximum` and `min_assign`/`max_assign` are integers.
- The tuple and array adaptors are modelled for components with one item type: a tuple is a sequence of any length, not the fixed arities (up to 12) generated by `macro_rules!`.
- A component iterator is the sequence of the items it has left. Its `size_hint` is therefore exact, cloning yields the same items again, and iterators that are infinite or change under clone are not modelled.
- The double-ended product keeps only its two positions and the lengths. The forward and backward component iterators and the cached current values are not modelled; each tuple is named by its mixed-radix digits.
- The state a map closure captures is an explicit value passed along from call to call. Closures that do I/O are not modelled.
- `OneOrZero`: the closure is modelled by the value it returns, so only the single call is captured.
- Floating-point numerics, the gamma functions, `hypot`, `mul_add`, polynomial evaluation, logging, timers and the `ndarray` helpers are not part of this model.
- `ForEachReduction.LawfulMax`, `ForEachReduction.LawfulMin`: stated for integers within the `i64` range, the bound of the identity `minimum_value`/`maximum_value` for that type, and not for every numeric type.

## Findings

| source | as written | input that shows it | evidently intended | confidence | as-written member | corrected member |
|---|---|---|---|---|---|---|
| src/iterator/product.rs:303-307 | the double-ended product reports `backward_index − forward_index + 1` items left | a fresh product of components of lengths 2 and 3 reports 7 items; an exhausted one reports 1 | `backward_index − forward_index`, the number of tuples not yet taken | not executed | ProductDoubleEnded.LenAsWrittenOverCounts | ProductDoubleEnded.DoubleEndedProduct.Len |
| macros/src/for_each.rs:1132 | the `each` pattern is emitted with `quote!(&mut $var)`, in which `$var` is not interpolated | `&mut v = each(mut a)` yields the closure pattern `& mut $ var` instead of `& mut v` | `&mut #var`, naming the variable | not executed | ForEachElement.EachPatternLostAsWritten | ForEachElement.EachPatternKept |
| src/iterator/misc.rs:52-60 | `CycleN::size_hint` multiplies the original's hint by `whole_count`, whatever has been consumed | `[1, 2].cycle_n(2)` after three `next` calls has one item left but reports a lower bound of 4 | a hint for the items left: the current pass plus the remaining whole passes | not executed | CycleN.SizeHintAsWrittenTooLarge | CycleN.CycleN.Hint |
| src/iterator/product.rs:172-215 | the forward product resets the last component before checking for the end, so after `None` it starts again, although it implements `FusedIterator` | the product of `[1]` and `[5]` yields `(1, 5)`, `None`, then `(1, 5)` again | `None` for ever once the product is exhausted | not executed | Product.NextAsWrittenRepeats | Product.CartesianProduct.Next |
| macros/src/compose_struct.rs:728-737 | after a `where` clause, a braced or parenthesised body sets the kind and the phase but never the fields | `struct S<T> where T: Clone { x: T }` is rejected with the zero-fields error | the group after the `where` clause is taken as the body | not executed | ComposeParser.WhereStructRejectedAsWritten | ComposeParser.WhereStructParsed |
| macros/src/compose_struct.rs:2422-2442 | `Enum::compose` takes the first variant marked `= default` with `find_map` | an enum with two unit variants both marked `= default` gets the first as its default with no error | an error, as the merged answer for the enum is `NotAllowed` and the error message names several defaults | not executed | HasDefault.TwoDefaultVariantsAccepted | HasDefault.EnumDefaultVariant |
| macros/src/compose_struct.rs:1942-1959 | `pub_all` on an enum makes public only the data types nested in its variants and those enclosed in it; the enum's own visibility is left as it is | `#[pub_all] enum E { A }` stays private | the enum itself becomes `pub`, as `Struct::pub_all` does for a struct (lines 1907-1908) | not executed | Modification.EnumPubAllKeepsPrivate | Modification.EnumPubAll |
| macros/src/for_each.rs:1160-1162 | `make_element` checks for at least one iterator after each option, not after all of them | `reduce(+: s)` written before `index(i, 10)` panics, though an index option follows | the check made once, after every option | not executed | ForEachElement.ReductionFirstRejected | ForEachElement.ConvertOk |
| src/iterator/zip.rs:673-678 | array `Zip::next_back` takes `minimum()` of the component lengths, which panics when there are none | a `Zip` over an empty vector of iterators: `next` returns `None` and the hint is `(0, Some(0))`, but `next_back` panics | `None`, as `next` answers | not executed | ArrayZip.ArrayNextBackPanicsWhenEmpty | ArrayZip.ArrayNextBackMeaning |
| src/iterator/product.rs:187-201 | the forward product's `size_hint` counts the remaining tuples even when the current values are `None` | the product of `[]` and `[1, 2]` is empty but reports exactly 2 | `(0, Some(0))` once the product is empty | not executed | Product.HintAsWrittenCountsDeadState | Product.CartesianProduct.Hint |
| src/iterator/product.rs:550-565 | `nth`/`nth_back` past the other end move one index across the other | over four tuples, `next` then `nth_back(10)` sets `backward_index` below `forward_index`, and a following `nth(0)` underflows; mirrored for `nth(10)` after `next_back` | the crossing index stops at the other one and the iterator is exhausted | not executed | ProductDoubleEnded.NthAsWrittenUnderflows | ProductDoubleEnded.DoubleEndedProduct.Nth |
