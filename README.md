# impex: explicit/implicit configuration overlays, in Dafny

impex pairs a configuration type with an *overlay*. An overlay holds the same data as the
configuration and also records, at every leaf, whether the value was set *explicitly* (read from
a document, or set by the program) or *implicitly* (taken from the type's `Default`). A
serializer for the overlay writes only what is explicit. A configuration read from
`{"num_cores":3}` is therefore written back as `{"num_cores":3}`, even though every other field
holds its default.

This project models that core:

- **The overlay and its four operations** (`values.dfy`, `impex.dfy`).
  - `into_impex` stamps every leaf with one flag.
  - `is_explicit` is true when any leaf is explicit.
  - `into_value` strips the flags.
  - `set_impex` replaces the data and the flags.
  - It also covers the trait's default methods (`into_implicit`, `into_explicit`,
    `is_implicit`, `set_explicit`, `set_implicit`), the derived `Default`, the visitor's
    traversal and the derived equality.
  - One recursive definition over a type schema covers every overlay shape: the primitive leaf,
    `OptionImpex`, `Vec`, fixed-size arrays, and the named structs, tuple structs and enums the
    derive macro generates.
- **The leaf strategies, as classes whose fields the source updates in place.**
  - `ImpexPrimitiveValue` of the default wrapper settings (`primitive.dfy`).
  - The custom `MyPrimitiveValue`, which carries an extra variable name (`custom_strategy.dfy`).
  - The older root crate's `ImpexPrimitiveValue` (`legacy.dfy`).
  - Each is proved against the overlay functions.
- **The collection overlays.**
  - `OptionImpex` (`option.dfy`).
  - `Vec`, as a class whose `set_impex` and `visit` are loops (`vec.dfy`).
  - Fixed-size arrays, updated in place (`array.dfy`).
- **The wire format** (`json.dfy`, `wire.dfy`, `wire_properties.dfy`).
  - `Encode` and `Decode` between overlays and an abstract JSON document.
  - They follow the generated `Serialize`/`Deserialize` implementations:
    - implicit leaves are written as `null`;
    - implicit struct fields are skipped;
    - missing struct fields are read as the implicit declared default;
    - enums are written as a bare variant name or a single-key map;
    - the enum deserializer reports `invalid_length(0)`, `unknown_variant` and "expected single
      variant key".
  - The round trip `Decode(Encode(o)) == o` is proved for every overlay the format represents
    exactly (`Canonical`).
- **The hand-written test fixture** (`fixture.dfy`, `manual_struct.dfy`, `scenarios.dfy`).
  - `KeyStructConfigImpex`, `EnumConfigImpex` and `TupleStructConfigImpex` as written by hand.
  - The documents the tests read and write, checked against the model.
  - The two methods of `KeyStructConfigImpex` that disagree with the generated code
    (`manual_struct_findings.dfy`).

Integers are unbounded `int`. Strings are `seq<char>`. JSON text, and the serde machinery that
turns it into map and sequence accesses, are abstracted into the `Json` datatype.

## Model

| member | source | states |
|---|---|---|
| Impex.IntoImplicit | impex/src/lib.rs:57-59 | `into_implicit(v)` reads back as `v`, is not explicit, and every flag in it is false |
| Impex.IntoExplicit | impex/src/lib.rs:60-62 | `into_explicit(v)` reads back as `v`, every flag is true, and it is explicit exactly when `v` has a leaf, `None` or unit variant |
| Impex.IsImplicit | impex/src/lib.rs:69-71 | `is_implicit` is `!is_explicit`, which holds exactly when every flag in the overlay is false |
| Impex.SetExplicit | impex/src/lib.rs:75-77 | after `set_explicit(v)` the overlay reads back as `v` with every flag true |
| Impex.SetImplicitAsWritten | impex/src/lib.rs:78-80 | `set_implicit` as written reads back as `v` but sets every flag to true |
| Impex.SetImplicit | impex/src/lib.rs:78-80 | the intended `set_implicit` reads back as `v`, every flag false, not explicit |
| Impex.SetImplicitAsWrittenMakesExplicit | impex/src/lib.rs:78-80 | on an implicit leaf, `set_implicit` as written makes it explicit, the corrected one leaves it implicit |
| Impex.ExtractConstruct | impex/src/lib.rs:53-72 | `into_value(into_impex(v, e)) == v` for every value and flag |
| Impex.ConstructExtract | impex/src/lib.rs:53-72 | an overlay whose flags all equal `e` is rebuilt exactly by `into_impex(into_value(o), e)` |
| Impex.ConstructExplicitness | impex_derive/src/lib.rs:117-135 | `into_impex(v, e)` is explicit iff `e` holds and `v` has a place for a flag (an empty `Vec` or array never is) |
| Impex.ConstructStamped | impex_derive/src/lib.rs:117-121 | `into_impex(v, e)` carries flag `e` at every leaf, `None` and unit variant |
| Impex.ImplicitIffStampedFalse | impex/src/lib.rs:68-71 | an overlay is not explicit exactly when every flag in it is false (the OR over fields) |
| Impex.SetImpexIsConstruct | impex_derive/src/lib.rs:144-149 | `set_impex(o, v, e)` equals `into_impex(v, e)`: nothing of the old overlay survives |
| Impex.SetImpexResult | impex/src/lib.rs:74 | after `set_impex(v, e)` the overlay reads back as `v` and is explicit iff `e` and `v` has a flag site |
| Impex.ConstructTyped | impex_derive/src/lib.rs:117-121 | `into_impex` of a value of type `t` is an overlay of type `t` |
| Impex.ExtractTyped | impex_derive/src/lib.rs:137-142 | `into_value` of an overlay of type `t` is a value of type `t` |
| Impex.TypedFits | impex_derive/src/lib.rs:144-149 | any value of the overlay's type can be set into it (same shape, same variant payload sizes) |
| Impex.DefaultOverlayIsImplicitDefault | impex_derive/src/lib.rs:347-354 | the overlay's `Default` is `into_implicit(T::default())`: reads back as the declared default, not explicit |
| Impex.DefaultOverlayTyped | impex_derive/src/lib.rs:347-354 | the overlay's `Default` has the declared type |
| Impex.VisitConstruct | impex_derive/src/lib.rs:166-179 | visiting `into_impex(v, e)` reaches the leaves of `v` in field order, each with flag `e` |
| Impex.VisitReachesValues | impex_derive/src/lib.rs:166-179 | the visitor reaches only leaves, and their values are the primitives of `into_value(o)` in order |
| Impex.EqIsEquality | impex_derive/src/lib.rs:202-214 | the derived field-by-field `eq` holds exactly when the two overlays are equal, flags included |
| Primitive.ImpexPrimitiveValue.constructor | impex/src/primitive.rs:12-14 | `new(v, e)` holds `v` with flag `e`, the overlay `into_impex(v, e)` |
| Primitive.ImpexPrimitiveValue.Default | impex/src/primitive.rs:5-9 | the derived default holds the type's default value and is implicit |
| Primitive.ImpexPrimitiveValue.IsExplicit | impex/src/primitive.rs:75-77 | `is_explicit` is the stored flag, the overlay's explicitness |
| Primitive.ImpexPrimitiveValue.IsImplicit | impex/src/primitive.rs:25-27 | `is_implicit` is the negation of `is_explicit` |
| Primitive.ImpexPrimitiveValue.IntoValue | impex/src/primitive.rs:79-81 | `into_value` is the overlay's value |
| Primitive.ImpexPrimitiveValue.MakeExplicit | impex/src/primitive.rs:16-19 | `make_explicit` sets the flag and keeps the value, returning a copy of it where the source returns a mutable borrow |
| Primitive.ImpexPrimitiveValue.SetExplicit | impex/src/primitive.rs:29-32 | the inherent `set_explicit` stores `v` with the flag set, as the trait's `set_explicit` on the overlay |
| Primitive.ImpexPrimitiveValue.SetImpex | impex/src/primitive.rs:82-85 | `set_impex(v, e)` stores `v` and `e`, as `set_impex` on the overlay |
| Primitive.ImpexPrimitiveValue.Serialize | impex/src/primitive.rs:47-58 | an explicit leaf writes its value, an implicit one writes `null` |
| Primitive.CreatePrimitive | impex/src/lib.rs:42-51 | the default wrapper settings build a fresh leaf holding `v` with flag `e` |
| Primitive.Deserialize | impex/src/primitive.rs:60-70 | succeeds exactly when the document is a value of the leaf's kind; the leaf read is explicit and writes the same document back; otherwise invalid type |
| OptionImpex.ExplicitNone | impex/src/option.rs:14-16 | `explicit_none` is a `None` that is explicit |
| OptionImpex.ImplicitNone | impex/src/option.rs:18-20 | `implicit_none` is a `None` that is not explicit |
| OptionImpex.Default | impex/src/option.rs:59-63 | the default option overlay is `implicit_none`, the implicit default `None` |
| OptionImpex.IsSome | impex/src/option.rs:22-24 | `is_some` holds iff the value read back is `Some` |
| OptionImpex.IsNone | impex/src/option.rs:26-28 | `is_none` holds iff the value is `None`, and is the negation of `is_some` |
| OptionImpex.AsRef | impex/src/option.rs:30-35 | `as_ref` is `Some(inner)` exactly for `Some`, and the inner overlay carries the value and the explicitness |
| OptionImpex.NoneFlagIsExplicitness | impex/src/option.rs:82-87 | a `None`'s flag is its explicitness; both flags read back as `None`; `into_impex(None, e)` is `None` with flag `e` |
| OptionImpex.SetDiscardsOld | impex/src/option.rs:96-101 | `set_impex` on an option ignores the old overlay and yields `into_impex(v, e)` |
| OptionImpex.VisitOption | impex/src/option.rs:135-139 | `None` visits nothing; `Some` visits exactly the leaves of its value |
| VecImpex.VecImpex.constructor | impex/src/vec.rs:6-10 | `into_impex` of a vector stamps each element with the flag and reads back as the vector |
| VecImpex.VecImpex.IsExplicit | impex/src/vec.rs:19-21 | `is_explicit` is "any element explicit"; an empty vector is never explicit |
| VecImpex.VecImpex.IntoValue | impex/src/vec.rs:23-25 | `into_value` is the element-wise `into_value`, in order |
| VecImpex.VecImpex.SetImpex | impex/src/vec.rs:27-30 | the clear-and-extend loop leaves `into_impex(v, e)`: reads back as `v`, explicit iff `e` and some element has a flag site |
| VecImpex.VecImpex.Visit | impex/src/vec.rs:38-40 | the loop appends the visits of the elements in order, reaching the primitives of the vector |
| ArrayImpex.SetImpex | impex/src/array.rs:22-26 | the in-place loop sets each slot to `set_impex(slot, v[i], e)`, so the array becomes `into_impex(v, e)` and reads back as `v` |
| ArrayImpex.Visit | impex/src/array.rs:34-36 | the loop appends the visits of the slots in order, reaching the array's primitives |
| ArrayImpex.ConstructArray | impex/src/array.rs:6-20 | `into_impex` of an array keeps its length, reads back as the array, and an empty array is never explicit |
| CustomStrategy.MyPrimitiveValue.Default | impex/tests/custom_strategy.rs:14-19 | the derived default is the type's default, implicit, with no variable name |
| CustomStrategy.MyPrimitiveValue.CreatePrimitive | impex/tests/custom_strategy.rs:109-118 | the custom wrapper builds a leaf holding `v` with flag `e` and no variable name |
| CustomStrategy.MyPrimitiveValue.IsExplicit | impex/tests/custom_strategy.rs:72-74 | `is_explicit` is the stored flag |
| CustomStrategy.MyPrimitiveValue.IsImplicit | impex/tests/custom_strategy.rs:30-32 | `is_implicit` is the negation of `is_explicit` |
| CustomStrategy.MyPrimitiveValue.IntoValue | impex/tests/custom_strategy.rs:76-78 | `into_value` is the stored value |
| CustomStrategy.MyPrimitiveValue.MakeExplicit | impex/tests/custom_strategy.rs:22-25 | `make_explicit` sets the flag and changes neither the value nor the variable name, returning a copy of the value where the source returns a mutable borrow |
| CustomStrategy.MyPrimitiveValue.SetImpex | impex/tests/custom_strategy.rs:79-82 | `set_impex(v, e)` stores `v` and `e`, keeps the variable name, as `set_impex` on the overlay |
| CustomStrategy.MyPrimitiveValue.Serialize | impex/tests/custom_strategy.rs:43-54 | explicit writes the value, implicit writes `null` |
| CustomStrategy.Deserialize | impex/tests/custom_strategy.rs:56-67 | succeeds exactly on a value of the leaf's kind; the result is explicit with no variable name and writes the same document back |
| Legacy.ImpexPrimitiveValue.IntoImpex | src/lib.rs:80-89 | `into_impex(v, e)` holds `v` with flag `e` |
| Legacy.ImpexPrimitiveValue.IntoImplicit | src/lib.rs:61-63 | `into_implicit` is `into_impex(v, false)` |
| Legacy.ImpexPrimitiveValue.IntoExplicit | src/lib.rs:64-66 | `into_explicit` is `into_impex(v, true)` |
| Legacy.ImpexPrimitiveValue.Default | src/lib.rs:48-55 | the default holds the type's default value and is implicit |
| Legacy.ImpexPrimitiveValue.IsExplicit | src/lib.rs:94-96 | `is_explicit` is the stored flag |
| Legacy.ImpexPrimitiveValue.IsImplicit | src/lib.rs:73-75 | `is_implicit` is the negation of `is_explicit` |
| Legacy.ImpexPrimitiveValue.IntoValue | src/lib.rs:98-100 | `into_value` is the stored value |
| Legacy.ImpexPrimitiveValue.MakeDefined | src/lib.rs:8-11 | `make_defined` sets the flag and keeps the value, returning a copy of it where the source returns a mutable borrow |
| Legacy.ImpexPrimitiveValue.Set | src/lib.rs:101-103 | `set(v)` stores `v` and makes the leaf explicit, as `set_explicit` on the overlay |
| Legacy.ImpexPrimitiveValue.Serialize | src/lib.rs:22-33 | explicit writes the value, implicit writes `null` |
| Legacy.Deserialize | src/lib.rs:36-46 | succeeds exactly on a value of the leaf's kind; the result is explicit and writes the same document back; otherwise invalid type |
| Wire.DecodePrim | impex/src/primitive.rs:60-70 | a primitive read has the requested kind and is written back as the same document; anything else is an invalid type |
| Wire.Decode | impex_derive/src/lib.rs:306-317 | every overlay the deserializer produces has the requested type |
| Wire.DecodeStruct | impex_derive/src/lib.rs:259-274 | a named struct read from a map or sequence has the struct's type, missing fields included |
| Wire.DecodePositional | impex_derive/src/lib.rs:522-526 | a tuple struct or tuple variant payload yields exactly one typed overlay per declared field |
| Wire.DecodeNamed | impex_derive/src/lib.rs:1270-1283 | a named-variant payload yields exactly one typed overlay per declared field |
| Wire.DecodeVariant | impex_derive/src/lib.rs:1266-1321 | a variant payload yields the variant with that tag; a unit variant is read as explicit |
| Wire.DecodeEnum | impex_derive/src/lib.rs:1380-1404 | an enum read from a string or a map has the enum's type |
| WireProperties.LeafRoundTrip | impex/src/primitive.rs:47-70 | a leaf writes its value or `null`; an explicit leaf reads back as itself |
| WireProperties.OptionWire | impex/src/option.rs:104-128 | `None` writes `null` whatever its flag; `null` reads as an explicit `None`; any other document reads as `Some` of the inner value |
| WireProperties.StructKeyPresentIffExplicit | impex_derive/src/lib.rs:231-238 | a struct is written as a map, and a field's key is in it exactly when that field is explicit |
| WireProperties.ImplicitStructEncodesEmpty | impex_derive/src/lib.rs:231-238 | a struct with nothing explicit is written as `{}` |
| WireProperties.MissingKeyReadsImplicitDefault | impex_derive/src/lib.rs:259-274 | a field whose key is missing is read as `into_impex(default.field, false)` and is not explicit |
| WireProperties.EmptyObjectReadsDefault | impex_derive/src/lib.rs:259-274 | `{}` reads as the struct's implicit default overlay |
| WireProperties.EnumFromString | impex_derive/src/lib.rs:1380-1388 | a string reads as an enum value exactly when it names a unit variant, and then as that explicit unit variant; any other string, a data variant's name included, is `unknown_variant` |
| WireProperties.EnumMapErrors | impex_derive/src/lib.rs:1390-1404 | an empty map is `invalid_length(0)`; a single unknown key is `unknown_variant`; any second key is "expected single variant key", checked after an unknown first key and after a known key whose payload reads |
| WireProperties.UnitKeyIgnoresValue | impex_derive/src/lib.rs:1308-1319 | a unit variant's key in a map is read as that explicit unit variant, whatever its value |
| WireProperties.UnitVariantWire | impex_derive/src/lib.rs:1240-1244 | a unit variant is written as its bare name and reads back as the explicit unit variant |
| WireProperties.NamedPayloadKeys | impex_derive/src/lib.rs:1195-1210 | a named variant writes every field's key, in declaration order, implicit ones included |
| WireProperties.DataVariantShape | impex_derive/src/lib.rs:1190-1246 | a data variant is written as a map with the variant name as its one key, holding a map, a bare value or an array by the variant's form |
| WireProperties.RoundTripStruct | impex_derive/src/lib.rs:231-274 | a canonical struct whose explicit fields round-trip reads back as itself |
| WireProperties.RoundTripVariant | impex_derive/src/lib.rs:1190-1321 | a data variant whose fields round-trip reads back as itself |
| WireProperties.RoundTrip | impex_derive/src/lib.rs:292-317 | `Decode(Encode(o)) == Ok(o)` for every canonical overlay of every well-formed type |
| ManualStruct.TupleStructConfigImpex.IntoImpex | impex/tests/manual_struct/mod.rs:334-339 | builds `into_impex(v, e)` of the tuple struct |
| ManualStruct.TupleStructConfigImpex.Default | impex/tests/manual_struct/mod.rs:361-369 | reads back as `(42, 43)` and is implicit |
| ManualStruct.TupleStructConfigImpex.IsExplicit | impex/tests/manual_struct/mod.rs:344-346 | "either field explicit", the overlay's explicitness |
| ManualStruct.TupleStructConfigImpex.IntoValue | impex/tests/manual_struct/mod.rs:348-353 | the field-wise value, of the tuple struct's type |
| ManualStruct.TupleStructConfigImpex.SetImpex | impex/tests/manual_struct/mod.rs:355-358 | sets both fields, as `set_impex` on the overlay; reads back as `v` |
| ManualStruct.TupleStructConfigImpex.Eq | impex/tests/manual_struct/mod.rs:376-378 | equal exactly when the overlays are equal |
| ManualStruct.TupleStructConfigImpex.Visit | impex/tests/manual_struct/mod.rs:436-439 | visits the two fields in order |
| ManualStruct.EnumIsExplicit | impex/tests/manual_struct/mod.rs:213-228 | the per-variant OR is the overlay's explicitness |
| ManualStruct.EnumIntoValue | impex/tests/manual_struct/mod.rs:230-245 | the per-variant value, of the enum's type |
| ManualStruct.EnumSetImpex | impex/tests/manual_struct/mod.rs:247-265 | rebuilds the overlay of the new variant, as `set_impex` on the overlay; reads back as `v` with every flag `e` |
| ManualStruct.EnumConfigDefault | impex/tests/manual_struct/mod.rs:268-286 | `Bar("Bar", 42, (42, 43))`, implicit |
| ManualStruct.EnumEq | impex/tests/manual_struct/mod.rs:294-314 | equal exactly when the overlays are equal (different variants never are) |
| ManualStruct.EnumVisit | impex/tests/manual_struct/mod.rs:412-427 | visits the active variant's fields in order |
| ManualStruct.KeyStructConfigImpex.IntoImpex | impex/tests/manual_struct/mod.rs:64-74 | builds `into_impex(v, e)` of the four fields |
| ManualStruct.KeyStructConfigImpex.Default | impex/tests/manual_struct/mod.rs:101-111 | reads back as the declared default and is implicit |
| ManualStruct.KeyStructConfigImpex.IsExplicitAsWritten | impex/tests/manual_struct/mod.rs:79-83 | as written: "one of the first three fields explicit" |
| ManualStruct.KeyStructConfigImpex.IsExplicit | impex/tests/manual_struct/mod.rs:79-83 | corrected: the overlay's explicitness over all four fields |
| ManualStruct.KeyStructConfigImpex.IntoValue | impex/tests/manual_struct/mod.rs:85-92 | the field-wise value, of the struct's type |
| ManualStruct.KeyStructConfigImpex.SetImpexAsWritten | impex/tests/manual_struct/mod.rs:94-98 | as written: sets the first three fields and keeps the fourth, so a new tuple field is never read back |
| ManualStruct.KeyStructConfigImpex.SetImpex | impex/tests/manual_struct/mod.rs:94-98 | corrected: `set_impex` on the whole overlay; reads back as `v` |
| ManualStruct.KeyStructConfigImpex.Eq | impex/tests/manual_struct/mod.rs:120-125 | equal exactly when the overlays are equal |
| ManualStruct.KeyStructConfigImpex.Visit | impex/tests/manual_struct/mod.rs:396-401 | visits the four fields in order |
| ManualStructFindings.ExplicitTupleFieldGoesUnseen | impex/tests/manual_struct/mod.rs:79-83 | an explicit tuple field alone leaves `is_explicit` as written false while the overlay is explicit |
| ManualStructFindings.DefaultWithExplicitTuple | impex/tests/manual_struct/mod.rs:79-83 | a concrete such overlay |
| ManualStructFindings.SetImpexKeepsStaleTupleField | impex/tests/manual_struct/mod.rs:94-98 | a concrete `set_impex` after which `into_value` is not the value that was set |
| Fixture.TupleWellFormed | impex/tests/manual_struct/mod.rs:36-42 | the tuple struct's schema and default are well formed |
| Fixture.EnumWellFormed | impex/tests/manual_struct/mod.rs:21-33 | the enum's schema (distinct variant names, default of its type) is well formed |
| Fixture.KeyDefaultHasType | impex/tests/manual_struct/mod.rs:9-18 | the declared default has the struct's type |
| Fixture.KeyWellFormed | impex/tests/manual_struct/mod.rs:2-18 | the key struct's schema is well formed |
| Fixture.OptionStructsWellFormed | impex/tests/serde.rs:325-339 | the two option structs' schemas are well formed |
| Fixture.CollectionWellFormed | impex/tests/collection.rs:6-10 | the collection test struct's schema is well formed |
| Scenarios.NumCoresOnly | impex/tests/serde.rs:24-36 | `{"num_cores":3}` reads as explicit `num_cores` with `num_threads` the implicit `[42]`, and is written back unchanged |
| Scenarios.BarMiddleSetFromDefault | impex/tests/serde.rs:38-41 | setting the middle `Bar` field explicitly in the implicit default enum makes the enum explicit |
| Scenarios.BarMiddleSetWrites | impex/tests/serde.rs:42-47 | that enum is written as `{"Bar":[null,43,[null,null]]}` |
| Scenarios.BarMiddleSetDocument | impex/tests/serde.rs:42-47 | the whole document is `{"num_cores":3,"enum_config":{"Bar":[null,43,[null,null]]}}` |
| Scenarios.BarMiddleJsonUnreadable | impex/tests/serde.rs:44-47 | that enum document does not read back: its `null` leaves are an invalid type |
| Scenarios.CustomBarSetExplicit | impex/tests/serde.rs:49-66 | `set_explicit(Bar("Custom", 42, default))` makes every field explicit, the third equal to `into_explicit((42, 43))` |
| Scenarios.CustomBarWrites | impex/tests/serde.rs:49-70 | that enum is written as `{"Bar":["Custom",42,[42,43]]}` and reads back as itself |
| Scenarios.CustomBarDocument | impex/tests/serde.rs:67-70 | the whole document is `{"num_cores":3,"enum_config":{"Bar":["Custom",42,[42,43]]}}` |
| Scenarios.TupleFromArray | impex/tests/serde.rs:97-103 | `[42, 84]` reads as a tuple struct of two explicit leaves |
| Scenarios.OptionStructsShape | impex/tests/serde.rs:325-339 | the option structs' defaults are `None` and `Some(42)` |
| Scenarios.OptionNullKept | impex/tests/serde.rs:341-355 | `{"opt":null}` reads as an explicit `None` and is written back unchanged, whichever default |
| Scenarios.OptionValueKept | impex/tests/serde.rs:373-387 | `{"opt":42}` reads as explicit `Some(42)` and is written back unchanged |
| Scenarios.OptionMissingImplicit | impex/tests/serde.rs:357-371 | `{}` reads as the implicit default of the field and is written back as `{}`, for any option default |
| Scenarios.OptionMissingNone | impex/tests/serde.rs:357-371 | with default `None`, `{}` reads as implicit `None` and is written as `{}` |
| Scenarios.OptionMissingSome | impex/tests/serde.rs:405-423 | with default `Some(42)`, `{}` reads as implicit `Some(42)` and is written as `{}` |
| Scenarios.CollectionRoundTrip | impex/tests/collection.rs:4-20 | `{"bar":[1]}` reads as implicit `foo: None` and `bar: [1]`, and is written back unchanged |

## Left out

- The procedural-macro plumbing is not modelled: token generation, generics, the wrapper-settings
  type parameter, bounds and the `*Serde` helper struct. The model states the semantics of the
  code the macro generates, once, over a type schema.
- serde and serde_json themselves are not modelled: JSON text, whitespace and number formats. The
  deserializer follows serde_json's in-memory `Value` deserializer, whose map access hands out
  whole entries and whose sequence access counts the elements. Parsing JSON text with
  `serde_json::from_str`, as the tests do, accepts and rejects the same documents, but two error
  kinds differ:
  - a sequence longer than a struct, tuple struct, tuple variant or array expects is
    `invalid_length` in the model (`Wire.DecodeStruct`, `Wire.DecodePositional`, the array case
    of `Wire.Decode`), where text parsing reports trailing characters;
  - an enum map whose first key is unknown is `unknown_variant` in the model, or "expected
    single variant key" when a second key follows (`WireProperties.EnumMapErrors`). On text, the
    generated `visit_map` (impex_derive/src/lib.rs:1394-1402) asks for the next key without
    reading the unknown key's value, and the parser reports a missing `,` or `}` instead. After a
    known key whose payload reads, both agree on "expected single variant key".
- Integer widths are not modelled: `u32`, `i32`, `i64` and `u8` are one unbounded integer kind.
  Booleans, floats and unit structs are left out because the fixture does not use them.
- The `Visitor` trait's user hook is not modelled. Visiting is the sequence of leaves reached, in
  order; the effect a visitor has on them is up to the caller.
- Primitive.ImpexPrimitiveValue.MakeExplicit: the source returns a mutable borrow of the value
  (impex/src/primitive.rs:16-19); the model returns a copy, so writing through the borrow is not
  captured. A write after `make_explicit` is modelled by `Primitive.ImpexPrimitiveValue.SetExplicit`.
- CustomStrategy.MyPrimitiveValue.MakeExplicit: the source returns a mutable borrow
  (impex/tests/custom_strategy.rs:22-25); the model returns a copy. A write through it is
  modelled by `CustomStrategy.MyPrimitiveValue.SetImpex` with the flag `true`.
- Legacy.ImpexPrimitiveValue.MakeDefined: the source returns a mutable borrow (src/lib.rs:8-11),
  through which `set` writes (src/lib.rs:101-103); the model returns a copy. That write is
  modelled by `Legacy.ImpexPrimitiveValue.Set`.
- `OptionImpex::as_mut` (impex/src/option.rs:37-42) is not modelled: it hands out a mutable
  borrow, and a borrow has no counterpart here. Setting through it is `set_impex` on the inner
  overlay.
- `Deref`, `Clone`, `Debug` and the derived `PartialEq` of plain (non-overlay) types are left
  out. They are standard derives.
- The variable name of `MyPrimitiveValue` is an opaque number (`VariableName`). It is carried
  through but never set, because the test never sets it.
- The ignored test that skips implicit fields inside an enum payload
  (impex/tests/serde.rs:73-95) is not modelled, because that feature is removed in the code.
- Derived data variants with zero fields are excluded by `WellFormed`, because the macro does
  not handle them.
- The older root crate's `meta_data` test (tests/serde.rs) uses a crate that is not part of this
  model. Only the root crate's leaf type (src/lib.rs) is modelled.
- `Fixture`: the key struct follows the hand-written declaration
  (impex/tests/manual_struct/mod.rs:2-18), where `num_threads` is `Vec<u32>` with default
  `vec![42]`. The generated-struct declaration (impex/tests/generated_struct/mod.rs:4-21) makes
  it `u32` with default 42, which impex/tests/serde.rs:33 does not match. The hand-written
  fixture's own serde derives (impex/tests/manual_struct/mod.rs:169-185, an externally tagged
  enum whose `Foo` fields skip implicit values) are not modelled: the wire format follows the
  generated types, which the tests use (impex/tests/serde.rs:11-15).
- ManualStructFindings.ExplicitTupleFieldGoesUnseen: the `modifies` clause covers the tuple
  field only. It states the discrepancy for that one update, not for every state.
- Impex.SetImplicitAsWrittenMakesExplicit: stated on a single leaf, the smallest input that
  shows the discrepancy.

## Findings

| source | as written | input that shows it | evidently intended | confidence | as-written member | corrected member |
|---|---|---|---|---|---|---|
| impex/src/lib.rs:78-80 | `set_implicit(v)` calls `set_impex(v, true)`, so it marks the value explicit | any implicit leaf, e.g. `Leaf(0, false)` set implicitly to 1 becomes explicit | `set_impex(v, false)`: the new value stays implicit | high (not executed) | Impex.SetImplicitAsWritten, Impex.SetImplicitAsWrittenMakesExplicit | Impex.SetImplicit |
| impex/tests/manual_struct/mod.rs:79-83 | the hand-written `is_explicit` ORs only `num_cores`, `num_threads` and `enum_config`, leaving out `tuple_struct_config` | the default with only `tuple_struct_config.0` set explicitly | OR over all four fields, as the generated code does | high (not executed) | ManualStruct.KeyStructConfigImpex.IsExplicitAsWritten, ManualStructFindings.ExplicitTupleFieldGoesUnseen, ManualStructFindings.DefaultWithExplicitTuple | ManualStruct.KeyStructConfigImpex.IsExplicit |
| impex/tests/manual_struct/mod.rs:94-98 | the hand-written `set_impex` sets three fields and leaves `tuple_struct_config` unchanged | the default overlay set to a value whose tuple field is `(1, 2)` | set all four fields, so `into_value` returns the value set | high (not executed) | ManualStruct.KeyStructConfigImpex.SetImpexAsWritten, ManualStructFindings.SetImpexKeepsStaleTupleField | ManualStruct.KeyStructConfigImpex.SetImpex |
