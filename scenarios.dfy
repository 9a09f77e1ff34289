/**
 * The fixture's documented behaviour, on concrete documents: what `{"num_cores":3}` reads as and
 * writes back, what a partly explicit enum payload writes, the option structs with `null`, a
 * value and a missing key, and the two fields the hand-written `KeyStructConfigImpex` forgets.
 */
module Scenarios {
  import opened Wrappers
  import opened Values
  import opened Impex
  import opened JsonData
  import opened Wire
  import opened WireProperties
  import opened Fixture
  import opened ManualStruct

  /** `{"num_cores":3}` with everything else implicit from the default. */
  function ReadNumCores(n: int): Overlay {
    StructO([Leaf(PInt(n), true), Construct(VecV([PrimV(PInt(42))]), false),
             Construct(EnumDefault, false), Construct(TupleDefault, false)])
  }

  lemma ReadNumCoresTyped(n: int)
    ensures WellFormed(KeyTy) && Typed(ReadNumCores(n), KeyTy) && Canonical(ReadNumCores(n), KeyTy)
  {
    KeyWellFormed();
    KeyDefaultHasType();
    var o := ReadNumCores(n);
    assert o.fields[1..] == ConstructEach(KeyDefault.fields[1..], false);
    forall i | 1 <= i < 4 ensures Typed(o.fields[i], KeyTy.fields[i]) && !IsExplicit(o.fields[i]) {
      ConstructTyped(KeyDefault.fields[i], KeyTy.fields[i], false);
      ConstructExplicitness(KeyDefault.fields[i], false);
    }
  }

  /** The entries a struct writes when only its first field is explicit. */
  lemma OnlyFirstFieldWritten(os: seq<Overlay>, t: Ty)
    requires WellFormed(t) && Typed(StructO(os), t) && |os| >= 1 && IsExplicit(os[0])
    requires forall i | 1 <= i < |os| :: !IsExplicit(os[i])
    requires AllWellFormed(t.fields)
    ensures Encode(StructO(os), t) == JObj([Entry(t.names[0], Encode(os[0], t.fields[0]))])
  {
    NothingKeptWritesNothing(os, t.names, t.fields, true, 1);
  }

  /** `{"num_cores":n}` reads as an explicit `num_cores` with every other field the implicit
    * default (so `num_threads[0]` is an implicit 42), and writes back to the same document. */
  lemma NumCoresOnly(n: int)
    ensures WellFormed(KeyTy) && Typed(ReadNumCores(n), KeyTy)
    ensures Encode(ReadNumCores(n), KeyTy) == JObj([Entry("num_cores", JNum(n))])
    ensures Decode(JObj([Entry("num_cores", JNum(n))]), KeyTy) == Ok(ReadNumCores(n))
    ensures ReadNumCores(n).fields[1] == VecO([Leaf(PInt(42), false)])
  {
    ReadNumCoresTyped(n);
    var o := ReadNumCores(n);
    forall i | 1 <= i < 4 ensures !IsExplicit(o.fields[i]) {
      ConstructExplicitness(KeyDefault.fields[i], false);
    }
    assert AllWellFormed(KeyTy.fields);
    OnlyFirstFieldWritten(o.fields, KeyTy);
    RoundTrip(o, KeyTy);
  }

  /** `Bar`'s middle field after `set_explicit(43)`, the rest of the default payload implicit. */
  const BarMiddleSet: Overlay :=
    VariantO(BarTag, [Leaf(PStr("Bar"), false), Leaf(PInt(43), true), Construct(TupleDefault, false)])

  /** What `BarMiddleSet` writes: the implicit fields of a payload are written as `null`. */
  const BarMiddleJson: Json := JObj([Entry("Bar", JArr([JNull, JNum(43), JArr([JNull, JNull])]))])

  lemma BarMiddleSetTyped()
    ensures WellFormed(EnumTy) && Typed(BarMiddleSet, EnumTy)
  {
    EnumWellFormed();
    TupleWellFormed();
    ConstructTyped(TupleDefault, TupleTy, false);
  }

  /** `BarMiddleSet` is the implicit default enum with `set_explicit(43)` applied to `Bar`'s
    * middle field, and the enum is explicit afterwards. */
  lemma BarMiddleSetFromDefault()
    ensures Construct(EnumDefault, false).VariantO? && |Construct(EnumDefault, false).fields| == 3
    ensures Fits(Construct(EnumDefault, false).fields[1], PrimV(PInt(43)))
    ensures BarMiddleSet == VariantO(BarTag, Construct(EnumDefault, false).fields[1 :=
      SetExplicit(Construct(EnumDefault, false).fields[1], PrimV(PInt(43)))])
    ensures !IsExplicit(Construct(EnumDefault, false)) && IsExplicit(BarMiddleSet)
  {
    var d := Construct(EnumDefault, false);
    assert d == VariantO(BarTag, ConstructEach(EnumDefault.fields, false));
    var ef := EnumDefault.fields;
    assert ef == [PrimV(PStr("Bar")), PrimV(PInt(42)), TupleDefault];
    assert d.fields[0] == Construct(ef[0], false) == Leaf(PStr("Bar"), false);
    assert d.fields[1] == Construct(ef[1], false) == Leaf(PInt(42), false);
    assert d.fields[2] == Construct(ef[2], false);
    assert BarMiddleSet.fields == d.fields[1 := Leaf(PInt(43), true)];
    ConstructExplicitness(EnumDefault, false);
    assert IsExplicit(BarMiddleSet.fields[1]);
  }

  /** The payload is written whole, with `null` for the fields still implicit. */
  lemma BarMiddleSetWrites()
    ensures WellFormed(EnumTy) && Typed(BarMiddleSet, EnumTy)
    ensures Encode(BarMiddleSet, EnumTy) == BarMiddleJson
  {
    BarMiddleSetTyped();
    var tup := Construct(TupleDefault, false);
    assert tup == TupleO([Leaf(PInt(42), false), Leaf(PInt(43), false)]);
    assert Encode(tup, TupleTy) == JArr([JNull, JNull]) by {
      assert EncodeList(tup.fields, TupleTy.fields) == [JNull, JNull];
    }
    var os := BarMiddleSet.fields;
    var tys := EnumTy.variants[BarTag].fields;
    assert Encode(os[0], tys[0]) == JNull && Encode(os[1], tys[1]) == JNum(43);
    EncodeThree(os, tys);
  }

  /** A three-field payload is written field by field. */
  lemma EncodeThree(os: seq<Overlay>, tys: seq<Ty>)
    requires |os| == |tys| == 3 && AllWellFormed(tys) && forall i | 0 <= i < 3 :: Typed(os[i], tys[i])
    ensures EncodeList(os, tys) == [Encode(os[0], tys[0]), Encode(os[1], tys[1]), Encode(os[2], tys[2])]
  {
  }

  /** What a payload with implicit fields writes does not read back: `null` is no string. */
  lemma BarMiddleJsonUnreadable()
    ensures WellFormed(EnumTy) && Decode(BarMiddleJson, EnumTy) == Err(InvalidType)
  {
    EnumWellFormed();
    var vs := EnumTy.variants;
    assert VariantNames(vs) == ["Foo", "Bar"];
    assert IndexOf(VariantNames(vs), "Bar") == Some(BarTag) by {
      assert "Foo" != "Bar" by { assert "Foo"[0] != "Bar"[0]; }
    }
    var payload := BarMiddleJson.entries[0].value;
    assert DecodeList(payload.items, vs[BarTag].fields) == Err(InvalidType);
    assert DecodePositional(payload, vs[BarTag].fields) == Err(InvalidType);
    assert DecodeVariant(payload, BarTag, vs[BarTag]) == Err(InvalidType);
  }

  /** `{"num_cores":n}` read, then the enum field replaced by `e`. */
  function WithEnum(n: int, e: Overlay): Overlay {
    StructO(ReadNumCores(n).fields[2 := e])
  }

  /** The entries a four-field struct writes when only its first and third fields are
    * explicit. */
  lemma FirstAndThirdWritten(os: seq<Overlay>, t: Ty)
    requires WellFormed(t) && Typed(StructO(os), t) && |os| == 4 && AllWellFormed(t.fields)
    requires IsExplicit(os[0]) && !IsExplicit(os[1]) && IsExplicit(os[2]) && !IsExplicit(os[3])
    ensures Encode(StructO(os), t)
         == JObj([Entry(t.names[0], Encode(os[0], t.fields[0])), Entry(t.names[2], Encode(os[2], t.fields[2]))])
  {
    NothingKeptWritesNothing(os, t.names, t.fields, true, 3);
    var e2 := Entry(t.names[2], Encode(os[2], t.fields[2]));
    assert EncodeFieldsFrom(os, t.names, t.fields, true, 2) == [e2];
    assert EncodeFieldsFrom(os, t.names, t.fields, true, 1) == [e2];
  }

  /** With `num_cores` and the enum explicit and the rest implicit, exactly those two fields
    * are written, in declaration order. */
  lemma NumCoresAndEnumWritten(n: int, e: Overlay)
    requires Typed(e, EnumTy) && IsExplicit(e)
    ensures WellFormed(KeyTy) && WellFormed(EnumTy) && Typed(WithEnum(n, e), KeyTy)
    ensures Encode(WithEnum(n, e), KeyTy)
         == JObj([Entry("num_cores", JNum(n)), Entry("enum_config", Encode(e, EnumTy))])
  {
    ReadNumCoresTyped(n);
    EnumWellFormed();
    var r := ReadNumCores(n);
    ReplacedFieldTyped(r.fields, KeyTy, 2, e);
    ConstructExplicitness(KeyDefault.fields[1], false);
    ConstructExplicitness(KeyDefault.fields[3], false);
    FirstAndThirdWritten(WithEnum(n, e).fields, KeyTy);
  }

  /** A struct stays typed when one field is replaced by another of the field's type. */
  lemma ReplacedFieldTyped(os: seq<Overlay>, t: Ty, i: nat, e: Overlay)
    requires Typed(StructO(os), t) && i < |os| && Typed(e, t.fields[i])
    ensures Typed(StructO(os[i := e]), t)
  {
  }

  /** The document the fixture's test expects after the middle field of `Bar` was set. */
  lemma BarMiddleSetDocument(n: int)
    ensures WellFormed(KeyTy) && Typed(WithEnum(n, BarMiddleSet), KeyTy)
    ensures Encode(WithEnum(n, BarMiddleSet), KeyTy)
         == JObj([Entry("num_cores", JNum(n)), Entry("enum_config", BarMiddleJson)])
  {
    BarMiddleSetTyped();
    BarMiddleSetFromDefault();
    BarMiddleSetWrites();
    NumCoresAndEnumWritten(n, BarMiddleSet);
  }

  /** `EnumConfig::Bar("Custom".into(), 42, Default::default())`. */
  const CustomBar: Value := VariantV(BarTag, [PrimV(PStr("Custom")), PrimV(PInt(42)), TupleDefault])

  lemma CustomBarHasType()
    ensures WellFormed(EnumTy) && HasType(CustomBar, EnumTy)
  {
    EnumWellFormed();
    assert HasType(TupleDefault, TupleTy);
  }

  /** `set_explicit(Bar("Custom", 42, default))` on the enum makes every field explicit, the
    * tuple field equal to `into_explicit(TupleStructConfig::default())`. */
  lemma CustomBarSetExplicit()
    ensures Fits(BarMiddleSet, CustomBar)
    ensures SetExplicit(BarMiddleSet, CustomBar) == Construct(CustomBar, true)
    ensures Construct(CustomBar, true).fields
         == [Leaf(PStr("Custom"), true), Leaf(PInt(42), true), IntoExplicit(TupleDefault)]
  {
    BarMiddleSetTyped();
    CustomBarHasType();
    TypedFits(BarMiddleSet, CustomBar, EnumTy);
    SetImpexIsConstruct(BarMiddleSet, CustomBar, true);
    CustomBarFields();
  }

  lemma CustomBarFields()
    ensures Construct(CustomBar, true).fields
         == [Leaf(PStr("Custom"), true), Leaf(PInt(42), true), IntoExplicit(TupleDefault)]
  {
    var cf := Construct(CustomBar, true).fields;
    assert cf == ConstructEach(CustomBar.fields, true);
    assert cf[0] == Construct(CustomBar.fields[0], true);
    assert cf[1] == Construct(CustomBar.fields[1], true);
    assert cf[2] == Construct(TupleDefault, true) == IntoExplicit(TupleDefault);
  }

  const CustomBarJson: Json := JObj([Entry("Bar", JArr([JStr("Custom"), JNum(42), JArr([JNum(42), JNum(43)])]))])

  lemma CustomBarTyped()
    ensures WellFormed(EnumTy) && Typed(Construct(CustomBar, true), EnumTy)
  {
    CustomBarHasType();
    ConstructTyped(CustomBar, EnumTy, true);
  }

  lemma CustomBarEncodes()
    ensures WellFormed(EnumTy) && Typed(Construct(CustomBar, true), EnumTy)
    ensures Encode(Construct(CustomBar, true), EnumTy) == CustomBarJson
  {
    CustomBarTyped();
    CustomBarFields();
    TupleWellFormed();
    var tup := Construct(TupleDefault, true);
    assert tup == TupleO([Leaf(PInt(42), true), Leaf(PInt(43), true)]);
    assert Encode(tup, TupleTy) == JArr([JNum(42), JNum(43)]) by {
      assert EncodeList(tup.fields, TupleTy.fields) == [JNum(42), JNum(43)];
    }
    var os := Construct(CustomBar, true).fields;
    assert EncodeList(os, EnumTy.variants[BarTag].fields) == [JStr("Custom"), JNum(42), JArr([JNum(42), JNum(43)])];
  }

  lemma CustomBarCanonical()
    ensures WellFormed(EnumTy) && Typed(Construct(CustomBar, true), EnumTy)
    ensures Canonical(Construct(CustomBar, true), EnumTy)
  {
    CustomBarTyped();
    CustomBarFields();
    TupleWellFormed();
    var tup := Construct(TupleDefault, true);
    assert tup == TupleO([Leaf(PInt(42), true), Leaf(PInt(43), true)]);
    assert Canonical(tup, TupleTy);
  }

  /** The explicit `Custom` payload is written with every field, and reads back as it was. */
  lemma CustomBarWrites()
    ensures WellFormed(EnumTy) && Typed(Construct(CustomBar, true), EnumTy)
    ensures IsExplicit(Construct(CustomBar, true))
    ensures Encode(Construct(CustomBar, true), EnumTy) == CustomBarJson
    ensures Decode(CustomBarJson, EnumTy) == Ok(Construct(CustomBar, true))
  {
    CustomBarFields();
    assert IsExplicit(Construct(CustomBar, true).fields[0]);
    CustomBarEncodes();
    CustomBarCanonical();
    RoundTrip(Construct(CustomBar, true), EnumTy);
  }

  /** The document the fixture's test expects after `set_explicit(Bar("Custom", 42, default))`. */
  lemma CustomBarDocument(n: int)
    ensures WellFormed(KeyTy) && Typed(WithEnum(n, Construct(CustomBar, true)), KeyTy)
    ensures Encode(WithEnum(n, Construct(CustomBar, true)), KeyTy)
         == JObj([Entry("num_cores", JNum(n)), Entry("enum_config", CustomBarJson)])
  {
    CustomBarWrites();
    NumCoresAndEnumWritten(n, Construct(CustomBar, true));
  }

  /** `[42, 84]` reads as a tuple struct of two explicit fields. */
  lemma TupleFromArray()
    ensures WellFormed(TupleTy)
    ensures Decode(JArr([JNum(42), JNum(84)]), TupleTy) == Ok(TupleO([Leaf(PInt(42), true), Leaf(PInt(84), true)]))
  {
    TupleWellFormed();
    var o := TupleO([Leaf(PInt(42), true), Leaf(PInt(84), true)]);
    assert Typed(o, TupleTy) && Canonical(o, TupleTy);
    assert EncodeList(o.fields, TupleTy.fields) == [JNum(42), JNum(84)];
    RoundTrip(o, TupleTy);
  }

  // ---------------------------------------------------------------------------------------
  // The one-field option structs
  // ---------------------------------------------------------------------------------------

  /** A struct with one field `opt: Option<i32>`, whatever its default. */
  predicate OptionStruct(t: Ty) {
    WellFormed(t) && t.TStruct? && t.names == ["opt"] && t.fields == [TOption(TPrim(KInt))]
  }

  lemma OptionStructsShape()
    ensures OptionStruct(OptionTestTy) && OptionStruct(OptionSomeDefaultTy)
    ensures OptionTestTy.dflt == StructV([NoneV])
    ensures OptionSomeDefaultTy.dflt == StructV([SomeV(PrimV(PInt(42)))])
  {
    OptionStructsWellFormed();
  }

  /** `{"opt":null}` reads, whatever the declared default, as an explicit `None`, and is
    * written back as it was. */
  lemma OptionNullKept(t: Ty)
    requires OptionStruct(t)
    ensures Typed(StructO([OptNone(true)]), t) && IsExplicit(StructO([OptNone(true)]))
    ensures Encode(StructO([OptNone(true)]), t) == JObj([Entry("opt", JNull)])
    ensures Decode(JObj([Entry("opt", JNull)]), t) == Ok(StructO([OptNone(true)]))
  {
    var o := StructO([OptNone(true)]);
    assert IsExplicit(o.fields[0]);
    assert AllWellFormed(t.fields);
    OnlyFirstFieldWritten(o.fields, t);
    RoundTrip(o, t);
  }

  /** `{"opt":42}` reads as an explicit `Some(42)`, and is written back as it was. */
  lemma OptionValueKept(t: Ty)
    requires OptionStruct(t)
    ensures Typed(StructO([OptSome(Leaf(PInt(42), true))]), t)
    ensures IsExplicit(StructO([OptSome(Leaf(PInt(42), true))]))
    ensures Encode(StructO([OptSome(Leaf(PInt(42), true))]), t) == JObj([Entry("opt", JNum(42))])
    ensures Decode(JObj([Entry("opt", JNum(42))]), t) == Ok(StructO([OptSome(Leaf(PInt(42), true))]))
  {
    var o := StructO([OptSome(Leaf(PInt(42), true))]);
    assert IsExplicit(o.fields[0]);
    assert AllWellFormed(t.fields);
    OnlyFirstFieldWritten(o.fields, t);
    RoundTrip(o, t);
  }

  /** `{}` reads as the declared default made implicit, which writes nothing. */
  lemma OptionMissingImplicit(t: Ty, d: Value)
    requires OptionStruct(t) && t.dflt == StructV([d])
    ensures Decode(JObj([]), t) == Ok(StructO([Construct(d, false)]))
    ensures !IsExplicit(StructO([Construct(d, false)]))
    ensures Encode(StructO([Construct(d, false)]), t) == JObj([])
  {
    EmptyObjectReadsDefault(t);
    assert ConstructEach([d], false) == [Construct(d, false)];
    ConstructExplicitness(t.dflt, false);
    DefaultOverlayTyped(t);
    ImplicitStructEncodesEmpty([Construct(d, false)], t);
  }

  /** With default `None`, `{}` reads as an implicit `None`. */
  lemma OptionMissingNone()
    ensures Decode(JObj([]), OptionTestTy) == Ok(StructO([OptNone(false)]))
    ensures !IsExplicit(StructO([OptNone(false)]))
    ensures Encode(StructO([OptNone(false)]), OptionTestTy) == JObj([])
  {
    OptionStructsShape();
    OptionMissingImplicit(OptionTestTy, NoneV);
  }

  /** With default `Some(42)`, `{}` reads as an implicit `Some(42)`. */
  lemma OptionMissingSome()
    ensures Decode(JObj([]), OptionSomeDefaultTy) == Ok(StructO([OptSome(Leaf(PInt(42), false))]))
    ensures !IsExplicit(StructO([OptSome(Leaf(PInt(42), false))]))
    ensures Encode(StructO([OptSome(Leaf(PInt(42), false))]), OptionSomeDefaultTy) == JObj([])
  {
    OptionStructsShape();
    OptionMissingImplicit(OptionSomeDefaultTy, SomeV(PrimV(PInt(42))));
  }

  // ---------------------------------------------------------------------------------------
  // A struct of an optional array and a Vec
  // ---------------------------------------------------------------------------------------

  /** A struct shaped like `Test`: `foo: Option<[i32; 3]>`, `bar: Vec<u8>`, default
    * `(None, vec![])`. */
  predicate CollectionStruct(t: Ty) {
    WellFormed(t) && t.TStruct? && t.names == ["foo", "bar"]
    && t.fields == [TOption(TArray(TPrim(KInt), 3)), TVec(TPrim(KInt))]
    && t.dflt == StructV([NoneV, VecV([])])
  }

  lemma CollectionShape()
    ensures CollectionStruct(CollectionTy)
  {
    CollectionWellFormed();
  }

  /** `{"bar":[1]}`: `foo` is the implicit `None` of the default, `bar` the explicit `[1]`. */
  function CollectionRead(): Overlay {
    StructO([OptNone(false), VecO([Leaf(PInt(1), true)])])
  }

  lemma CollectionReadTyped(t: Ty)
    requires CollectionStruct(t)
    ensures Typed(CollectionRead(), t) && Canonical(CollectionRead(), t)
  {
    var os := CollectionRead().fields;
    BarCanonical();
    assert AllWellFormed(t.fields);
    SecondFieldCanonical(os, t);
  }

  lemma BarCanonical()
    ensures WellFormed(TVec(TPrim(KInt))) && Typed(VecO([Leaf(PInt(1), true)]), TVec(TPrim(KInt)))
    ensures IsExplicit(VecO([Leaf(PInt(1), true)])) && Canonical(VecO([Leaf(PInt(1), true)]), TVec(TPrim(KInt)))
  {
    assert IsExplicit(VecO([Leaf(PInt(1), true)]).elems[0]);
  }

  /** A two-field struct whose first field is the implicit default and whose second is
    * explicit and canonical is canonical. */
  lemma SecondFieldCanonical(os: seq<Overlay>, t: Ty)
    requires WellFormed(t) && Typed(StructO(os), t) && |os| == 2 && AllWellFormed(t.fields)
    requires os[0] == Construct(t.dflt.fields[0], false) && IsExplicit(os[1]) && Canonical(os[1], t.fields[1])
    ensures Canonical(StructO(os), t)
  {
    ConstructExplicitness(t.dflt.fields[0], false);
    assert forall i | 0 <= i < 2 ::
      if IsExplicit(os[i]) then Canonical(os[i], t.fields[i])
      else os[i] == Construct(t.dflt.fields[i], false);
  }

  /** `{"bar":[1]}` reads with `foo` an implicit `None` and `bar` holding `[1]`, and is written
    * back as it was. */
  lemma CollectionRoundTrip(t: Ty)
    requires CollectionStruct(t)
    ensures Typed(CollectionRead(), t)
    ensures Encode(CollectionRead(), t) == JObj([Entry("bar", JArr([JNum(1)]))])
    ensures Decode(JObj([Entry("bar", JArr([JNum(1)]))]), t) == Ok(CollectionRead())
    ensures Extract(CollectionRead()) == StructV([NoneV, VecV([PrimV(PInt(1))])])
    ensures !IsExplicit(CollectionRead().fields[0])
  {
    CollectionReadTyped(t);
    var os := CollectionRead().fields;
    assert AllWellFormed(t.fields);
    NothingKeptWritesNothing(os, t.names, t.fields, true, 2);
    assert EncodeUniform(os[1].elems, TPrim(KInt)) == [JNum(1)];
    assert EncodeFieldsFrom(os, t.names, t.fields, true, 1) == [Entry("bar", JArr([JNum(1)]))];
    RoundTrip(CollectionRead(), t);
    assert ExtractEach(os) == [NoneV, VecV([PrimV(PInt(1))])] by {
      assert ExtractEach(os[1].elems) == [PrimV(PInt(1))];
    }
  }
}
