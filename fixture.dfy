/**
 * The declarations of the test fixture, as type schemas: `TupleStructConfig(i32, i64)` with
 * default `(42, 43)`; `EnumConfig` with a named variant `Foo { foo_value: String,
 * tuple_struct_config }` and an unnamed variant `Bar(String, i32, TupleStructConfig)`, default
 * `Bar("Bar", 42, TupleStructConfig::default())`; `KeyStructConfig { num_cores: u32,
 * num_threads: Vec<u32>, enum_config, tuple_struct_config }` with default
 * `(0, vec![42], EnumConfig::default(), TupleStructConfig::default())`; and the one-field
 * option structs `OptionTestStruct` (default `None`) and `OptionTestStructWithSomeDefault`
 * (default `Some(42)`).
 */
module Fixture {
  import opened Values

  const TupleDefault: Value := TupleV([PrimV(PInt(42)), PrimV(PInt(43))])
  const TupleTy: Ty := TTuple([TPrim(KInt), TPrim(KInt)], TupleDefault)

  const FooTag: nat := 0
  const BarTag: nat := 1
  const EnumDefault: Value := VariantV(BarTag, [PrimV(PStr("Bar")), PrimV(PInt(42)), TupleDefault])
  const EnumTy: Ty := TEnum(
    [ VariantTy("Foo", Named(["foo_value", "tuple_struct_config"]), [TPrim(KStr), TupleTy]),
      VariantTy("Bar", Unnamed, [TPrim(KStr), TPrim(KInt), TupleTy]) ],
    EnumDefault)

  const KeyDefault: Value := StructV([PrimV(PInt(0)), VecV([PrimV(PInt(42))]), EnumDefault, TupleDefault])
  const KeyNames: seq<string> := ["num_cores", "num_threads", "enum_config", "tuple_struct_config"]
  const KeyTy: Ty := TStruct(KeyNames, [TPrim(KInt), TVec(TPrim(KInt)), EnumTy, TupleTy], KeyDefault)

  const OptionTestTy: Ty := TStruct(["opt"], [TOption(TPrim(KInt))], StructV([NoneV]))
  /** The `Test` struct of the collection test: `foo: Option<[i32; 3]>`, `bar: Vec<u8>`,
    * derived default `(None, vec![])`. */
  const CollectionTy: Ty := TStruct(["foo", "bar"], [TOption(TArray(TPrim(KInt), 3)), TVec(TPrim(KInt))], StructV([NoneV, VecV([])]))

  const OptionSomeDefaultTy: Ty := TStruct(["opt"], [TOption(TPrim(KInt))], StructV([SomeV(PrimV(PInt(42)))]))

  lemma TupleWellFormed()
    ensures WellFormed(TupleTy)
  {
    assert HasType(TupleDefault, TupleTy);
  }

  lemma EnumWellFormed()
    ensures WellFormed(EnumTy)
  {
    TupleWellFormed();
    var vs := EnumTy.variants;
    assert VariantNames(vs) == ["Foo", "Bar"];
    assert "Foo"[0] != "Bar"[0];
    assert "foo_value"[0] != "tuple_struct_config"[0];
    assert VariantWellFormed(vs[0]) && VariantWellFormed(vs[1]);
    assert HasType(TupleDefault, TupleTy);
    assert HasType(EnumDefault, EnumTy);
  }

  lemma KeyNamesDistinct()
    ensures Distinct(KeyNames)
  {
    assert |KeyNames[0]| == 9 && |KeyNames[1]| == 11 && |KeyNames[2]| == 11 && |KeyNames[3]| == 19;
    assert KeyNames[1][0] != KeyNames[2][0];
  }

  lemma KeyDefaultHasType()
    ensures HasType(KeyDefault, KeyTy)
  {
    EnumWellFormed();
    assert HasType(KeyDefault.fields[1], TVec(TPrim(KInt)));
  }

  lemma KeyWellFormed()
    ensures WellFormed(KeyTy)
  {
    EnumWellFormed();
    KeyNamesDistinct();
    KeyDefaultHasType();
    assert AllWellFormed(KeyTy.fields);
  }

  lemma OptionStructsWellFormed()
    ensures WellFormed(OptionTestTy) && WellFormed(OptionSomeDefaultTy)
  {
  }

  lemma CollectionWellFormed()
    ensures WellFormed(CollectionTy)
  {
    assert "foo"[0] != "bar"[0];
    assert HasType(StructV([NoneV, VecV([])]), CollectionTy);
  }
}
