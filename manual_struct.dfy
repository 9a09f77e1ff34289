/**
 * The hand-written overlays of the test fixture: `TupleStructConfigImpex`, `EnumConfigImpex`
 * and `KeyStructConfigImpex`, written out the way the derive macro would generate them. The
 * structs are classes whose `set_impex` updates the fields in place; the enum is a value that
 * `set_impex` replaces as a whole. Each operation is tied to the generic overlay operation of
 * `Impex` on the fixture's declared types.
 *
 * `KeyStructConfigImpex::is_explicit` and `set_impex` leave out the fourth field
 * `tuple_struct_config`; they are modelled as written (`IsExplicitAsWritten`,
 * `SetImpexAsWritten`) next to the field-by-field versions the derive macro emits.
 */
module ManualStruct {
  import opened Values
  import opened Impex
  import opened Fixture
  import VecImpex

  // ---------------------------------------------------------------------------------------
  // TupleStructConfigImpex(i32 overlay, i64 overlay)
  // ---------------------------------------------------------------------------------------

  class TupleStructConfigImpex {
    var first: Overlay
    var second: Overlay

    /** Both fields are integer leaves. */
    predicate Valid()
      reads this
    {
      first.Leaf? && KindOf(first.value) == KInt && second.Leaf? && KindOf(second.value) == KInt
    }

    function Model(): Overlay
      reads this
    {
      TupleO([first, second])
    }

    /** `into_impex(v, e)`: both fields constructed with the flag. */
    constructor IntoImpex(v: Value, e: bool)
      requires HasType(v, TupleTy)
      ensures Valid() && Model() == Construct(v, e)
    {
      first := Construct(v.fields[0], e);
      second := Construct(v.fields[1], e);
      new;
      assert ConstructEach(v.fields, e) == [first, second];
    }

    /** `Default`: `into_implicit` of `TupleStructConfig::default()`, that is `(42, 43)`. */
    constructor Default()
      ensures Valid() && Model() == DefaultOverlay(TupleTy)
      ensures IntoValue() == TupleDefault && !IsExplicit()
    {
      first := Leaf(PInt(42), false);
      second := Leaf(PInt(43), false);
      new;
      assert ConstructEach(TupleDefault.fields, false) == [first, second];
    }

    /** `is_explicit`: either field is explicit. */
    predicate IsExplicit()
      reads this
      ensures IsExplicit() <==> Impex.IsExplicit(Model())
    {
      assert Model().fields[0] == first && Model().fields[1] == second;
      Impex.IsExplicit(first) || Impex.IsExplicit(second)
    }

    /** `into_value`: both fields' values. */
    function IntoValue(): (v: Value)
      requires Valid()
      reads this
      ensures HasType(v, TupleTy) && v == Extract(Model())
    {
      assert ExtractEach([first, second]) == [Extract(first), Extract(second)];
      TupleV([Extract(first), Extract(second)])
    }

    /** `set_impex(v, e)`: each field set in place with the same flag. */
    method SetImpex(v: Value, e: bool)
      requires Valid() && HasType(v, TupleTy)
      modifies this
      ensures Valid() && Fits(old(Model()), v) && Model() == Impex.SetImpex(old(Model()), v, e)
      ensures IntoValue() == v
    {
      TypedFits(Model(), v, TupleTy);
      first := Impex.SetImpex(first, v.fields[0], e);
      second := Impex.SetImpex(second, v.fields[1], e);
      assert SetImpexEach(old(Model()).fields, v.fields, e) == [first, second];
      ExtractConstruct(v, e);
      SetImpexIsConstruct(old(Model()), v, e);
    }

    /** `eq`: field by field. */
    predicate Eq(other: TupleStructConfigImpex)
      reads this, other
      ensures Eq(other) <==> Model() == other.Model()
    {
      assert Model().fields == [first, second] && other.Model().fields == [other.first, other.second];
      first == other.first && second == other.second
    }

    /** `visit`: `.0`, then `.1`. */
    method Visit(ctx: seq<Overlay>) returns (out: seq<Overlay>)
      ensures out == ctx + Impex.Visit(Model())
    {
      out := ctx + Impex.Visit(first);
      out := out + Impex.Visit(second);
      VisitTwo(first, second);
    }
  }

  lemma VisitTwo(a: Overlay, b: Overlay)
    ensures VisitEach([a, b]) == Impex.Visit(a) + Impex.Visit(b)
  {
    assert [a, b][..1] == [a];
    assert [a][..0] == [];
    assert VisitEach([a]) == VisitEach([]) + Impex.Visit(a);
  }

  lemma VisitThree(a: Overlay, b: Overlay, c: Overlay)
    ensures VisitEach([a, b, c]) == Impex.Visit(a) + Impex.Visit(b) + Impex.Visit(c)
  {
    assert [a, b, c][..2] == [a, b];
    VisitTwo(a, b);
  }

  /** A four-field struct whose fields were each set with the same flag is the struct set
    * as a whole, and holds the value set. */
  lemma FourFieldsSet(before: Overlay, v: Value, e: bool, fs: seq<Overlay>)
    requires before.StructO? && |before.fields| == 4 && Fits(before, v) && |fs| == 4
    requires fs[..3] == Impex.SetImpex(before, v, e).fields[..3]
    requires fs[3] == Impex.SetImpex(before.fields[3], v.fields[3], e)
    ensures StructO(fs) == Impex.SetImpex(before, v, e) && Extract(StructO(fs)) == v
  {
    assert fs == SetImpexEach(before.fields, v.fields, e) by {
      forall i | 0 <= i < 4 ensures fs[i] == SetImpexEach(before.fields, v.fields, e)[i] {
        if i < 3 { assert fs[i] == fs[..3][i]; }
      }
    }
    SetImpexResult(before, v, e);
  }

  /** The fields of a `KeyStructConfig` value, each constructed, have the field types. */
  lemma KeyFieldsConstructed(v: Value, e: bool)
    requires HasType(v, KeyTy)
    ensures v.StructV? && |v.fields| == 4 && v.fields[1].VecV?
    ensures Construct(v.fields[0], e).Leaf? && KindOf(Construct(v.fields[0], e).value) == KInt
    ensures Typed(Construct(v.fields[1], e), TVec(TPrim(KInt)))
    ensures IsEnumConfig(Construct(v.fields[2], e))
    ensures HasType(v.fields[3], TupleTy)
  {
    EnumWellFormed();
    ConstructTyped(v.fields[1], TVec(TPrim(KInt)), e);
    ConstructTyped(v.fields[2], EnumTy, e);
  }

  /** Setting a `KeyStructConfig` overlay field by field keeps each field's type. */
  lemma KeyFieldsSet(before: Overlay, v: Value, e: bool)
    requires Typed(before, KeyTy) && HasType(v, KeyTy)
    ensures Fits(before, v) && |before.fields| == 4 && v.StructV? && |v.fields| == 4
    ensures v.fields[1].VecV? && v.fields[1] == VecV(v.fields[1].elems) && HasType(v.fields[2], EnumTy)
    ensures Impex.SetImpex(before.fields[0], v.fields[0], e).Leaf?
    ensures KindOf(Impex.SetImpex(before.fields[0], v.fields[0], e).value) == KInt
    ensures Typed(VecO(ConstructEach(v.fields[1].elems, e)), TVec(TPrim(KInt)))
  {
    TypedFits(before, v, KeyTy);
    ConstructTyped(v.fields[1], TVec(TPrim(KInt)), e);
  }

  /** The first three fields of a four-field struct, each set with the same flag, are those
    * of the struct set as a whole. */
  lemma ThreeFieldsSet(before: Overlay, v: Value, e: bool, fs: seq<Overlay>)
    requires before.StructO? && |before.fields| == 4 && Fits(before, v) && |fs| == 4
    requires fs[0] == Impex.SetImpex(before.fields[0], v.fields[0], e)
    requires fs[1] == Impex.SetImpex(before.fields[1], v.fields[1], e)
    requires fs[2] == Impex.SetImpex(before.fields[2], v.fields[2], e)
    ensures fs[..3] == Impex.SetImpex(before, v, e).fields[..3]
  {
    assert Impex.SetImpex(before, v, e).fields == SetImpexEach(before.fields, v.fields, e);
  }

  /** The four default field overlays make up the default `KeyStructConfig` overlay, which
    * holds `KeyStructConfig::default()` and is implicit. */
  lemma KeyDefaultFields(fs: seq<Overlay>)
    requires |fs| == 4 && fs[0] == Leaf(PInt(0), false)
    requires fs[1] == Construct(VecV([PrimV(PInt(42))]), false)
    requires fs[2] == DefaultOverlay(EnumTy) && fs[3] == DefaultOverlay(TupleTy)
    ensures StructO(fs) == DefaultOverlay(KeyTy) && Typed(StructO(fs), KeyTy)
    ensures Typed(fs[1], TVec(TPrim(KInt)))
    ensures Extract(StructO(fs)) == KeyDefault && !Impex.IsExplicit(StructO(fs))
  {
    assert ConstructEach(KeyDefault.fields, false) == fs;
    KeyWellFormed();
    DefaultOverlayTyped(KeyTy);
    ExtractConstruct(KeyDefault, false);
    ConstructExplicitness(KeyDefault, false);
  }

  /** A four-field struct value constructed field by field is the value constructed whole. */
  lemma FourFieldsConstructed(v: Value, e: bool, fs: seq<Overlay>)
    requires v.StructV? && |v.fields| == 4 && |fs| == 4
    requires fs[0] == Construct(v.fields[0], e) && fs[1] == Construct(v.fields[1], e)
    requires fs[2] == Construct(v.fields[2], e) && fs[3] == Construct(v.fields[3], e)
    ensures StructO(fs) == Construct(v, e)
  {
    assert ConstructEach(v.fields, e) == fs;
  }

  lemma VisitFour(a: Overlay, b: Overlay, c: Overlay, d: Overlay)
    ensures VisitEach([a, b, c, d]) == Impex.Visit(a) + Impex.Visit(b) + Impex.Visit(c) + Impex.Visit(d)
  {
    assert [a, b, c, d][..3] == [a, b, c];
    VisitThree(a, b, c);
  }

  // ---------------------------------------------------------------------------------------
  // EnumConfigImpex: Foo { foo_value, tuple_struct_config } | Bar(x1, x2, x3)
  // ---------------------------------------------------------------------------------------

  /** An `EnumConfigImpex`: a `Foo` with two field overlays or a `Bar` with three. */
  predicate IsEnumConfig(o: Overlay) {
    EnumWellFormed();
    Typed(o, EnumTy)
  }

  lemma EnumConfigShape(o: Overlay)
    requires IsEnumConfig(o)
    ensures o.VariantO? && (o.tag == FooTag || o.tag == BarTag)
    ensures o.tag == FooTag ==> |o.fields| == 2
    ensures o.tag == BarTag ==> |o.fields| == 3
  {
  }

  /** `is_explicit`: the OR over the fields of the variant held. */
  predicate EnumIsExplicit(o: Overlay)
    requires IsEnumConfig(o)
    ensures EnumIsExplicit(o) <==> Impex.IsExplicit(o)
  {
    EnumConfigShape(o);
    var fs := o.fields;
    if o.tag == FooTag then
      Impex.IsExplicit(fs[0]) || Impex.IsExplicit(fs[1])
    else
      Impex.IsExplicit(fs[0]) || Impex.IsExplicit(fs[1]) || Impex.IsExplicit(fs[2])
  }

  /** `into_value`: the same variant, with the fields' values. */
  function EnumIntoValue(o: Overlay): (v: Value)
    requires IsEnumConfig(o)
    ensures HasType(v, EnumTy) && v == Extract(o)
  {
    EnumConfigShape(o);
    ExtractTyped(o, EnumTy);
    var fs := o.fields;
    if o.tag == FooTag then
      assert ExtractEach(fs) == [Extract(fs[0]), Extract(fs[1])];
      VariantV(FooTag, [Extract(fs[0]), Extract(fs[1])])
    else
      assert ExtractEach(fs) == [Extract(fs[0]), Extract(fs[1]), Extract(fs[2])];
      VariantV(BarTag, [Extract(fs[0]), Extract(fs[1]), Extract(fs[2])])
  }

  /** `set_impex(v, e)`: `*self` becomes the variant of `v`, every field constructed at `e`;
    * nothing of the previous variant or its flags survives. */
  function EnumSetImpex(o: Overlay, v: Value, e: bool): (r: Overlay)
    requires IsEnumConfig(o) && HasType(v, EnumTy)
    ensures IsEnumConfig(r) && r == Impex.SetImpex(o, v, e)
    ensures Extract(r) == v && Stamped(r, e)
  {
    EnumConfigShape(o);
    ExtractConstruct(v, e);
    ConstructStamped(v, e);
    ConstructTyped(v, EnumTy, e);
    var fs := v.fields;
    if v.tag == FooTag then
      assert ConstructEach(fs, e) == [Construct(fs[0], e), Construct(fs[1], e)];
      VariantO(FooTag, [Construct(fs[0], e), Construct(fs[1], e)])
    else
      assert ConstructEach(fs, e) == [Construct(fs[0], e), Construct(fs[1], e), Construct(fs[2], e)];
      VariantO(BarTag, [Construct(fs[0], e), Construct(fs[1], e), Construct(fs[2], e)])
  }

  /** `Default`: `Bar("Bar", 42, TupleStructConfig(42, 43))`, all implicit. */
  function EnumConfigDefault(): (o: Overlay)
    ensures IsEnumConfig(o) && o == DefaultOverlay(EnumTy)
    ensures Extract(o) == EnumDefault && !Impex.IsExplicit(o)
  {
    var t := TupleO([Leaf(PInt(42), false), Leaf(PInt(43), false)]);
    assert Construct(TupleDefault, false) == t by {
      assert ConstructEach(TupleDefault.fields, false) == t.fields;
    }
    assert ConstructEach(EnumDefault.fields, false) == [Leaf(PStr("Bar"), false), Leaf(PInt(42), false), t];
    EnumWellFormed();
    DefaultOverlayTyped(EnumTy);
    ExtractConstruct(EnumDefault, false);
    ConstructExplicitness(EnumDefault, false);
    VariantO(BarTag, [Leaf(PStr("Bar"), false), Leaf(PInt(42), false), t])
  }

  /** `eq`: the same variant with equal fields; different variants are never equal. */
  predicate EnumEq(a: Overlay, b: Overlay)
    requires IsEnumConfig(a) && IsEnumConfig(b)
    ensures EnumEq(a, b) <==> a == b
  {
    EnumConfigShape(a);
    EnumConfigShape(b);
    if a.tag == FooTag && b.tag == FooTag then
      a.fields[0] == b.fields[0] && a.fields[1] == b.fields[1]
    else if a.tag == BarTag && b.tag == BarTag then
      a.fields[0] == b.fields[0] && a.fields[1] == b.fields[1] && a.fields[2] == b.fields[2]
    else
      false
  }

  /** `visit`: the fields of the variant held, in declaration order. */
  method EnumVisit(o: Overlay, ctx: seq<Overlay>) returns (out: seq<Overlay>)
    requires IsEnumConfig(o)
    ensures out == ctx + Impex.Visit(o)
  {
    EnumConfigShape(o);
    var fs := o.fields;
    if o.tag == FooTag {
      out := ctx + Impex.Visit(fs[0]);
      out := out + Impex.Visit(fs[1]);
      assert fs == [fs[0], fs[1]];
      VisitTwo(fs[0], fs[1]);
    } else {
      out := ctx + Impex.Visit(fs[0]);
      out := out + Impex.Visit(fs[1]);
      out := out + Impex.Visit(fs[2]);
      assert fs == [fs[0], fs[1], fs[2]];
      VisitThree(fs[0], fs[1], fs[2]);
    }
  }

  // ---------------------------------------------------------------------------------------
  // KeyStructConfigImpex { num_cores, num_threads, enum_config, tuple_struct_config }
  // ---------------------------------------------------------------------------------------

  class KeyStructConfigImpex {
    var numCores: Overlay
    var numThreads: VecImpex.VecImpex
    var enumConfig: Overlay
    var tupleStructConfig: TupleStructConfigImpex

    predicate Valid()
      reads this, numThreads, tupleStructConfig
    {
      numCores.Leaf? && KindOf(numCores.value) == KInt
      && Typed(numThreads.Model(), TVec(TPrim(KInt)))
      && IsEnumConfig(enumConfig)
      && tupleStructConfig.Valid()
    }

    function Model(): Overlay
      reads this, numThreads, tupleStructConfig
    {
      StructO([numCores, numThreads.Model(), enumConfig, tupleStructConfig.Model()])
    }

    lemma ModelTyped()
      requires Valid()
      ensures Typed(Model(), KeyTy)
    {
      assert Typed(tupleStructConfig.Model(), TupleTy);
    }

    /** `into_impex(v, e)`: all four fields constructed with the same flag. */
    constructor IntoImpex(v: Value, e: bool)
      requires HasType(v, KeyTy)
      ensures Valid() && Model() == Construct(v, e)
      ensures fresh(numThreads) && fresh(tupleStructConfig)
    {
      KeyFieldsConstructed(v, e);
      numCores := Construct(v.fields[0], e);
      numThreads := new VecImpex.VecImpex(v.fields[1].elems, e);
      enumConfig := Construct(v.fields[2], e);
      tupleStructConfig := new TupleStructConfigImpex.IntoImpex(v.fields[3], e);
      new;
      FourFieldsConstructed(v, e, Model().fields);
    }

    /** `Default`: `into_implicit` of `KeyStructConfig::default()`, field by field. */
    constructor Default()
      ensures Valid() && Model() == DefaultOverlay(KeyTy)
      ensures IntoValue() == KeyDefault && !IsExplicit()
      ensures fresh(numThreads) && fresh(tupleStructConfig)
    {
      numCores := Leaf(PInt(0), false);
      numThreads := new VecImpex.VecImpex([PrimV(PInt(42))], false);
      enumConfig := EnumConfigDefault();
      tupleStructConfig := new TupleStructConfigImpex.Default();
      new;
      KeyDefaultFields(Model().fields);
    }

    /** `is_explicit` as written: only `num_cores`, `num_threads` and `enum_config` are asked. */
    predicate IsExplicitAsWritten()
      requires Valid()
      reads this, numThreads, tupleStructConfig
      ensures IsExplicitAsWritten() <==> exists i | 0 <= i < 3 :: Impex.IsExplicit(Model().fields[i])
    {
      assert Model().fields[0] == numCores && Model().fields[1] == numThreads.Model();
      assert Model().fields[2] == enumConfig;
      Impex.IsExplicit(numCores) || numThreads.IsExplicit() || EnumIsExplicit(enumConfig)
    }

    /** `is_explicit` over all four fields, as the derive macro emits it for a named struct. */
    predicate IsExplicit()
      requires Valid()
      reads this, numThreads, tupleStructConfig
      ensures IsExplicit() <==> Impex.IsExplicit(Model())
    {
      assert Model().fields[3] == tupleStructConfig.Model();
      IsExplicitAsWritten() || tupleStructConfig.IsExplicit()
    }

    /** `into_value`: the four fields' values. */
    function IntoValue(): (v: Value)
      requires Valid()
      reads this, numThreads, tupleStructConfig
      ensures HasType(v, KeyTy) && v == Extract(Model())
    {
      ModelTyped();
      ExtractTyped(Model(), KeyTy);
      var fs := [Extract(numCores), VecV(numThreads.IntoValue()), EnumIntoValue(enumConfig), tupleStructConfig.IntoValue()];
      assert ExtractEach(Model().fields) == fs;
      StructV(fs)
    }

    /** `set_impex(v, e)` as written: `num_cores`, `num_threads` and `enum_config` are set in
      * place; `tuple_struct_config` keeps its old overlay, so `into_value` no longer gives
      * `v` back when the old fourth field differs from `v`'s. */
    method SetImpexAsWritten(v: Value, e: bool)
      requires Valid() && HasType(v, KeyTy)
      modifies this, numThreads
      ensures numThreads == old(numThreads) && tupleStructConfig == old(tupleStructConfig)
      ensures Valid()
      ensures Fits(old(Model()), v) && Model().fields[..3] == Impex.SetImpex(old(Model()), v, e).fields[..3]
      ensures Model().fields[3] == old(Model().fields[3])
      ensures Extract(old(tupleStructConfig.Model())) != v.fields[3] ==> IntoValue() != v
    {
      ModelTyped();
      ghost var before := Model();
      KeyFieldsSet(before, v, e);
      numCores := Impex.SetImpex(numCores, v.fields[0], e);
      numThreads.SetImpex(v.fields[1].elems, e);
      enumConfig := EnumSetImpex(enumConfig, v.fields[2], e);
      ThreeFieldsSet(before, v, e, Model().fields);
    }

    /** `set_impex(v, e)` over all four fields, as the derive macro emits it for a named struct. */
    method SetImpex(v: Value, e: bool)
      requires Valid() && HasType(v, KeyTy)
      modifies this, numThreads, tupleStructConfig
      ensures numThreads == old(numThreads) && tupleStructConfig == old(tupleStructConfig)
      ensures Valid() && Fits(old(Model()), v) && Model() == Impex.SetImpex(old(Model()), v, e)
      ensures IntoValue() == v
    {
      ModelTyped();
      ghost var before := Model();
      TypedFits(before, v, KeyTy);
      SetImpexAsWritten(v, e);
      tupleStructConfig.SetImpex(v.fields[3], e);
      FourFieldsSet(before, v, e, Model().fields);
    }

    /** `eq`: all four fields equal. */
    predicate Eq(other: KeyStructConfigImpex)
      requires Valid() && other.Valid()
      reads this, numThreads, tupleStructConfig, other, other.numThreads, other.tupleStructConfig
      ensures Eq(other) <==> Model() == other.Model()
    {
      assert Model().fields[1] == numThreads.Model() && other.Model().fields[1] == other.numThreads.Model();
      numCores == other.numCores && numThreads.elems == other.numThreads.elems
      && EnumEq(enumConfig, other.enumConfig) && tupleStructConfig.Eq(other.tupleStructConfig)
    }

    /** `visit`: `num_cores`, `num_threads`, `enum_config`, `tuple_struct_config`, in order. */
    method Visit(ctx: seq<Overlay>) returns (out: seq<Overlay>)
      requires Valid()
      ensures out == ctx + Impex.Visit(Model())
    {
      out := ctx + Impex.Visit(numCores);
      out := numThreads.Visit(out);
      out := EnumVisit(enumConfig, out);
      out := tupleStructConfig.Visit(out);
      VisitFour(numCores, numThreads.Model(), enumConfig, tupleStructConfig.Model());
    }
  }
}
