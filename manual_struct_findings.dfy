/**
 * The hand-written `KeyStructConfigImpex` on inputs where it departs from what the derive
 * macro generates: `is_explicit` and `set_impex` both leave out `tuple_struct_config`.
 */
module ManualStructFindings {
  import opened Values
  import opened Impex
  import opened Fixture
  import opened ManualStruct

  /** Any implicit overlay (the default, say) with `tuple_struct_config` then set explicitly:
    * `is_explicit` as written still says implicit, although a field is explicit. */
  method ExplicitTupleFieldGoesUnseen(k: KeyStructConfigImpex)
    requires k.Valid() && !k.IsExplicit()
    modifies k.tupleStructConfig
    ensures k.Valid() && !k.IsExplicitAsWritten() && k.IsExplicit()
  {
    assert !k.IsExplicitAsWritten();
    var v := TupleV([PrimV(PInt(1)), PrimV(PInt(2))]);
    assert HasType(v, TupleTy);
    ghost var m := k.tupleStructConfig.Model();
    k.tupleStructConfig.SetImpex(v, true);
    SetImpexResult(m, v, true);
    assert HasFlagSite(v.fields[0]);
    assert k.tupleStructConfig.IsExplicit();
  }

  /** The same on the default overlay. */
  method DefaultWithExplicitTuple() returns (k: KeyStructConfigImpex)
    ensures k.Valid() && !k.IsExplicitAsWritten() && k.IsExplicit()
  {
    k := new KeyStructConfigImpex.Default();
    ExplicitTupleFieldGoesUnseen(k);
  }

  /** `set_impex` as written on the default overlay, with a value whose fourth field is not the
    * default `(42, 43)`: `into_value` afterwards differs from the value set. */
  method SetImpexKeepsStaleTupleField() returns (k: KeyStructConfigImpex, v: Value)
    ensures k.Valid() && HasType(v, KeyTy)
    ensures k.IntoValue() != v
  {
    var t := TupleV([PrimV(PInt(1)), PrimV(PInt(2))]);
    v := StructV([PrimV(PInt(8)), VecV([]), EnumDefault, t]);
    EnumWellFormed();
    assert HasType(t, TupleTy);
    assert HasType(v.fields[1], TVec(TPrim(KInt)));
    assert HasType(v, KeyTy);
    k := new KeyStructConfigImpex.Default();
    assert Extract(k.tupleStructConfig.Model()) == TupleDefault;
    assert TupleDefault != t by { assert TupleDefault.fields[0] != t.fields[0]; }
    k.SetImpexAsWritten(v, true);
  }
}
