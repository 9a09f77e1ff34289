/**
 * `ImpexPrimitiveValue<T>`, the leaf of the default wrapper settings: a value and a flag
 * saying whether it was set explicitly. Its methods assign the two fields in place.
 */
module Primitive {
  import opened Wrappers
  import opened Values
  import opened JsonData
  import Impex
  import Wire

  class ImpexPrimitiveValue {
    var value: Prim
    var isExplicit: bool

    /** `new(value, is_explicit)`: both are stored unchanged. */
    constructor (v: Prim, e: bool)
      ensures value == v && isExplicit == e
      ensures Model() == Impex.Construct(PrimV(v), e)
    {
      value := v;
      isExplicit := e;
    }

    /** The derived `Default`: the primitive type's default value, implicit. */
    constructor Default(k: PrimKind)
      ensures KindOf(value) == k && value == DefaultPrim(k) && !isExplicit
      ensures Model() == Impex.DefaultOverlay(TPrim(k))
    {
      value := DefaultPrim(k);
      isExplicit := false;
    }

    /** The leaf as an overlay. */
    function Model(): Impex.Overlay
      reads this
    {
      Impex.Leaf(value, isExplicit)
    }

    /** `is_explicit` returns the stored flag. */
    predicate IsExplicit()
      reads this
      ensures IsExplicit() <==> Impex.IsExplicit(Model())
    {
      isExplicit
    }

    /** `is_implicit` is the negation of the stored flag. */
    predicate IsImplicit()
      reads this
      ensures IsImplicit() <==> !IsExplicit()
      ensures IsImplicit() <==> Impex.IsImplicit(Model())
    {
      !isExplicit
    }

    /** `into_value` returns the stored value. */
    function IntoValue(): (v: Prim)
      reads this
      ensures Impex.Extract(Model()) == PrimV(v)
    {
      value
    }

    /** `make_explicit` sets the flag and hands out the value, which it leaves as it is. */
    method MakeExplicit() returns (v: Prim)
      modifies this
      ensures isExplicit && value == old(value) && v == value
    {
      isExplicit := true;
      v := value;
    }

    /** `set_explicit(v)`: the value becomes `v`, and the leaf explicit. */
    method SetExplicit(v: Prim)
      requires KindOf(v) == KindOf(value)
      modifies this
      ensures value == v && isExplicit
      ensures Model() == Impex.SetExplicit(old(Model()), PrimV(v))
    {
      isExplicit := true;
      value := v;
    }

    /** `set_impex(v, e)`: the value becomes `v` and the flag `e`; nothing else is kept. */
    method SetImpex(v: Prim, e: bool)
      requires KindOf(v) == KindOf(value)
      modifies this
      ensures value == v && isExplicit == e
      ensures Model() == Impex.SetImpex(old(Model()), PrimV(v), e)
    {
      isExplicit := e;
      value := v;
    }

    /** `Serialize`: the value when explicit, `null` when implicit. */
    function Serialize(): (j: Json)
      reads this
      ensures j == (if isExplicit then Wire.EncodePrim(value) else JNull)
      ensures j == Wire.Encode(Model(), TPrim(KindOf(value)))
    {
      if isExplicit then Wire.EncodePrim(value) else JNull
    }
  }

  /** `into_impex` of a primitive under the default settings is `create_primitive`, which is
    * `ImpexPrimitiveValue::new`. */
  method CreatePrimitive(v: Prim, e: bool) returns (leaf: ImpexPrimitiveValue)
    ensures fresh(leaf) && leaf.value == v && leaf.isExplicit == e
    ensures leaf.Model() == Impex.Construct(PrimV(v), e)
  {
    leaf := new ImpexPrimitiveValue(v, e);
  }

  /** `Deserialize`: whatever the primitive's own deserializer accepts, explicit. */
  method Deserialize(j: Json, k: PrimKind) returns (r: Result<ImpexPrimitiveValue, DecodeError>)
    ensures r.Ok? <==> Wire.DecodePrim(j, k).Ok?
    ensures r.Ok? ==> fresh(r.value) && r.value.isExplicit && KindOf(r.value.value) == k
    ensures r.Ok? ==> Wire.EncodePrim(r.value.value) == j
    ensures r.Ok? ==> r.value.Model() == Wire.Decode(j, TPrim(k)).value
    ensures r.Err? ==> r.error == InvalidType
  {
    match Wire.DecodePrim(j, k)
    case Ok(p) =>
      var leaf := new ImpexPrimitiveValue(p, true);
      r := Ok(leaf);
    case Err(err) =>
      r := Err(err);
  }
}
