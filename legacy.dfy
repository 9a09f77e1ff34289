/**
 * The root crate's older leaf `ImpexPrimitiveValue<T>`: the same value-and-flag pair, with
 * `make_defined` in place of `make_explicit` and a single `Impex::set` that always makes the
 * leaf explicit (there is no `set_impex` with a flag).
 */
module Legacy {
  import opened Wrappers
  import opened Values
  import opened JsonData
  import Impex
  import Wire

  class ImpexPrimitiveValue {
    var value: Prim
    var isExplicit: bool

    /** `into_impex(v, e)`: the struct literal holding `v` and `e`. */
    constructor IntoImpex(v: Prim, e: bool)
      ensures value == v && isExplicit == e
      ensures Model() == Impex.Construct(PrimV(v), e)
    {
      value := v;
      isExplicit := e;
    }

    /** `into_implicit(v)` is `into_impex(v, false)`. */
    constructor IntoImplicit(v: Prim)
      ensures value == v && !isExplicit
      ensures Model() == Impex.IntoImplicit(PrimV(v))
    {
      value := v;
      isExplicit := false;
    }

    /** `into_explicit(v)` is `into_impex(v, true)`. */
    constructor IntoExplicit(v: Prim)
      ensures value == v && isExplicit
      ensures Model() == Impex.IntoExplicit(PrimV(v))
    {
      value := v;
      isExplicit := true;
    }

    /** `Default`: the type's default value, implicit. */
    constructor Default(k: PrimKind)
      ensures value == DefaultPrim(k) && !isExplicit
      ensures Model() == Impex.DefaultOverlay(TPrim(k))
    {
      value := DefaultPrim(k);
      isExplicit := false;
    }

    function Model(): Impex.Overlay
      reads this
    {
      Impex.Leaf(value, isExplicit)
    }

    predicate IsExplicit()
      reads this
      ensures IsExplicit() <==> Impex.IsExplicit(Model())
    {
      isExplicit
    }

    predicate IsImplicit()
      reads this
      ensures IsImplicit() <==> !IsExplicit()
    {
      !isExplicit
    }

    function IntoValue(): (v: Prim)
      reads this
      ensures Impex.Extract(Model()) == PrimV(v)
    {
      value
    }

    /** `make_defined`: the flag is set and the value is handed out unchanged. */
    method MakeDefined() returns (v: Prim)
      modifies this
      ensures isExplicit && value == old(value) && v == value
    {
      isExplicit := true;
      v := value;
    }

    /** `Impex::set(v)`: through `make_defined`, so the leaf ends explicit with value `v`,
      * whatever its flag was. */
    method Set(v: Prim)
      requires KindOf(v) == KindOf(value)
      modifies this
      ensures value == v && isExplicit
      ensures Model() == Impex.SetExplicit(old(Model()), PrimV(v))
    {
      var _ := MakeDefined();
      value := v;
    }

    /** `Serialize`: `null` when implicit, the value when explicit. */
    function Serialize(): (j: Json)
      reads this
      ensures j == (if isExplicit then Wire.EncodePrim(value) else JNull)
      ensures j == Wire.Encode(Model(), TPrim(KindOf(value)))
    {
      if isExplicit then Wire.EncodePrim(value) else JNull
    }
  }

  /** `Deserialize`: whatever the primitive reads, explicit. */
  method Deserialize(j: Json, k: PrimKind) returns (r: Result<ImpexPrimitiveValue, DecodeError>)
    ensures r.Ok? <==> Wire.DecodePrim(j, k).Ok?
    ensures r.Ok? ==> fresh(r.value) && r.value.isExplicit && KindOf(r.value.value) == k
    ensures r.Ok? ==> Wire.EncodePrim(r.value.value) == j
    ensures r.Err? ==> r.error == InvalidType
  {
    var d := Wire.DecodePrim(j, k);
    if d.Ok? {
      var leaf := new ImpexPrimitiveValue.IntoExplicit(d.value);
      r := Ok(leaf);
    } else {
      r := Err(d.error);
    }
  }
}
