/**
 * An alternative leaf strategy, `MyWrapperSettings`: its leaf `MyPrimitiveValue<T>` carries, next
 * to the flag and the value, an optional variable name that only the program sets. Every
 * overlay operation leaves that name alone, and the leaf otherwise behaves as the default one.
 */
module CustomStrategy {
  import opened Wrappers
  import opened Values
  import opened JsonData
  import Impex
  import Wire

  /** The `(NonZeroU8, [u8; 30])` variable name, kept opaque. */
  datatype VariableName = VariableName(id: nat)

  class MyPrimitiveValue {
    var isExplicit: bool
    var variableName: Option<VariableName>
    var value: Prim

    /** The derived `Default`: implicit, no variable name, the type's default value. */
    constructor Default(k: PrimKind)
      ensures !isExplicit && variableName.None? && value == DefaultPrim(k)
      ensures Model() == Impex.DefaultOverlay(TPrim(k))
    {
      isExplicit := false;
      variableName := None;
      value := DefaultPrim(k);
    }

    /** `create_primitive(v, e)`: the value and flag, and no variable name. */
    constructor CreatePrimitive(v: Prim, e: bool)
      ensures value == v && isExplicit == e && variableName.None?
      ensures Model() == Impex.Construct(PrimV(v), e)
    {
      isExplicit := e;
      variableName := None;
      value := v;
    }

    /** The leaf as an overlay: the variable name is invisible to the overlay operations. */
    function Model(): Impex.Overlay
      reads this
    {
      Impex.Leaf(value, isExplicit)
    }

    predicate IsExplicit()
      reads this
      ensures IsExplicit() <==> Impex.IsExplicit(Model())
    {
      isExplicit
    }

    predicate IsImplicit()
      reads this
      ensures IsImplicit() <==> !IsExplicit()
      ensures IsImplicit() <==> Impex.IsImplicit(Model())
    {
      !isExplicit
    }

    function IntoValue(): (v: Prim)
      reads this
      ensures Impex.Extract(Model()) == PrimV(v)
    {
      value
    }

    /** `make_explicit`: the flag is set; value and variable name are kept. */
    method MakeExplicit() returns (v: Prim)
      modifies this
      ensures isExplicit && value == old(value) && variableName == old(variableName) && v == value
    {
      isExplicit := true;
      v := value;
    }

    /** `set_impex(v, e)`: flag and value change, the variable name stays. */
    method SetImpex(v: Prim, e: bool)
      requires KindOf(v) == KindOf(value)
      modifies this
      ensures value == v && isExplicit == e && variableName == old(variableName)
      ensures Model() == Impex.SetImpex(old(Model()), PrimV(v), e)
    {
      isExplicit := e;
      value := v;
    }

    /** `Serialize`: the value when explicit, `null` when implicit; the name is not written. */
    function Serialize(): (j: Json)
      reads this
      ensures j == (if isExplicit then Wire.EncodePrim(value) else JNull)
      ensures j == Wire.Encode(Model(), TPrim(KindOf(value)))
    {
      if isExplicit then Wire.EncodePrim(value) else JNull
    }
  }

  /** `Deserialize`: what the primitive reads, explicit and without a variable name. */
  method Deserialize(j: Json, k: PrimKind) returns (r: Result<MyPrimitiveValue, DecodeError>)
    ensures r.Ok? <==> Wire.DecodePrim(j, k).Ok?
    ensures r.Ok? ==> fresh(r.value) && r.value.isExplicit && r.value.variableName.None?
    ensures r.Ok? ==> KindOf(r.value.value) == k && Wire.EncodePrim(r.value.value) == j
    ensures r.Ok? ==> r.value.Model() == Wire.Decode(j, TPrim(k)).value
    ensures r.Err? ==> r.error == InvalidType
  {
    var d := Wire.DecodePrim(j, k);
    if d.Ok? {
      var leaf := new MyPrimitiveValue.CreatePrimitive(d.value, true);
      r := Ok(leaf);
    } else {
      r := Err(d.error);
    }
  }
}
