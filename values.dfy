/**
 * Plain values and the type schema that describes them.
 *
 * A `Value` is what a configuration holds with explicitness stripped off: a primitive, an
 * `Option`, a `Vec`, a fixed-size array, a named struct, a tuple struct, or an enum value in
 * one of its data-carrying or unit variants. A `Ty` is the declared type of such a value; it
 * carries what the overlay's serializer and deserializer need from the declaration: field and
 * variant names, and the value the type's `Default` implementation returns.
 */
module Values {
  import opened Wrappers

  /** The primitive payloads a leaf can hold: the integer types (u32, i32, i64) and String. */
  datatype Prim = PInt(i: int) | PStr(s: string)

  datatype PrimKind = KInt | KStr

  function KindOf(p: Prim): PrimKind {
    if p.PInt? then KInt else KStr
  }

  /** `Default::default()` of the primitive types: 0 and the empty string. */
  function DefaultPrim(k: PrimKind): (p: Prim)
    ensures KindOf(p) == k
  {
    match k
    case KInt => PInt(0)
    case KStr => PStr("")
  }

  datatype Value =
    | PrimV(p: Prim)
    | SomeV(inner: Value)
    | NoneV
    | VecV(elems: seq<Value>)
    | ArrV(elems: seq<Value>)
    | StructV(fields: seq<Value>)
    | TupleV(fields: seq<Value>)
    | VariantV(tag: nat, fields: seq<Value>)
    | UnitV(tag: nat)

  /** How an enum variant declares its fields: `V { a: A }`, `V(A, B)` or plain `V`. */
  datatype Form = Named(names: seq<string>) | Unnamed | UnitForm

  datatype VariantTy = VariantTy(name: string, form: Form, fields: seq<Ty>)

  datatype Ty =
    | TPrim(kind: PrimKind)
    | TOption(inner: Ty)
    | TVec(elem: Ty)
    | TArray(elem: Ty, size: nat)
    | TStruct(names: seq<string>, fields: seq<Ty>, dflt: Value)
    | TTuple(fields: seq<Ty>, dflt: Value)
    | TEnum(variants: seq<VariantTy>, dflt: Value)

  predicate Distinct(xs: seq<string>) {
    forall i, j | 0 <= i < j < |xs| :: xs[i] != xs[j]
  }

  function VariantNames(vs: seq<VariantTy>): (ns: seq<string>)
    ensures |ns| == |vs| && forall k | 0 <= k < |vs| :: ns[k] == vs[k].name
  {
    seq(|vs|, k requires 0 <= k < |vs| => vs[k].name)
  }

  /** The first position of `x` in `xs`, as a name lookup in a declaration list does it. */
  function IndexOf(xs: seq<string>, x: string): (r: Option<nat>)
    ensures r.Some? ==> r.value < |xs| && xs[r.value] == x
    ensures r.Some? ==> forall j | 0 <= j < r.value :: xs[j] != x
    ensures r.None? <==> x !in xs
  {
    if xs == [] then None
    else if xs[0] == x then Some(0)
    else match IndexOf(xs[1..], x)
      case None => None
      case Some(k) => Some(k + 1)
  }

  lemma IndexOfDistinct(xs: seq<string>, i: nat)
    requires Distinct(xs) && i < |xs|
    ensures IndexOf(xs, xs[i]) == Some(i)
  {
  }

  /** `v` is a value of type `t`. */
  predicate HasType(v: Value, t: Ty)
    decreases v
  {
    match v
    case PrimV(p) => t.TPrim? && KindOf(p) == t.kind
    case SomeV(x) => t.TOption? && HasType(x, t.inner)
    case NoneV => t.TOption?
    case VecV(xs) => t.TVec? && forall i | 0 <= i < |xs| :: HasType(xs[i], t.elem)
    case ArrV(xs) => t.TArray? && |xs| == t.size && forall i | 0 <= i < |xs| :: HasType(xs[i], t.elem)
    case StructV(xs) =>
      t.TStruct? && |xs| == |t.fields| && forall i | 0 <= i < |xs| :: HasType(xs[i], t.fields[i])
    case TupleV(xs) =>
      t.TTuple? && |xs| == |t.fields| && forall i | 0 <= i < |xs| :: HasType(xs[i], t.fields[i])
    case VariantV(k, xs) =>
      t.TEnum? && k < |t.variants| && !t.variants[k].form.UnitForm?
      && |xs| == |t.variants[k].fields|
      && forall i | 0 <= i < |xs| :: HasType(xs[i], t.variants[k].fields[i])
    case UnitV(k) => t.TEnum? && k < |t.variants| && t.variants[k].form.UnitForm?
  }

  /**
   * The declarations the generator accepts: names of fields and of variants are distinct, a
   * data-carrying variant has at least one field (the code emitted for an empty one does not
   * compile), and the declared default is a value of the type.
   */
  predicate WellFormed(t: Ty)
    decreases t
  {
    match t
    case TPrim(_) => true
    case TOption(i) => WellFormed(i)
    case TVec(e) => WellFormed(e)
    case TArray(e, _) => WellFormed(e)
    case TStruct(ns, fs, d) => |ns| == |fs| && Distinct(ns) && AllWellFormed(fs) && HasType(d, t)
    case TTuple(fs, d) => AllWellFormed(fs) && HasType(d, t)
    case TEnum(vs, d) =>
      Distinct(VariantNames(vs)) && (forall k | 0 <= k < |vs| :: VariantWellFormed(vs[k]))
      && HasType(d, t)
  }

  predicate AllWellFormed(fs: seq<Ty>)
    decreases fs
  {
    forall i | 0 <= i < |fs| :: WellFormed(fs[i])
  }

  predicate VariantWellFormed(v: VariantTy)
    decreases v
  {
    match v.form
    case UnitForm => v.fields == []
    case Unnamed => |v.fields| >= 1 && AllWellFormed(v.fields)
    case Named(ns) => |v.fields| >= 1 && |ns| == |v.fields| && Distinct(ns) && AllWellFormed(v.fields)
  }

  /** `T::default()`: the primitive default, `None`, the empty Vec, elementwise for arrays, and the
    * declared default for structs, tuple structs and enums. */
  function DefaultValue(t: Ty): Value
  {
    match t
    case TPrim(k) => PrimV(DefaultPrim(k))
    case TOption(_) => NoneV
    case TVec(_) => VecV([])
    case TArray(e, n) => ArrV(seq(n, _ => DefaultValue(e)))
    case TStruct(_, _, d) => d
    case TTuple(_, d) => d
    case TEnum(_, d) => d
  }

  lemma {:induction false} DefaultValueHasType(t: Ty)
    requires WellFormed(t)
    ensures HasType(DefaultValue(t), t)
  {
    if t.TArray? {
      DefaultValueHasType(t.elem);
    }
  }

  /** `v` contains something that carries an explicitness bit once it is an overlay: a primitive,
    * a `None`, or a unit variant. An empty Vec or array carries none. */
  predicate HasFlagSite(v: Value)
    decreases v
  {
    match v
    case PrimV(_) => true
    case SomeV(x) => HasFlagSite(x)
    case NoneV => true
    case VecV(xs) => exists i | 0 <= i < |xs| :: HasFlagSite(xs[i])
    case ArrV(xs) => exists i | 0 <= i < |xs| :: HasFlagSite(xs[i])
    case StructV(xs) => exists i | 0 <= i < |xs| :: HasFlagSite(xs[i])
    case TupleV(xs) => exists i | 0 <= i < |xs| :: HasFlagSite(xs[i])
    case VariantV(_, xs) => exists i | 0 <= i < |xs| :: HasFlagSite(xs[i])
    case UnitV(_) => true
  }

  /** The primitives of `v`, in declaration and index order. */
  function LeafValues(v: Value): seq<Prim>
    decreases v
  {
    match v
    case PrimV(p) => [p]
    case SomeV(x) => LeafValues(x)
    case NoneV => []
    case VecV(xs) => LeafValuesEach(xs)
    case ArrV(xs) => LeafValuesEach(xs)
    case StructV(xs) => LeafValuesEach(xs)
    case TupleV(xs) => LeafValuesEach(xs)
    case VariantV(_, xs) => LeafValuesEach(xs)
    case UnitV(_) => []
  }

  function LeafValuesEach(xs: seq<Value>): seq<Prim>
    decreases xs
  {
    if xs == [] then [] else LeafValuesEach(xs[..|xs| - 1]) + LeafValues(xs[|xs| - 1])
  }
}
