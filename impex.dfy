/**
 * The explicit/implicit overlay of a value.
 *
 * An `Overlay` holds the same data as a `Value` and, at every place a value can be "set or
 * not set", a bit saying whether it was set explicitly: each primitive leaf, each `None`, and
 * each unit variant. The four operations every overlay type provides are modelled here:
 * `into_impex` (`Construct`), `is_explicit` (`IsExplicit`), `into_value` (`Extract`) and
 * `set_impex` (`SetImpex`), together with the trait's default methods and `Default`.
 *
 * One definition covers every overlay shape: the leaf type of the default wrapper settings,
 * `OptionImpex`, `Vec`, fixed-size arrays, and the structs, tuple structs and enums the derive
 * macro generates (whose methods work field by field, or variant by variant).
 */
module Impex {
  import opened Values

  datatype Overlay =
    | Leaf(value: Prim, explicit: bool)
    | OptSome(inner: Overlay)
    | OptNone(explicit: bool)
    | VecO(elems: seq<Overlay>)
    | ArrO(elems: seq<Overlay>)
    | StructO(fields: seq<Overlay>)
    | TupleO(fields: seq<Overlay>)
    | VariantO(tag: nat, fields: seq<Overlay>)
    | UnitO(tag: nat, explicit: bool)

  /** `into_impex(v, e)`: the overlay of `v` with every flag set to `e`. */
  function Construct(v: Value, e: bool): Overlay
    decreases v
  {
    match v
    case PrimV(p) => Leaf(p, e)
    case SomeV(x) => OptSome(Construct(x, e))
    case NoneV => OptNone(e)
    case VecV(xs) => VecO(ConstructEach(xs, e))
    case ArrV(xs) => ArrO(ConstructEach(xs, e))
    case StructV(xs) => StructO(ConstructEach(xs, e))
    case TupleV(xs) => TupleO(ConstructEach(xs, e))
    case VariantV(k, xs) => VariantO(k, ConstructEach(xs, e))
    case UnitV(k) => UnitO(k, e)
  }

  function ConstructEach(xs: seq<Value>, e: bool): (os: seq<Overlay>)
    ensures |os| == |xs|
    decreases xs
  {
    seq(|xs|, i requires 0 <= i < |xs| => Construct(xs[i], e))
  }

  /** `is_explicit`: the OR over everything the overlay contains; false for no contents. */
  predicate IsExplicit(o: Overlay)
    decreases o
  {
    match o
    case Leaf(_, e) => e
    case OptSome(x) => IsExplicit(x)
    case OptNone(e) => e
    case VecO(os) => exists i | 0 <= i < |os| :: IsExplicit(os[i])
    case ArrO(os) => exists i | 0 <= i < |os| :: IsExplicit(os[i])
    case StructO(os) => exists i | 0 <= i < |os| :: IsExplicit(os[i])
    case TupleO(os) => exists i | 0 <= i < |os| :: IsExplicit(os[i])
    case VariantO(_, os) => exists i | 0 <= i < |os| :: IsExplicit(os[i])
    case UnitO(_, e) => e
  }

  /** Every flag in `o` is `e`. */
  predicate Stamped(o: Overlay, e: bool)
    decreases o
  {
    match o
    case Leaf(_, f) => f == e
    case OptSome(x) => Stamped(x, e)
    case OptNone(f) => f == e
    case VecO(os) => forall i | 0 <= i < |os| :: Stamped(os[i], e)
    case ArrO(os) => forall i | 0 <= i < |os| :: Stamped(os[i], e)
    case StructO(os) => forall i | 0 <= i < |os| :: Stamped(os[i], e)
    case TupleO(os) => forall i | 0 <= i < |os| :: Stamped(os[i], e)
    case VariantO(_, os) => forall i | 0 <= i < |os| :: Stamped(os[i], e)
    case UnitO(_, f) => f == e
  }

  /** `into_value`: the plain value, every flag dropped. */
  function Extract(o: Overlay): Value
    decreases o
  {
    match o
    case Leaf(p, _) => PrimV(p)
    case OptSome(x) => SomeV(Extract(x))
    case OptNone(_) => NoneV
    case VecO(os) => VecV(ExtractEach(os))
    case ArrO(os) => ArrV(ExtractEach(os))
    case StructO(os) => StructV(ExtractEach(os))
    case TupleO(os) => TupleV(ExtractEach(os))
    case VariantO(k, os) => VariantV(k, ExtractEach(os))
    case UnitO(k, _) => UnitV(k)
  }

  function ExtractEach(os: seq<Overlay>): (xs: seq<Value>)
    ensures |xs| == |os|
    decreases os
  {
    seq(|os|, i requires 0 <= i < |os| => Extract(os[i]))
  }

  /**
   * `o` and `v` belong to the same Rust type, as far as `set_impex` can tell: the same primitive
   * kind, any option for an option, any Vec for a Vec, any enum value for an enum, and for
   * arrays, structs and tuple structs the same number of fields, pairwise of the same type.
   */
  predicate Fits(o: Overlay, v: Value)
    decreases o
  {
    match o
    case Leaf(p, _) => v.PrimV? && KindOf(v.p) == KindOf(p)
    case OptSome(_) => v.SomeV? || v.NoneV?
    case OptNone(_) => v.SomeV? || v.NoneV?
    case VecO(_) => v.VecV?
    case ArrO(os) => v.ArrV? && |v.elems| == |os| && forall i | 0 <= i < |os| :: Fits(os[i], v.elems[i])
    case StructO(os) =>
      v.StructV? && |v.fields| == |os| && forall i | 0 <= i < |os| :: Fits(os[i], v.fields[i])
    case TupleO(os) =>
      v.TupleV? && |v.fields| == |os| && forall i | 0 <= i < |os| :: Fits(os[i], v.fields[i])
    case VariantO(_, _) => v.VariantV? || v.UnitV?
    case UnitO(_, _) => v.VariantV? || v.UnitV?
  }

  /**
   * `set_impex(v, e)` as each overlay type implements it: a leaf assigns its value and flag;
   * an option and an enum replace themselves by a freshly constructed overlay; a Vec clears
   * itself and is extended by the constructed elements; arrays, structs and tuple structs
   * forward the call to each element or field in place.
   */
  function SetImpex(o: Overlay, v: Value, e: bool): Overlay
    requires Fits(o, v)
    decreases o
  {
    match o
    case Leaf(_, _) => Leaf(v.p, e)
    case OptSome(_) => Construct(v, e)
    case OptNone(_) => Construct(v, e)
    case VecO(_) => VecO(ConstructEach(v.elems, e))
    case ArrO(os) => ArrO(SetImpexEach(os, v.elems, e))
    case StructO(os) => StructO(SetImpexEach(os, v.fields, e))
    case TupleO(os) => TupleO(SetImpexEach(os, v.fields, e))
    case VariantO(_, _) => Construct(v, e)
    case UnitO(_, _) => Construct(v, e)
  }

  function SetImpexEach(os: seq<Overlay>, xs: seq<Value>, e: bool): (r: seq<Overlay>)
    requires |os| == |xs| && forall i | 0 <= i < |os| :: Fits(os[i], xs[i])
    ensures |r| == |os|
    decreases os
  {
    seq(|os|, i requires 0 <= i < |os| => SetImpex(os[i], xs[i], e))
  }

  /** The overlay of declared type `t`. */
  predicate Typed(o: Overlay, t: Ty)
    decreases o
  {
    match o
    case Leaf(p, _) => t.TPrim? && KindOf(p) == t.kind
    case OptSome(x) => t.TOption? && Typed(x, t.inner)
    case OptNone(_) => t.TOption?
    case VecO(os) => t.TVec? && forall i | 0 <= i < |os| :: Typed(os[i], t.elem)
    case ArrO(os) => t.TArray? && |os| == t.size && forall i | 0 <= i < |os| :: Typed(os[i], t.elem)
    case StructO(os) =>
      t.TStruct? && |os| == |t.fields| && forall i | 0 <= i < |os| :: Typed(os[i], t.fields[i])
    case TupleO(os) =>
      t.TTuple? && |os| == |t.fields| && forall i | 0 <= i < |os| :: Typed(os[i], t.fields[i])
    case VariantO(k, os) =>
      t.TEnum? && k < |t.variants| && !t.variants[k].form.UnitForm?
      && |os| == |t.variants[k].fields|
      && forall i | 0 <= i < |os| :: Typed(os[i], t.variants[k].fields[i])
    case UnitO(k, _) => t.TEnum? && k < |t.variants| && t.variants[k].form.UnitForm?
  }

  /**
   * `Default::default()` of the overlay type of `t`: an implicit default leaf, an implicit
   * `None`, an empty Vec, the element default in every array slot, and for generated structs,
   * tuple structs and enums `into_implicit` applied to the declared default field by field.
   */
  function DefaultOverlay(t: Ty): Overlay
  {
    match t
    case TPrim(k) => Leaf(DefaultPrim(k), false)
    case TOption(_) => OptNone(false)
    case TVec(_) => VecO([])
    case TArray(e, n) => ArrO(seq(n, _ => DefaultOverlay(e)))
    case TStruct(_, _, d) => Construct(d, false)
    case TTuple(_, d) => Construct(d, false)
    case TEnum(_, d) => Construct(d, false)
  }

  /** The leaves `visit` reaches, in the order it reaches them: fields in declaration order,
    * elements in index order, the inner value of `Some` only, nothing for a unit variant. */
  function Visit(o: Overlay): seq<Overlay>
    decreases o
  {
    match o
    case Leaf(_, _) => [o]
    case OptSome(x) => Visit(x)
    case OptNone(_) => []
    case VecO(os) => VisitEach(os)
    case ArrO(os) => VisitEach(os)
    case StructO(os) => VisitEach(os)
    case TupleO(os) => VisitEach(os)
    case VariantO(_, os) => VisitEach(os)
    case UnitO(_, _) => []
  }

  function VisitEach(os: seq<Overlay>): seq<Overlay>
    decreases os
  {
    if os == [] then [] else VisitEach(os[..|os| - 1]) + Visit(os[|os| - 1])
  }

  /** Leaves holding `ps`, in order, each flagged `e`. */
  function Stamp(ps: seq<Prim>, e: bool): (r: seq<Overlay>)
    ensures |r| == |ps|
  {
    seq(|ps|, i requires 0 <= i < |ps| => Leaf(ps[i], e))
  }

  // ---------------------------------------------------------------------------------------
  // The trait's provided methods (`IntoImpex::into_implicit`, `into_explicit`,
  // `Impex::is_implicit`, `set_explicit`, `set_implicit`).
  // ---------------------------------------------------------------------------------------

  function IntoImplicit(v: Value): (o: Overlay)
    ensures Extract(o) == v && !IsExplicit(o) && Stamped(o, false)
  {
    ExtractConstruct(v, false);
    ConstructExplicitness(v, false);
    ConstructStamped(v, false);
    Construct(v, false)
  }

  function IntoExplicit(v: Value): (o: Overlay)
    ensures Extract(o) == v && Stamped(o, true)
    ensures IsExplicit(o) <==> HasFlagSite(v)
  {
    ExtractConstruct(v, true);
    ConstructExplicitness(v, true);
    ConstructStamped(v, true);
    Construct(v, true)
  }

  /** `is_implicit`: no flag anywhere in `o` is set. */
  predicate IsImplicit(o: Overlay)
    ensures IsImplicit(o) <==> Stamped(o, false)
  {
    ImplicitIffStampedFalse(o);
    !IsExplicit(o)
  }

  function SetExplicit(o: Overlay, v: Value): (r: Overlay)
    requires Fits(o, v)
    ensures Extract(r) == v && Stamped(r, true)
    ensures IsExplicit(r) <==> HasFlagSite(v)
  {
    SetImpexIsConstruct(o, v, true);
    ExtractConstruct(v, true);
    ConstructExplicitness(v, true);
    ConstructStamped(v, true);
    SetImpex(o, v, true)
  }

  /** `set_implicit` as the trait's provided method is written: it passes `true`. */
  function SetImplicitAsWritten(o: Overlay, v: Value): (r: Overlay)
    requires Fits(o, v)
    ensures Extract(r) == v && Stamped(r, true)
  {
    SetImpexIsConstruct(o, v, true);
    ExtractConstruct(v, true);
    ConstructStamped(v, true);
    SetImpex(o, v, true)
  }

  /** `set_implicit` as its name and its sibling `set_explicit` say it is meant: it passes `false`. */
  function SetImplicit(o: Overlay, v: Value): (r: Overlay)
    requires Fits(o, v)
    ensures Extract(r) == v && Stamped(r, false) && !IsExplicit(r)
  {
    SetImpexIsConstruct(o, v, false);
    ExtractConstruct(v, false);
    ConstructExplicitness(v, false);
    ConstructStamped(v, false);
    SetImpex(o, v, false)
  }

  /** The provided `set_implicit` makes an implicit leaf explicit, where `SetImplicit` keeps it
    * implicit. */
  lemma SetImplicitAsWrittenMakesExplicit(p: Prim, q: Prim)
    requires KindOf(p) == KindOf(q)
    ensures IsExplicit(SetImplicitAsWritten(Leaf(p, false), PrimV(q)))
    ensures !IsExplicit(SetImplicit(Leaf(p, false), PrimV(q)))
  {
  }

  // ---------------------------------------------------------------------------------------
  // Properties of the four operations.
  // ---------------------------------------------------------------------------------------

  /** The associated-type bound `Impex<Value = Self>`: `into_value(into_impex(v, e)) == v`. */
  lemma {:induction false} ExtractConstruct(v: Value, e: bool)
    ensures Extract(Construct(v, e)) == v
    decreases v
  {
    match v
    case PrimV(_) =>
    case SomeV(x) => ExtractConstruct(x, e);
    case NoneV =>
    case VecV(xs) => ExtractConstructEach(xs, e);
    case ArrV(xs) => ExtractConstructEach(xs, e);
    case StructV(xs) => ExtractConstructEach(xs, e);
    case TupleV(xs) => ExtractConstructEach(xs, e);
    case VariantV(_, xs) => ExtractConstructEach(xs, e);
    case UnitV(_) =>
  }

  lemma {:induction false} ExtractConstructEach(xs: seq<Value>, e: bool)
    ensures ExtractEach(ConstructEach(xs, e)) == xs
    decreases xs
  {
    forall i | 0 <= i < |xs|
      ensures ExtractEach(ConstructEach(xs, e))[i] == xs[i]
    {
      ExtractConstruct(xs[i], e);
    }
  }

  /** `into_impex(v, e)` is explicit exactly when `e` holds and `v` has something to flag. */
  lemma {:induction false} ConstructExplicitness(v: Value, e: bool)
    ensures IsExplicit(Construct(v, e)) <==> e && HasFlagSite(v)
    decreases v
  {
    match v
    case PrimV(_) =>
    case SomeV(x) => ConstructExplicitness(x, e);
    case NoneV =>
    case VecV(xs) => ConstructExplicitnessEach(xs, e);
    case ArrV(xs) => ConstructExplicitnessEach(xs, e);
    case StructV(xs) => ConstructExplicitnessEach(xs, e);
    case TupleV(xs) => ConstructExplicitnessEach(xs, e);
    case VariantV(_, xs) => ConstructExplicitnessEach(xs, e);
    case UnitV(_) =>
  }

  lemma {:induction false} ConstructExplicitnessEach(xs: seq<Value>, e: bool)
    ensures forall i | 0 <= i < |xs| ::
      IsExplicit(ConstructEach(xs, e)[i]) <==> e && HasFlagSite(xs[i])
    decreases xs
  {
    forall i | 0 <= i < |xs|
      ensures IsExplicit(ConstructEach(xs, e)[i]) <==> e && HasFlagSite(xs[i])
    {
      ConstructExplicitness(xs[i], e);
    }
  }

  /** `into_impex(v, e)` flags everything with `e`. */
  lemma {:induction false} ConstructStamped(v: Value, e: bool)
    ensures Stamped(Construct(v, e), e)
    decreases v
  {
    match v
    case PrimV(_) =>
    case SomeV(x) => ConstructStamped(x, e);
    case NoneV =>
    case VecV(xs) => ConstructStampedEach(xs, e);
    case ArrV(xs) => ConstructStampedEach(xs, e);
    case StructV(xs) => ConstructStampedEach(xs, e);
    case TupleV(xs) => ConstructStampedEach(xs, e);
    case VariantV(_, xs) => ConstructStampedEach(xs, e);
    case UnitV(_) =>
  }

  lemma {:induction false} ConstructStampedEach(xs: seq<Value>, e: bool)
    ensures forall i | 0 <= i < |xs| :: Stamped(ConstructEach(xs, e)[i], e)
    decreases xs
  {
    forall i | 0 <= i < |xs|
      ensures Stamped(ConstructEach(xs, e)[i], e)
    {
      ConstructStamped(xs[i], e);
    }
  }

  /** An overlay whose flags all equal `e` is `into_impex` of its own value. */
  lemma {:induction false} ConstructExtract(o: Overlay, e: bool)
    requires Stamped(o, e)
    ensures Construct(Extract(o), e) == o
    decreases o
  {
    match o
    case Leaf(_, _) =>
    case OptSome(x) => ConstructExtract(x, e);
    case OptNone(_) =>
    case VecO(os) => ConstructExtractEach(os, e);
    case ArrO(os) => ConstructExtractEach(os, e);
    case StructO(os) => ConstructExtractEach(os, e);
    case TupleO(os) => ConstructExtractEach(os, e);
    case VariantO(_, os) => ConstructExtractEach(os, e);
    case UnitO(_, _) =>
  }

  lemma {:induction false} ConstructExtractEach(os: seq<Overlay>, e: bool)
    requires forall i | 0 <= i < |os| :: Stamped(os[i], e)
    ensures ConstructEach(ExtractEach(os), e) == os
    decreases os
  {
    forall i | 0 <= i < |os|
      ensures ConstructEach(ExtractEach(os), e)[i] == os[i]
    {
      ConstructExtract(os[i], e);
    }
  }

  /** `is_explicit` is false exactly when every flag is unset; so `is_implicit` is its negation
    * and means "nothing was set". */
  lemma {:induction false} ImplicitIffStampedFalse(o: Overlay)
    ensures !IsExplicit(o) <==> Stamped(o, false)
    decreases o
  {
    match o
    case Leaf(_, _) =>
    case OptSome(x) => ImplicitIffStampedFalse(x);
    case OptNone(_) =>
    case VecO(os) => ImplicitIffStampedFalseEach(os);
    case ArrO(os) => ImplicitIffStampedFalseEach(os);
    case StructO(os) => ImplicitIffStampedFalseEach(os);
    case TupleO(os) => ImplicitIffStampedFalseEach(os);
    case VariantO(_, os) => ImplicitIffStampedFalseEach(os);
    case UnitO(_, _) =>
  }

  lemma {:induction false} ImplicitIffStampedFalseEach(os: seq<Overlay>)
    ensures forall i | 0 <= i < |os| :: !IsExplicit(os[i]) <==> Stamped(os[i], false)
    decreases os
  {
    forall i | 0 <= i < |os|
      ensures !IsExplicit(os[i]) <==> Stamped(os[i], false)
    {
      ImplicitIffStampedFalse(os[i]);
    }
  }

  /**
   * `set_impex(v, e)` leaves nothing of the old overlay behind: whatever the shape, the result
   * is `into_impex(v, e)`, although arrays and structs get there by updating in place.
   */
  lemma {:induction false} SetImpexIsConstruct(o: Overlay, v: Value, e: bool)
    requires Fits(o, v)
    ensures SetImpex(o, v, e) == Construct(v, e)
    decreases o
  {
    match o
    case Leaf(_, _) =>
    case OptSome(_) =>
    case OptNone(_) =>
    case VecO(_) =>
    case ArrO(os) => SetImpexIsConstructEach(os, v.elems, e);
    case StructO(os) => SetImpexIsConstructEach(os, v.fields, e);
    case TupleO(os) => SetImpexIsConstructEach(os, v.fields, e);
    case VariantO(_, _) =>
    case UnitO(_, _) =>
  }

  lemma {:induction false} SetImpexIsConstructEach(os: seq<Overlay>, xs: seq<Value>, e: bool)
    requires |os| == |xs| && forall i | 0 <= i < |os| :: Fits(os[i], xs[i])
    ensures SetImpexEach(os, xs, e) == ConstructEach(xs, e)
    decreases os
  {
    forall i | 0 <= i < |os|
      ensures SetImpexEach(os, xs, e)[i] == ConstructEach(xs, e)[i]
    {
      SetImpexIsConstruct(os[i], xs[i], e);
    }
  }

  /** After `set_impex(v, e)`, `into_value` gives `v` back and `is_explicit` follows `e`. */
  lemma SetImpexResult(o: Overlay, v: Value, e: bool)
    requires Fits(o, v)
    ensures Extract(SetImpex(o, v, e)) == v
    ensures IsExplicit(SetImpex(o, v, e)) <==> e && HasFlagSite(v)
  {
    SetImpexIsConstruct(o, v, e);
    ExtractConstruct(v, e);
    ConstructExplicitness(v, e);
  }

  /** `into_impex` of a value of type `t` is an overlay of type `t`. */
  lemma {:induction false} ConstructTyped(v: Value, t: Ty, e: bool)
    requires HasType(v, t)
    ensures Typed(Construct(v, e), t)
    decreases v
  {
    match v
    case PrimV(_) =>
    case SomeV(x) => ConstructTyped(x, t.inner, e);
    case NoneV =>
    case VecV(xs) =>
      forall i | 0 <= i < |xs| ensures Typed(ConstructEach(xs, e)[i], t.elem) {
        ConstructTyped(xs[i], t.elem, e);
      }
    case ArrV(xs) =>
      forall i | 0 <= i < |xs| ensures Typed(ConstructEach(xs, e)[i], t.elem) {
        ConstructTyped(xs[i], t.elem, e);
      }
    case StructV(xs) =>
      forall i | 0 <= i < |xs| ensures Typed(ConstructEach(xs, e)[i], t.fields[i]) {
        ConstructTyped(xs[i], t.fields[i], e);
      }
    case TupleV(xs) =>
      forall i | 0 <= i < |xs| ensures Typed(ConstructEach(xs, e)[i], t.fields[i]) {
        ConstructTyped(xs[i], t.fields[i], e);
      }
    case VariantV(k, xs) =>
      forall i | 0 <= i < |xs| ensures Typed(ConstructEach(xs, e)[i], t.variants[k].fields[i]) {
        ConstructTyped(xs[i], t.variants[k].fields[i], e);
      }
    case UnitV(_) =>
  }

  /** `into_value` of an overlay of type `t` is a value of type `t`. */
  lemma {:induction false} ExtractTyped(o: Overlay, t: Ty)
    requires Typed(o, t)
    ensures HasType(Extract(o), t)
    decreases o
  {
    match o
    case Leaf(_, _) =>
    case OptSome(x) => ExtractTyped(x, t.inner);
    case OptNone(_) =>
    case VecO(os) =>
      forall i | 0 <= i < |os| ensures HasType(ExtractEach(os)[i], t.elem) {
        ExtractTyped(os[i], t.elem);
      }
    case ArrO(os) =>
      forall i | 0 <= i < |os| ensures HasType(ExtractEach(os)[i], t.elem) {
        ExtractTyped(os[i], t.elem);
      }
    case StructO(os) =>
      forall i | 0 <= i < |os| ensures HasType(ExtractEach(os)[i], t.fields[i]) {
        ExtractTyped(os[i], t.fields[i]);
      }
    case TupleO(os) =>
      forall i | 0 <= i < |os| ensures HasType(ExtractEach(os)[i], t.fields[i]) {
        ExtractTyped(os[i], t.fields[i]);
      }
    case VariantO(k, os) =>
      forall i | 0 <= i < |os| ensures HasType(ExtractEach(os)[i], t.variants[k].fields[i]) {
        ExtractTyped(os[i], t.variants[k].fields[i]);
      }
    case UnitO(_, _) =>
  }

  /** An overlay and a value of the same declared type can always be combined by `set_impex`. */
  lemma {:induction false} TypedFits(o: Overlay, v: Value, t: Ty)
    requires Typed(o, t) && HasType(v, t)
    ensures Fits(o, v)
    decreases o
  {
    match o
    case Leaf(_, _) =>
    case OptSome(_) =>
    case OptNone(_) =>
    case VecO(_) =>
    case ArrO(os) =>
      forall i | 0 <= i < |os| ensures Fits(os[i], v.elems[i]) {
        TypedFits(os[i], v.elems[i], t.elem);
      }
    case StructO(os) =>
      forall i | 0 <= i < |os| ensures Fits(os[i], v.fields[i]) {
        TypedFits(os[i], v.fields[i], t.fields[i]);
      }
    case TupleO(os) =>
      forall i | 0 <= i < |os| ensures Fits(os[i], v.fields[i]) {
        TypedFits(os[i], v.fields[i], t.fields[i]);
      }
    case VariantO(_, _) =>
    case UnitO(_, _) =>
  }

  /**
   * Every `Default` implementation of an overlay type agrees with `into_implicit` of the
   * value type's default: the default overlay holds the default value and is implicit.
   */
  lemma {:induction false} DefaultOverlayIsImplicitDefault(t: Ty)
    ensures DefaultOverlay(t) == Construct(DefaultValue(t), false)
    ensures Extract(DefaultOverlay(t)) == DefaultValue(t) && !IsExplicit(DefaultOverlay(t))
  {
    if t.TArray? {
      DefaultOverlayIsImplicitDefault(t.elem);
      var os := DefaultOverlay(t).elems;
      var vs := DefaultValue(t).elems;
      assert |os| == |vs| == t.size;
      assert forall i | 0 <= i < t.size :: os[i] == ConstructEach(vs, false)[i];
    }
    ExtractConstruct(DefaultValue(t), false);
    ConstructExplicitness(DefaultValue(t), false);
  }

  lemma DefaultOverlayTyped(t: Ty)
    requires WellFormed(t)
    ensures Typed(DefaultOverlay(t), t)
  {
    DefaultOverlayIsImplicitDefault(t);
    DefaultValueHasType(t);
    ConstructTyped(DefaultValue(t), t, false);
  }

  /** `visit` on `into_impex(v, e)` reaches the primitives of `v` in order, each flagged `e`. */
  lemma {:induction false} VisitConstruct(v: Value, e: bool)
    ensures Visit(Construct(v, e)) == Stamp(LeafValues(v), e)
    decreases v
  {
    match v
    case PrimV(_) =>
    case SomeV(x) => VisitConstruct(x, e);
    case NoneV =>
    case VecV(xs) => VisitConstructEach(xs, e);
    case ArrV(xs) => VisitConstructEach(xs, e);
    case StructV(xs) => VisitConstructEach(xs, e);
    case TupleV(xs) => VisitConstructEach(xs, e);
    case VariantV(_, xs) => VisitConstructEach(xs, e);
    case UnitV(_) =>
  }

  lemma {:induction false} VisitConstructEach(xs: seq<Value>, e: bool)
    ensures VisitEach(ConstructEach(xs, e)) == Stamp(LeafValuesEach(xs), e)
    decreases xs
  {
    if xs != [] {
      var n := |xs| - 1;
      assert ConstructEach(xs, e)[..n] == ConstructEach(xs[..n], e);
      VisitConstructEach(xs[..n], e);
      VisitConstruct(xs[n], e);
      StampAppend(LeafValuesEach(xs[..n]), LeafValues(xs[n]), e);
    }
  }

  lemma StampAppend(a: seq<Prim>, b: seq<Prim>, e: bool)
    ensures Stamp(a + b, e) == Stamp(a, e) + Stamp(b, e)
  {
    assert forall i | 0 <= i < |a| + |b| :: Stamp(a + b, e)[i] == (Stamp(a, e) + Stamp(b, e))[i];
  }
  /** Every overlay `visit` reaches is a leaf. */
  predicate AllLeaves(ls: seq<Overlay>) {
    forall i | 0 <= i < |ls| :: ls[i].Leaf?
  }

  function LeafPrims(ls: seq<Overlay>): (ps: seq<Prim>)
    requires AllLeaves(ls)
    ensures |ps| == |ls|
  {
    seq(|ls|, i requires 0 <= i < |ls| => ls[i].value)
  }

  /** `visit` reaches exactly the primitives of the overlay's value, in order: an empty
    * option and a unit variant reach nothing. */
  lemma {:induction false} VisitReachesValues(o: Overlay)
    ensures AllLeaves(Visit(o)) && LeafPrims(Visit(o)) == LeafValues(Extract(o))
    decreases o
  {
    match o
    case Leaf(_, _) =>
    case OptSome(x) => VisitReachesValues(x);
    case OptNone(_) =>
    case VecO(os) => VisitReachesValuesEach(os);
    case ArrO(os) => VisitReachesValuesEach(os);
    case StructO(os) => VisitReachesValuesEach(os);
    case TupleO(os) => VisitReachesValuesEach(os);
    case VariantO(_, os) => VisitReachesValuesEach(os);
    case UnitO(_, _) =>
  }

  lemma {:induction false} VisitReachesValuesEach(os: seq<Overlay>)
    ensures AllLeaves(VisitEach(os)) && LeafPrims(VisitEach(os)) == LeafValuesEach(ExtractEach(os))
    decreases os
  {
    if os != [] {
      var n := |os| - 1;
      assert ExtractEach(os)[..n] == ExtractEach(os[..n]);
      VisitReachesValuesEach(os[..n]);
      VisitReachesValues(os[n]);
      var a, b := VisitEach(os[..n]), Visit(os[n]);
      assert LeafPrims(a + b) == LeafPrims(a) + LeafPrims(b);
    }
  }

  // ---------------------------------------------------------------------------------------
  // The derived `PartialEq` of the overlays
  // ---------------------------------------------------------------------------------------

  /**
   * Equality as the derived and generated `eq` implementations compute it: leaves compare
   * value and flag, `None`s their flag; structs, tuple structs, Vecs and arrays compare field
   * by field (element by element); enums compare the fields of the same variant and are
   * unequal across variants; a unit variant's marker compares only its flag.
   */
  predicate Eq(a: Overlay, b: Overlay)
    decreases a
  {
    match a
    case Leaf(p, e) => b.Leaf? && b.value == p && b.explicit == e
    case OptSome(x) => b.OptSome? && Eq(x, b.inner)
    case OptNone(e) => b.OptNone? && b.explicit == e
    case VecO(os) => b.VecO? && EqEach(os, b.elems)
    case ArrO(os) => b.ArrO? && EqEach(os, b.elems)
    case StructO(os) => b.StructO? && EqEach(os, b.fields)
    case TupleO(os) => b.TupleO? && EqEach(os, b.fields)
    case VariantO(k, os) => b.VariantO? && b.tag == k && EqEach(os, b.fields)
    case UnitO(k, e) => b.UnitO? && b.tag == k && b.explicit == e
  }

  predicate EqEach(os: seq<Overlay>, ps: seq<Overlay>)
    decreases os
  {
    |os| == |ps| && forall i | 0 <= i < |os| :: Eq(os[i], ps[i])
  }

  /** The generated `eq` is structural equality of overlays. */
  lemma {:induction false} EqIsEquality(a: Overlay, b: Overlay)
    ensures Eq(a, b) <==> a == b
    decreases a
  {
    match a
    case OptSome(x) =>
      if b.OptSome? { EqIsEquality(x, b.inner); }
    case VecO(os) =>
      if b.VecO? { EqEachIsEquality(os, b.elems); }
    case ArrO(os) =>
      if b.ArrO? { EqEachIsEquality(os, b.elems); }
    case StructO(os) =>
      if b.StructO? { EqEachIsEquality(os, b.fields); }
    case TupleO(os) =>
      if b.TupleO? { EqEachIsEquality(os, b.fields); }
    case VariantO(_, os) =>
      if b.VariantO? { EqEachIsEquality(os, b.fields); }
    case _ =>
  }

  lemma {:induction false} EqEachIsEquality(os: seq<Overlay>, ps: seq<Overlay>)
    ensures EqEach(os, ps) <==> os == ps
    decreases os
  {
    if |os| == |ps| {
      forall i | 0 <= i < |os| ensures Eq(os[i], ps[i]) <==> os[i] == ps[i] {
        EqIsEquality(os[i], ps[i]);
      }
    }
  }
}
