/**
 * `OptionImpex<T>`: `Some` of an inner overlay, or `None` with a flag saying whether the `None`
 * was set explicitly (read as `null`) or is only a default (the key was missing). Its overlay
 * is the `OptSome`/`OptNone` shape of `Impex.Overlay`; the functions here are its inherent
 * methods and the facts that set it apart from the other shapes.
 */
module OptionImpex {
  import opened Wrappers
  import opened Values
  import opened Impex

  predicate IsOption(o: Overlay) {
    o.OptSome? || o.OptNone?
  }

  /** `explicit_none()`: a `None` that counts as set. */
  function ExplicitNone(): (o: Overlay)
    ensures IsOption(o) && Extract(o) == NoneV && IsExplicit(o)
  {
    OptNone(true)
  }

  /** `implicit_none()`: a `None` that counts as not set. */
  function ImplicitNone(): (o: Overlay)
    ensures IsOption(o) && Extract(o) == NoneV && !IsExplicit(o)
  {
    OptNone(false)
  }

  /** `Default` is `implicit_none()`, which is also the generic default overlay of an option. */
  function Default(inner: Ty): (o: Overlay)
    ensures o == ImplicitNone() && o == DefaultOverlay(TOption(inner))
    ensures Extract(o) == DefaultValue(TOption(inner)) && IsImplicit(o)
  {
    ImplicitNone()
  }

  /** `is_some`: the option holds a value, whatever its flags. */
  predicate IsSome(o: Overlay)
    requires IsOption(o)
    ensures IsSome(o) <==> Extract(o).SomeV?
  {
    o.OptSome?
  }

  /** `is_none`: the option holds no value, explicit or not. */
  predicate IsNone(o: Overlay)
    requires IsOption(o)
    ensures IsNone(o) <==> Extract(o).NoneV?
    ensures IsNone(o) <==> !IsSome(o)
  {
    o.OptNone?
  }

  /** `as_ref`: the inner overlay of `Some`, nothing for either `None`. */
  function AsRef(o: Overlay): (r: Option<Overlay>)
    requires IsOption(o)
    ensures r.Some? <==> IsSome(o)
    ensures r.Some? ==> Extract(o) == SomeV(Extract(r.value)) && (IsExplicit(o) <==> IsExplicit(r.value))
  {
    match o
    case OptSome(x) => Some(x)
    case OptNone(_) => None
  }

  /** `is_explicit` of an option: the inner overlay's for `Some`, the stored flag for `None`;
    * `into_value` forgets the flag of `None`. */
  lemma NoneFlagIsExplicitness(e: bool)
    ensures IsExplicit(OptNone(e)) == e
    ensures Extract(OptNone(true)) == Extract(OptNone(false)) == NoneV
    ensures Construct(NoneV, e) == OptNone(e)
  {
  }

  /** `set_impex` overwrites the whole option: the old inner overlay and the old flag leave no
    * trace, so two options set to the same value with the same flag are equal. */
  lemma SetDiscardsOld(o1: Overlay, o2: Overlay, v: Value, e: bool)
    requires IsOption(o1) && IsOption(o2) && (v.SomeV? || v.NoneV?)
    ensures SetImpex(o1, v, e) == SetImpex(o2, v, e) == Construct(v, e)
    ensures v.NoneV? ==> SetImpex(o1, v, e) == OptNone(e)
  {
  }

  /** `visit` reaches nothing in a `None`, and exactly what the inner overlay reaches in a
    * `Some`: the primitives of the option's value. */
  lemma VisitOption(o: Overlay)
    requires IsOption(o)
    ensures o.OptNone? ==> Visit(o) == []
    ensures AllLeaves(Visit(o)) && LeafPrims(Visit(o)) == LeafValues(Extract(o))
  {
    VisitReachesValues(o);
  }
}
