/**
 * `Vec<T>` as an overlay: one overlay per element, explicit when any element is. `set_impex`
 * clears the vector and extends it with the new elements, constructed at the given flag;
 * `visit` walks the elements in index order.
 */
module VecImpex {
  import opened Values
  import opened Impex

  class VecImpex {
    var elems: seq<Overlay>

    /** `into_impex` of a `Vec`: each element constructed with the same flag, in order. */
    constructor (v: seq<Value>, e: bool)
      ensures elems == ConstructEach(v, e)
      ensures Model() == Construct(VecV(v), e)
      ensures Extract(Model()) == VecV(v)
    {
      elems := ConstructEach(v, e);
      ExtractConstruct(VecV(v), e);
    }

    function Model(): Overlay
      reads this
    {
      VecO(elems)
    }

    /** `is_explicit`: some element is explicit; an empty vector is implicit. */
    predicate IsExplicit()
      reads this
      ensures IsExplicit() <==> Impex.IsExplicit(Model())
      ensures elems == [] ==> !IsExplicit()
    {
      exists i | 0 <= i < |elems| :: Impex.IsExplicit(elems[i])
    }

    /** `into_value`: the elements' values, in order. */
    function IntoValue(): (v: seq<Value>)
      reads this
      ensures |v| == |elems| && forall i | 0 <= i < |v| :: v[i] == Extract(elems[i])
      ensures Extract(Model()) == VecV(v)
    {
      ExtractEach(elems)
    }

    /** `set_impex(v, e)`: `clear()`, then `extend` with every element of `v` constructed at `e`.
      * No old element survives and the new length is that of `v`. */
    method SetImpex(v: seq<Value>, e: bool)
      modifies this
      ensures elems == ConstructEach(v, e)
      ensures Model() == Impex.SetImpex(old(Model()), VecV(v), e)
      ensures Extract(Model()) == VecV(v)
      ensures Impex.IsExplicit(Model()) <==> e && exists i | 0 <= i < |v| :: HasFlagSite(v[i])
    {
      elems := [];
      var i := 0;
      while i < |v|
        invariant 0 <= i <= |v|
        invariant |elems| == i && forall k | 0 <= k < i :: elems[k] == Construct(v[k], e)
      {
        elems := elems + [Construct(v[i], e)];
        i := i + 1;
      }
      ExtractConstruct(VecV(v), e);
      ConstructExplicitness(VecV(v), e);
    }

    /** `visit`: every element in index order. The visitor's own action on a leaf is not part of
      * the model; what is recorded is the sequence of leaves it reaches, appended to `ctx`. */
    method Visit(ctx: seq<Overlay>) returns (out: seq<Overlay>)
      ensures out == ctx + Impex.Visit(Model())
      ensures AllLeaves(out[|ctx|..]) && LeafPrims(out[|ctx|..]) == LeafValues(Extract(Model()))
    {
      out := ctx;
      var i := 0;
      while i < |elems|
        invariant 0 <= i <= |elems|
        invariant out == ctx + VisitEach(elems[..i])
      {
        assert elems[..i + 1][..i] == elems[..i];
        out := out + Impex.Visit(elems[i]);
        i := i + 1;
      }
      assert elems[..i] == elems;
      assert out[|ctx|..] == Impex.Visit(Model());
      VisitReachesValues(Model());
    }
  }
}
