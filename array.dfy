/**
 * `[T; SIZE]` as an overlay: an array of element overlays, updated in place. `set_impex` zips
 * the array with the new elements and forwards `set_impex` to each slot; `visit` walks the
 * slots in index order.
 */
module ArrayImpex {
  import opened Values
  import opened Impex

  /** `set_impex(v, e)`: each slot updated in place by its own `set_impex` at the same flag.
    * The length never changes, and the result is `into_impex(v, e)`. */
  method SetImpex(a: array<Overlay>, v: seq<Value>, e: bool)
    requires a.Length == |v| && forall i | 0 <= i < a.Length :: Fits(a[i], v[i])
    modifies a
    ensures a[..] == SetImpexEach(old(a[..]), v, e)
    ensures ArrO(a[..]) == Impex.SetImpex(ArrO(old(a[..])), ArrV(v), e)
    ensures a[..] == ConstructEach(v, e)
    ensures Extract(ArrO(a[..])) == ArrV(v)
  {
    var i := 0;
    while i < a.Length
      invariant 0 <= i <= a.Length
      invariant forall k | 0 <= k < i :: a[k] == Impex.SetImpex(old(a[k]), v[k], e)
      invariant forall k | i <= k < a.Length :: a[k] == old(a[k])
    {
      a[i] := Impex.SetImpex(a[i], v[i], e);
      i := i + 1;
    }
    assert a[..] == SetImpexEach(old(a[..]), v, e);
    SetImpexIsConstructEach(old(a[..]), v, e);
    ExtractConstruct(ArrV(v), e);
  }

  /** `visit`: every slot in index order; the leaves reached are appended to `ctx`. */
  method Visit(a: array<Overlay>, ctx: seq<Overlay>) returns (out: seq<Overlay>)
    ensures out == ctx + Impex.Visit(ArrO(a[..]))
    ensures AllLeaves(out[|ctx|..]) && LeafPrims(out[|ctx|..]) == LeafValues(Extract(ArrO(a[..])))
  {
    out := ctx;
    var i := 0;
    while i < a.Length
      invariant 0 <= i <= a.Length
      invariant out == ctx + VisitEach(a[..i])
    {
      assert a[..i + 1][..i] == a[..i];
      out := out + Impex.Visit(a[i]);
      i := i + 1;
    }
    assert a[..i] == a[..];
    assert out[|ctx|..] == Impex.Visit(ArrO(a[..]));
    VisitReachesValues(ArrO(a[..]));
  }

  /** `into_impex` of an array constructs every slot with the same flag; `into_value` gives the
    * array back, and `is_explicit` is false for an array of size zero. */
  lemma ConstructArray(v: seq<Value>, e: bool)
    ensures Construct(ArrV(v), e).elems == ConstructEach(v, e)
    ensures |Construct(ArrV(v), e).elems| == |v|
    ensures Extract(Construct(ArrV(v), e)) == ArrV(v)
    ensures v == [] ==> !IsExplicit(Construct(ArrV(v), e))
  {
    ExtractConstruct(ArrV(v), e);
  }
}
