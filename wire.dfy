/**
 * The wire format of overlays: what the `Serialize` and `Deserialize` implementations of the
 * leaf type, `OptionImpex`, `Vec`, arrays and the generated structs, tuple structs and enums
 * produce and accept, on a JSON document.
 *
 * Serializing: an implicit leaf writes `null`; `None` writes `null` whatever its flag; a named
 * struct leaves out every implicit field; a tuple struct with one field is written as that
 * field, with several as an array; an enum writes a unit variant as its bare name and a data
 * variant as a map with the variant name as its single key (all fields written, none skipped).
 *
 * Deserializing: every leaf read is explicit; `null` for an option is an explicit `None`; a
 * named struct takes each missing field from the struct's declared default, as an implicit
 * overlay; an enum reads a unit variant from a string and any variant from a single-key map.
 */
module Wire {
  import opened Wrappers
  import opened Values
  import opened Impex
  import opened JsonData

  function Min(a: nat, b: nat): nat {
    if a <= b then a else b
  }

  function EncodePrim(p: Prim): Json {
    match p
    case PInt(i) => JNum(i)
    case PStr(s) => JStr(s)
  }

  /** The primitive types' own deserializers: a number for the integer types, a string for
    * `String`, anything else a type error. */
  function DecodePrim(j: Json, k: PrimKind): (r: Result<Prim, DecodeError>)
    ensures r.Ok? ==> KindOf(r.value) == k && EncodePrim(r.value) == j
    ensures r.Err? ==> r.error == InvalidType
  {
    if k == KInt && j.JNum? then Ok(PInt(j.n))
    else if k == KStr && j.JStr? then Ok(PStr(j.s))
    else Err(InvalidType)
  }

  /** The leaf's `Deserialize`: whatever value is read becomes an explicit leaf. */
  function DecodeLeaf(j: Json, k: PrimKind): (r: Result<Overlay, DecodeError>)
    ensures r.Ok? <==> DecodePrim(j, k).Ok?
    ensures r.Ok? ==> r.value.Leaf? && r.value.explicit && KindOf(r.value.value) == k
  {
    var p :- DecodePrim(j, k);
    Ok(Leaf(p, true))
  }

  // ---------------------------------------------------------------------------------------
  // Serialize
  // ---------------------------------------------------------------------------------------

  function Encode(o: Overlay, t: Ty): Json
    requires WellFormed(t) && Typed(o, t)
    decreases o
  {
    match o
    case Leaf(p, e) => if e then EncodePrim(p) else JNull
    case OptSome(x) => Encode(x, t.inner)
    case OptNone(_) => JNull
    case VecO(os) => JArr(EncodeUniform(os, t.elem))
    case ArrO(os) => JArr(EncodeUniform(os, t.elem))
    case StructO(os) => JObj(EncodeFieldsFrom(os, t.names, t.fields, true, 0))
    case TupleO(os) => EncodePositional(os, t.fields)
    case VariantO(k, os) =>
      var vt := t.variants[k];
      assert VariantWellFormed(vt);
      var payload :=
        if vt.form.Named? then JObj(EncodeFieldsFrom(os, vt.form.names, vt.fields, false, 0))
        else EncodePositional(os, vt.fields);
      JObj([Entry(vt.name, payload)])
    case UnitO(k, _) => JStr(t.variants[k].name)
  }

  /** Elements of a Vec or an array, all of one type, in index order. */
  function EncodeUniform(os: seq<Overlay>, t: Ty): (js: seq<Json>)
    requires WellFormed(t) && forall i | 0 <= i < |os| :: Typed(os[i], t)
    ensures |js| == |os|
    decreases os
  {
    seq(|os|, i requires 0 <= i < |os| => Encode(os[i], t))
  }

  function EncodeList(os: seq<Overlay>, tys: seq<Ty>): (js: seq<Json>)
    requires |os| == |tys| && AllWellFormed(tys) && forall i | 0 <= i < |os| :: Typed(os[i], tys[i])
    ensures |js| == |os|
    decreases os, 0
  {
    seq(|os|, i requires 0 <= i < |os| => Encode(os[i], tys[i]))
  }

  /** A tuple struct or an unnamed variant payload: one field bare, otherwise an array. */
  function EncodePositional(os: seq<Overlay>, tys: seq<Ty>): Json
    requires |os| == |tys| && AllWellFormed(tys) && forall i | 0 <= i < |os| :: Typed(os[i], tys[i])
    decreases os, 1
  {
    if |os| == 1 then Encode(os[0], tys[0]) else JArr(EncodeList(os, tys))
  }

  /** A field is written unless implicit fields are skipped and it is implicit. */
  predicate Kept(skipImplicit: bool, o: Overlay) {
    !skipImplicit || IsExplicit(o)
  }

  /** The entries of fields `i..` of a struct (skipping implicit ones) or of a named variant. */
  function EncodeFieldsFrom(os: seq<Overlay>, ns: seq<string>, tys: seq<Ty>, skipImplicit: bool, i: nat)
    : seq<Entry>
    requires i <= |os| == |ns| == |tys| && AllWellFormed(tys)
    requires forall j | 0 <= j < |os| :: Typed(os[j], tys[j])
    decreases os, |os| - i
  {
    if i == |os| then []
    else
      var here := if Kept(skipImplicit, os[i]) then [Entry(ns[i], Encode(os[i], tys[i]))] else [];
      here + EncodeFieldsFrom(os, ns, tys, skipImplicit, i + 1)
  }

  // ---------------------------------------------------------------------------------------
  // Deserialize
  // ---------------------------------------------------------------------------------------

  function Decode(j: Json, t: Ty): (r: Result<Overlay, DecodeError>)
    requires WellFormed(t)
    ensures r.Ok? ==> Typed(r.value, t)
    decreases t, 0
  {
    match t
    case TPrim(k) => DecodeLeaf(j, k)
    case TOption(ti) =>
      if j.JNull? then Ok(OptNone(true))
      else
        var x :- Decode(j, ti);
        Ok(OptSome(x))
    case TVec(te) =>
      if !j.JArr? then Err(InvalidType)
      else
        var os :- DecodeUniform(j.items, te);
        Ok(VecO(os))
    case TArray(te, n) =>
      if !j.JArr? then Err(InvalidType)
      else
        var os :- DecodeUniform(j.items[..Min(n, |j.items|)], te);
        if |j.items| != n then Err(InvalidLength(|j.items|)) else Ok(ArrO(os))
    case TStruct(ns, tys, d) => DecodeStruct(j, ns, tys, d)
    case TTuple(tys, _) =>
      var os :- DecodePositional(j, tys);
      Ok(TupleO(os))
    case TEnum(vs, _) => DecodeEnum(j, vs)
  }

  /** A generated struct (`#[serde(default)]`): from a map, the fields it names, the rest from
    * the declared default, implicit; from an array, the leading fields in order, the rest
    * again from the default. */
  function DecodeStruct(j: Json, ns: seq<string>, tys: seq<Ty>, d: Value): (r: Result<Overlay, DecodeError>)
    requires WellFormed(TStruct(ns, tys, d))
    ensures r.Ok? ==> Typed(r.value, TStruct(ns, tys, d))
    decreases tys, 2
  {
    if j.JObj? then
      var found :- ScanFields(j.entries, ns, tys, Absent(|tys|));
      Ok(StructO(FillDefaults(found, tys, d)))
    else if j.JArr? then
      var os :- DecodeList(j.items, tys);
      if |j.items| > |tys| then Err(InvalidLength(|j.items|))
      else
        DefaultsFrom(d.fields, tys, |os|);
        Ok(StructO(os + ConstructEach(d.fields[|os|..], false)))
    else Err(InvalidType)
  }

  /** Every element of a Vec, or the elements of an array up to its size. */
  function DecodeUniform(items: seq<Json>, t: Ty): (r: Result<seq<Overlay>, DecodeError>)
    requires WellFormed(t)
    ensures r.Ok? ==> |r.value| == |items| && forall i | 0 <= i < |items| :: Typed(r.value[i], t)
    decreases t, 1, |items|
  {
    if items == [] then Ok([])
    else
      var o :- Decode(items[0], t);
      var os :- DecodeUniform(items[1..], t);
      Ok([o] + os)
  }

  /** Positional fields, decoded pairwise as long as both the items and the types last. */
  function DecodeList(items: seq<Json>, tys: seq<Ty>): (r: Result<seq<Overlay>, DecodeError>)
    requires AllWellFormed(tys)
    ensures r.Ok? ==> |r.value| == Min(|items|, |tys|)
    ensures r.Ok? ==> forall i | 0 <= i < |r.value| :: Typed(r.value[i], tys[i])
    decreases tys, 1
  {
    if items == [] || tys == [] then Ok([])
    else
      var o :- Decode(items[0], tys[0]);
      var os :- DecodeList(items[1..], tys[1..]);
      Ok([o] + os)
  }

  /** A tuple struct or unnamed variant payload: one field is read bare, several from an array
    * of exactly that length. */
  function DecodePositional(j: Json, tys: seq<Ty>): (r: Result<seq<Overlay>, DecodeError>)
    requires AllWellFormed(tys)
    ensures r.Ok? ==> |r.value| == |tys| && forall i | 0 <= i < |tys| :: Typed(r.value[i], tys[i])
    decreases tys, 2
  {
    if |tys| == 1 then
      var o :- Decode(j, tys[0]);
      Ok([o])
    else if !j.JArr? then Err(InvalidType)
    else
      var os :- DecodeList(j.items, tys);
      if |j.items| != |tys| then Err(InvalidLength(|j.items|)) else Ok(os)
  }

  function Absent(n: nat): (found: seq<Option<Overlay>>)
    ensures |found| == n && forall i | 0 <= i < n :: found[i].None?
  {
    seq(n, _ => None)
  }

  /** The fields a map supplies, read entry by entry: an unknown key is skipped, a known key
    * seen a second time is an error, and the first error stops the scan. */
  function ScanFields(es: seq<Entry>, ns: seq<string>, tys: seq<Ty>, found: seq<Option<Overlay>>)
    : (r: Result<seq<Option<Overlay>>, DecodeError>)
    requires |ns| == |tys| == |found| && AllWellFormed(tys)
    requires forall i | 0 <= i < |found| :: found[i].Some? ==> Typed(found[i].value, tys[i])
    ensures r.Ok? ==> |r.value| == |tys|
    ensures r.Ok? ==> forall i | 0 <= i < |tys| :: r.value[i].Some? ==> Typed(r.value[i].value, tys[i])
    decreases tys, 1, |es|
  {
    if es == [] then Ok(found)
    else
      match IndexOf(ns, es[0].key)
      case None => ScanFields(es[1..], ns, tys, found)
      case Some(i) =>
        if found[i].Some? then Err(DuplicateField(es[0].key))
        else
          var o :- Decode(es[0].value, tys[i]);
          ScanFields(es[1..], ns, tys, found[i := Some(o)])
  }

  /** The struct's fields after the scan: what the map supplied, otherwise the field of the
    * declared default, constructed implicit. */
  function FillDefaults(found: seq<Option<Overlay>>, tys: seq<Ty>, d: Value): (os: seq<Overlay>)
    requires |found| == |tys| && d.StructV? && |d.fields| == |tys|
    requires forall i | 0 <= i < |tys| :: HasType(d.fields[i], tys[i])
    requires forall i | 0 <= i < |found| :: found[i].Some? ==> Typed(found[i].value, tys[i])
    ensures |os| == |found| && forall i | 0 <= i < |os| :: Typed(os[i], tys[i])
  {
    forall i | 0 <= i < |tys| ensures Typed(Construct(d.fields[i], false), tys[i]) {
      ConstructTyped(d.fields[i], tys[i], false);
    }
    seq(|found|, i requires 0 <= i < |found| =>
      if found[i].Some? then found[i].value else Construct(d.fields[i], false))
  }

  /** The declared default supplies the fields a short array leaves out. */
  lemma DefaultsFrom(ds: seq<Value>, tys: seq<Ty>, m: nat)
    requires |ds| == |tys| && m <= |tys| && forall i | 0 <= i < |tys| :: HasType(ds[i], tys[i])
    ensures forall i | 0 <= i < |tys| - m :: Typed(ConstructEach(ds[m..], false)[i], tys[m + i])
  {
    forall i | 0 <= i < |tys| - m ensures Typed(ConstructEach(ds[m..], false)[i], tys[m + i]) {
      ConstructTyped(ds[m + i], tys[m + i], false);
    }
  }

  /** The fields of a named variant payload: every field must be present, except that a missing
    * option reads as an explicit `None`. The first missing field in declaration order is
    * reported. */
  function FillRequired(found: seq<Option<Overlay>>, ns: seq<string>, tys: seq<Ty>)
    : (r: Result<seq<Overlay>, DecodeError>)
    requires |found| == |ns| == |tys|
    requires forall i | 0 <= i < |found| :: found[i].Some? ==> Typed(found[i].value, tys[i])
    ensures r.Ok? ==> |r.value| == |found| && forall i | 0 <= i < |found| :: Typed(r.value[i], tys[i])
    decreases |found|
  {
    if found == [] then Ok([])
    else
      var first :-
        if found[0].Some? then Ok(found[0].value)
        else if tys[0].TOption? then Ok(OptNone(true))
        else Err(MissingField(ns[0]));
      var rest :- FillRequired(found[1..], ns[1..], tys[1..]);
      Ok([first] + rest)
  }

  /** A named variant payload: a map of its fields, or an array of exactly its field count. */
  function DecodeNamed(j: Json, ns: seq<string>, tys: seq<Ty>): (r: Result<seq<Overlay>, DecodeError>)
    requires |ns| == |tys| && AllWellFormed(tys)
    ensures r.Ok? ==> |r.value| == |tys| && forall i | 0 <= i < |tys| :: Typed(r.value[i], tys[i])
    decreases tys, 2
  {
    if j.JObj? then
      var found :- ScanFields(j.entries, ns, tys, Absent(|tys|));
      FillRequired(found, ns, tys)
    else if j.JArr? then
      var os :- DecodeList(j.items, tys);
      if |j.items| != |tys| then Err(InvalidLength(|j.items|)) else Ok(os)
    else Err(InvalidType)
  }

  function DecodeVariant(payload: Json, k: nat, vt: VariantTy): (r: Result<Overlay, DecodeError>)
    requires VariantWellFormed(vt)
    ensures r.Ok? ==> (r.value.VariantO? || r.value.UnitO?) && r.value.tag == k
    ensures r.Ok? && vt.form.UnitForm? ==> r.value == UnitO(k, true)
    ensures r.Ok? && !vt.form.UnitForm? ==>
      r.value.VariantO? && |r.value.fields| == |vt.fields|
      && forall i | 0 <= i < |vt.fields| :: Typed(r.value.fields[i], vt.fields[i])
    decreases vt, 0
  {
    match vt.form
    case UnitForm => Ok(UnitO(k, true))
    case Unnamed =>
      var os :- DecodePositional(payload, vt.fields);
      Ok(VariantO(k, os))
    case Named(ns) =>
      var os :- DecodeNamed(payload, ns, vt.fields);
      Ok(VariantO(k, os))
  }

  /**
   * The generated enum deserializer: a string names a unit variant; a map's first key names
   * the variant and its value is the payload (ignored for a unit variant). A payload error
   * is reported first, then a second key, then an unknown name.
   */
  function DecodeEnum(j: Json, vs: seq<VariantTy>): (r: Result<Overlay, DecodeError>)
    requires forall k | 0 <= k < |vs| :: VariantWellFormed(vs[k])
    ensures r.Ok? ==> Typed(r.value, TEnum(vs, UnitV(0)))
    decreases vs, 1
  {
    match j
    case JStr(s) =>
      (match IndexOf(VariantNames(vs), s)
       case Some(k) => if vs[k].form.UnitForm? then Ok(UnitO(k, true)) else Err(UnknownVariant(s))
       case None => Err(UnknownVariant(s)))
    case JObj(es) =>
      if es == [] then Err(InvalidLength(0))
      else
        (match IndexOf(VariantNames(vs), es[0].key)
         case None => if |es| > 1 then Err(ExpectedSingleVariantKey) else Err(UnknownVariant(es[0].key))
         case Some(k) =>
           var o :- DecodeVariant(es[0].value, k, vs[k]);
           if |es| > 1 then Err(ExpectedSingleVariantKey) else Ok(o))
    case _ => Err(InvalidType)
  }
}
