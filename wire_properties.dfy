/**
 * What the wire format promises: the leaf, option, struct and enum rules one at a time, and
 * the round trip `deserialize(serialize(o)) == o` for every overlay that the format can
 * represent.
 */
module WireProperties {
  import opened Wrappers
  import opened Values
  import opened Impex
  import opened JsonData
  import opened Wire

  /** Values of type `t` can be written as `null`: an option, or a one-field tuple struct (which
    * is written as its field) around such a type. */
  predicate MayBeNull(t: Ty)
    decreases t
  {
    t.TOption? || (t.TTuple? && |t.fields| == 1 && MayBeNull(t.fields[0]))
  }

  /**
   * The overlays the format represents exactly: every leaf, `None` and unit-variant flag is set,
   * an option never holds something written as `null` (so `Some` is not read back as `None`),
   * and a struct field is either explicit, or implicit and equal to the field the declared
   * default supplies (the deserializer's value for a missing key).
   */
  predicate Canonical(o: Overlay, t: Ty)
    requires WellFormed(t) && Typed(o, t)
    decreases o
  {
    match o
    case Leaf(_, e) => e
    case OptSome(x) => !MayBeNull(t.inner) && Canonical(x, t.inner)
    case OptNone(e) => e
    case VecO(os) => forall i | 0 <= i < |os| :: Canonical(os[i], t.elem)
    case ArrO(os) => forall i | 0 <= i < |os| :: Canonical(os[i], t.elem)
    case StructO(os) =>
      assert AllWellFormed(t.fields);
      forall i | 0 <= i < |os| ::
        if IsExplicit(os[i]) then Canonical(os[i], t.fields[i])
        else os[i] == Construct(t.dflt.fields[i], false)
    case TupleO(os) =>
      assert AllWellFormed(t.fields);
      forall i | 0 <= i < |os| :: Canonical(os[i], t.fields[i])
    case VariantO(k, os) =>
      assert VariantWellFormed(t.variants[k]) && AllWellFormed(t.variants[k].fields);
      forall i | 0 <= i < |os| :: Canonical(os[i], t.variants[k].fields[i])
    case UnitO(_, e) => e
  }

  /** The scan result a map of the kept fields of `os` produces. */
  function KeptFields(os: seq<Overlay>, skipImplicit: bool): (found: seq<Option<Overlay>>)
    ensures |found| == |os|
  {
    seq(|os|, j requires 0 <= j < |os| => if Kept(skipImplicit, os[j]) then Some(os[j]) else None)
  }

  // ---------------------------------------------------------------------------------------
  // Leaves and options
  // ---------------------------------------------------------------------------------------

  /** A leaf survives serialization exactly when it is explicit; an implicit leaf is written as
    * `null`, which no primitive deserializer accepts. */
  lemma LeafRoundTrip(p: Prim, e: bool)
    ensures Encode(Leaf(p, e), TPrim(KindOf(p))) == (if e then EncodePrim(p) else JNull)
    ensures Decode(Encode(Leaf(p, e), TPrim(KindOf(p))), TPrim(KindOf(p)))
         == (if e then Ok(Leaf(p, true)) else Err(InvalidType))
  {
  }

  /** Both `None(true)` and `None(false)` are written as `null`, and `null` is read back as
    * `None(true)`; anything else is read as `Some` of the inner type's reading. */
  lemma OptionWire(t: Ty, e: bool, j: Json)
    requires WellFormed(t) && t.TOption?
    ensures Encode(OptNone(e), t) == JNull
    ensures Decode(JNull, t) == Ok(OptNone(true))
    ensures j != JNull ==>
      Decode(j, t) == (match Decode(j, t.inner) case Ok(x) => Ok(OptSome(x)) case Err(err) => Err(err))
  {
  }

  /** An overlay the format represents is never written as `null` unless its type may be. */
  lemma {:induction false} EncodeNonNull(o: Overlay, t: Ty)
    requires WellFormed(t) && Typed(o, t) && Canonical(o, t) && !MayBeNull(t)
    ensures Encode(o, t) != JNull
    decreases o
  {
    match o
    case Leaf(p, _) =>
      assert Encode(o, t) == EncodePrim(p);
    case TupleO(os) =>
      if |os| == 1 {
        EncodeNonNull(os[0], t.fields[0]);
      }
    case _ =>
  }

  // ---------------------------------------------------------------------------------------
  // Named structs
  // ---------------------------------------------------------------------------------------

  /** The keys written for fields `i..` are the names of exactly the kept fields among them. */
  lemma {:induction false} EncodedKeys(os: seq<Overlay>, ns: seq<string>, tys: seq<Ty>, skip: bool, i: nat, key: string)
    requires i <= |os| == |ns| == |tys| && AllWellFormed(tys)
    requires forall j | 0 <= j < |os| :: Typed(os[j], tys[j])
    ensures key in Keys(EncodeFieldsFrom(os, ns, tys, skip, i))
        <==> exists j | i <= j < |os| :: Kept(skip, os[j]) && ns[j] == key
    decreases |os| - i
  {
    if i < |os| {
      EncodedKeys(os, ns, tys, skip, i + 1, key);
      var here := if Kept(skip, os[i]) then [Entry(ns[i], Encode(os[i], tys[i]))] else [];
      assert Keys(here + EncodeFieldsFrom(os, ns, tys, skip, i + 1))
          == Keys(here) + Keys(EncodeFieldsFrom(os, ns, tys, skip, i + 1));
      if key in Keys(here) {
        assert Kept(skip, os[i]) && ns[i] == key;
      }
      if exists j | i <= j < |os| :: Kept(skip, os[j]) && ns[j] == key {
        var j :| i <= j < |os| && Kept(skip, os[j]) && ns[j] == key;
        if j == i {
          assert Keys(here) == [key];
        } else {
          assert i + 1 <= j;
        }
      }
    }
  }

  /** A struct writes the key of a field exactly when that field is explicit. */
  lemma StructKeyPresentIffExplicit(os: seq<Overlay>, t: Ty, i: nat)
    requires WellFormed(t) && Typed(StructO(os), t) && i < |os|
    ensures Encode(StructO(os), t).JObj?
    ensures t.names[i] in Keys(Encode(StructO(os), t).entries) <==> IsExplicit(os[i])
  {
    EncodedKeys(os, t.names, t.fields, true, 0, t.names[i]);
  }

  /** Fields `i..` write nothing when none of them is kept. */
  lemma {:induction false} NothingKeptWritesNothing(os: seq<Overlay>, ns: seq<string>, tys: seq<Ty>, skip: bool, i: nat)
    requires i <= |os| == |ns| == |tys| && AllWellFormed(tys)
    requires forall j | 0 <= j < |os| :: Typed(os[j], tys[j])
    requires forall j | i <= j < |os| :: !Kept(skip, os[j])
    ensures EncodeFieldsFrom(os, ns, tys, skip, i) == []
    decreases |os| - i
  {
    if i < |os| {
      NothingKeptWritesNothing(os, ns, tys, skip, i + 1);
    }
  }

  /** A struct with nothing explicit in it is written as `{}`. */
  lemma ImplicitStructEncodesEmpty(os: seq<Overlay>, t: Ty)
    requires WellFormed(t) && Typed(StructO(os), t) && !IsExplicit(StructO(os))
    ensures Encode(StructO(os), t) == JObj([])
  {
    NothingKeptWritesNothing(os, t.names, t.fields, true, 0);
  }

  /** The scan leaves the slot of a field untouched when no entry carries its name. */
  lemma {:induction false} ScanUntouched(es: seq<Entry>, ns: seq<string>, tys: seq<Ty>, found: seq<Option<Overlay>>, i: nat)
    requires |ns| == |tys| == |found| && AllWellFormed(tys) && i < |ns|
    requires forall j | 0 <= j < |found| :: found[j].Some? ==> Typed(found[j].value, tys[j])
    requires ScanFields(es, ns, tys, found).Ok? && ns[i] !in Keys(es)
    ensures ScanFields(es, ns, tys, found).value[i] == found[i]
    decreases |es|
  {
    if es != [] {
      assert Keys(es[1..]) == Keys(es)[1..];
      match IndexOf(ns, es[0].key)
      case None =>
        ScanUntouched(es[1..], ns, tys, found, i);
      case Some(k) =>
        assert k != i;
        var o := Decode(es[0].value, tys[k]).value;
        ScanUntouched(es[1..], ns, tys, found[k := Some(o)], i);
    }
  }

  /** A key missing from the map reads as the declared default's field, implicit. */
  lemma MissingKeyReadsImplicitDefault(es: seq<Entry>, t: Ty, i: nat)
    requires WellFormed(t) && t.TStruct? && i < |t.names|
    requires Decode(JObj(es), t).Ok? && t.names[i] !in Keys(es)
    ensures Decode(JObj(es), t).value.StructO?
    ensures Decode(JObj(es), t).value.fields[i] == Construct(t.dflt.fields[i], false)
    ensures !IsExplicit(Decode(JObj(es), t).value.fields[i])
  {
    ScanUntouched(es, t.names, t.fields, Absent(|t.fields|), i);
    ConstructExplicitness(t.dflt.fields[i], false);
  }

  /** `{}` reads as the struct's `Default` overlay. */
  lemma EmptyObjectReadsDefault(t: Ty)
    requires WellFormed(t) && t.TStruct?
    ensures Decode(JObj([]), t) == Ok(DefaultOverlay(t))
  {
    var fs := FillDefaults(Absent(|t.fields|), t.fields, t.dflt);
    assert fs == ConstructEach(t.dflt.fields, false);
    assert DecodeStruct(JObj([]), t.names, t.fields, t.dflt) == Ok(StructO(fs));
  }

  // ---------------------------------------------------------------------------------------
  // Enums
  // ---------------------------------------------------------------------------------------

  /** A string reads as an enum value exactly when it names a unit variant; otherwise it is an
    * unknown variant, data variants included. */
  lemma EnumFromString(t: Ty, s: string)
    requires WellFormed(t) && t.TEnum?
    ensures Decode(JStr(s), t).Ok?
        <==> exists k | 0 <= k < |t.variants| :: t.variants[k].name == s && t.variants[k].form.UnitForm?
    ensures Decode(JStr(s), t).Err? ==> Decode(JStr(s), t) == Err(UnknownVariant(s))
    ensures Decode(JStr(s), t).Ok? ==> Decode(JStr(s), t).value.UnitO? && Decode(JStr(s), t).value.explicit
  {
    var names := VariantNames(t.variants);
    if k :| 0 <= k < |t.variants| && t.variants[k].name == s {
      IndexOfDistinct(names, k);
    }
  }

  /** The map forms the enum deserializer refuses: an empty map, a single unknown key, and a
    * second key after a known one (once its payload reads) or after an unknown one. */
  lemma EnumMapErrors(t: Ty, es: seq<Entry>)
    requires WellFormed(t) && t.TEnum?
    ensures es == [] ==> Decode(JObj(es), t) == Err(InvalidLength(0))
    ensures |es| == 1 && es[0].key !in VariantNames(t.variants) ==>
      Decode(JObj(es), t) == Err(UnknownVariant(es[0].key))
    ensures |es| > 1 && es[0].key !in VariantNames(t.variants) ==>
      Decode(JObj(es), t) == Err(ExpectedSingleVariantKey)
    ensures |es| > 1 && IndexOf(VariantNames(t.variants), es[0].key).Some? ==>
      var k := IndexOf(VariantNames(t.variants), es[0].key).value;
      DecodeVariant(es[0].value, k, t.variants[k]).Ok? ==> Decode(JObj(es), t) == Err(ExpectedSingleVariantKey)
  {
  }

  /** A unit variant's key in a map is accepted whatever its value. */
  lemma UnitKeyIgnoresValue(t: Ty, k: nat, payload: Json)
    requires WellFormed(t) && t.TEnum? && k < |t.variants| && t.variants[k].form.UnitForm?
    ensures Decode(JObj([Entry(t.variants[k].name, payload)]), t) == Ok(UnitO(k, true))
  {
    IndexOfDistinct(VariantNames(t.variants), k);
    assert VariantWellFormed(t.variants[k]);
    assert DecodeVariant(payload, k, t.variants[k]) == Ok(UnitO(k, true));
  }

  /** A unit variant is written as its name, implicit or not, and read back explicit. */
  lemma UnitVariantWire(t: Ty, k: nat, e: bool)
    requires WellFormed(t) && Typed(UnitO(k, e), t)
    ensures Encode(UnitO(k, e), t) == JStr(t.variants[k].name)
    ensures Decode(Encode(UnitO(k, e), t), t) == Ok(UnitO(k, true))
  {
    IndexOfDistinct(VariantNames(t.variants), k);
  }

  /** The keys written for fields `i..` of a named variant are all its field names, in order:
    * no field is skipped, implicit or not. */
  lemma {:induction false} NamedPayloadKeys(os: seq<Overlay>, ns: seq<string>, tys: seq<Ty>, i: nat)
    requires i <= |os| == |ns| == |tys| && AllWellFormed(tys)
    requires forall j | 0 <= j < |os| :: Typed(os[j], tys[j])
    ensures Keys(EncodeFieldsFrom(os, ns, tys, false, i)) == ns[i..]
    decreases |os| - i
  {
    if i < |os| {
      NamedPayloadKeys(os, ns, tys, i + 1);
      var rest := EncodeFieldsFrom(os, ns, tys, false, i + 1);
      assert Keys([Entry(ns[i], Encode(os[i], tys[i]))] + rest) == [ns[i]] + Keys(rest);
      assert ns[i..] == [ns[i]] + ns[i + 1..];
    }
  }

  /** A data variant is written as a one-key map from its name; a named variant's payload is a
    * map with every field name as a key. */
  lemma DataVariantShape(os: seq<Overlay>, t: Ty, k: nat)
    requires WellFormed(t) && Typed(VariantO(k, os), t)
    ensures Encode(VariantO(k, os), t).JObj?
    ensures Keys(Encode(VariantO(k, os), t).entries) == [t.variants[k].name]
    ensures t.variants[k].form.Named? ==>
      var payload := Encode(VariantO(k, os), t).entries[0].value;
      payload.JObj? && Keys(payload.entries) == t.variants[k].form.names
  {
    var vt := t.variants[k];
    assert VariantWellFormed(vt);
    if vt.form.Named? {
      NamedPayloadKeys(os, vt.form.names, vt.fields, 0);
    }
  }

  // ---------------------------------------------------------------------------------------
  // The round trip
  // ---------------------------------------------------------------------------------------

  lemma {:induction false} RoundTripUniform(os: seq<Overlay>, t: Ty)
    requires WellFormed(t) && forall i | 0 <= i < |os| :: Typed(os[i], t)
    requires forall i | 0 <= i < |os| :: Decode(Encode(os[i], t), t) == Ok(os[i])
    ensures DecodeUniform(EncodeUniform(os, t), t) == Ok(os)
    decreases |os|
  {
    if os != [] {
      assert EncodeUniform(os, t)[1..] == EncodeUniform(os[1..], t);
      RoundTripUniform(os[1..], t);
      assert [os[0]] + os[1..] == os;
    }
  }

  lemma {:induction false} RoundTripList(os: seq<Overlay>, tys: seq<Ty>)
    requires |os| == |tys| && AllWellFormed(tys) && forall i | 0 <= i < |os| :: Typed(os[i], tys[i])
    requires forall i | 0 <= i < |os| :: Decode(Encode(os[i], tys[i]), tys[i]) == Ok(os[i])
    ensures DecodeList(EncodeList(os, tys), tys) == Ok(os)
    decreases |os|
  {
    if os != [] {
      assert EncodeList(os, tys)[1..] == EncodeList(os[1..], tys[1..]);
      RoundTripList(os[1..], tys[1..]);
      assert [os[0]] + os[1..] == os;
    }
  }

  lemma RoundTripPositional(os: seq<Overlay>, tys: seq<Ty>)
    requires |os| == |tys| && AllWellFormed(tys) && forall i | 0 <= i < |os| :: Typed(os[i], tys[i])
    requires forall i | 0 <= i < |os| :: Decode(Encode(os[i], tys[i]), tys[i]) == Ok(os[i])
    ensures DecodePositional(EncodePositional(os, tys), tys) == Ok(os)
  {
    if |os| == 1 {
      assert [os[0]] == os;
    } else {
      RoundTripList(os, tys);
    }
  }

  /** Scanning the entries written for fields `i..` fills in exactly the kept fields. */
  lemma {:induction false} ScanEncoded(
    os: seq<Overlay>, ns: seq<string>, tys: seq<Ty>, skip: bool, i: nat, found: seq<Option<Overlay>>)
    requires i <= |os| == |ns| == |tys| == |found| && AllWellFormed(tys) && Distinct(ns)
    requires forall j | 0 <= j < |os| :: Typed(os[j], tys[j])
    requires forall j | 0 <= j < |os| && Kept(skip, os[j]) :: Decode(Encode(os[j], tys[j]), tys[j]) == Ok(os[j])
    requires forall j | 0 <= j < |os| :: found[j] == if j < i && Kept(skip, os[j]) then Some(os[j]) else None
    ensures ScanFields(EncodeFieldsFrom(os, ns, tys, skip, i), ns, tys, found) == Ok(KeptFields(os, skip))
    decreases |os| - i
  {
    var es := EncodeFieldsFrom(os, ns, tys, skip, i);
    if i == |os| {
      assert found == KeptFields(os, skip);
    } else {
      var rest := EncodeFieldsFrom(os, ns, tys, skip, i + 1);
      if Kept(skip, os[i]) {
        IndexOfDistinct(ns, i);
        assert es == [Entry(ns[i], Encode(os[i], tys[i]))] + rest;
        assert es[1..] == rest;
        ScanEncoded(os, ns, tys, skip, i + 1, found[i := Some(os[i])]);
      } else {
        assert es == rest;
        ScanEncoded(os, ns, tys, skip, i + 1, found);
      }
    }
  }

  lemma {:induction false} FillRequiredAll(os: seq<Overlay>, ns: seq<string>, tys: seq<Ty>)
    requires |os| == |ns| == |tys| && forall i | 0 <= i < |os| :: Typed(os[i], tys[i])
    ensures FillRequired(KeptFields(os, false), ns, tys) == Ok(os)
    decreases |os|
  {
    if os != [] {
      assert KeptFields(os, false)[1..] == KeptFields(os[1..], false);
      FillRequiredAll(os[1..], ns[1..], tys[1..]);
      assert [os[0]] + os[1..] == os;
    }
  }

  lemma RoundTripArray(os: seq<Overlay>, t: Ty)
    requires WellFormed(t) && Typed(ArrO(os), t)
    requires forall i | 0 <= i < |os| :: Decode(Encode(os[i], t.elem), t.elem) == Ok(os[i])
    ensures Decode(Encode(ArrO(os), t), t) == Ok(ArrO(os))
  {
    RoundTripUniform(os, t.elem);
    var items := EncodeUniform(os, t.elem);
    assert items[..Min(t.size, |items|)] == items;
  }

  lemma RoundTripStruct(os: seq<Overlay>, t: Ty)
    requires WellFormed(t) && Typed(StructO(os), t) && Canonical(StructO(os), t)
    requires AllWellFormed(t.fields) && forall i | 0 <= i < |os| && IsExplicit(os[i]) ::
      Decode(Encode(os[i], t.fields[i]), t.fields[i]) == Ok(os[i])
    ensures Decode(Encode(StructO(os), t), t) == Ok(StructO(os))
  {
    ScanEncoded(os, t.names, t.fields, true, 0, Absent(|os|));
    assert FillDefaults(KeptFields(os, true), t.fields, t.dflt) == os;
  }

  lemma RoundTripNamed(os: seq<Overlay>, ns: seq<string>, tys: seq<Ty>)
    requires |os| == |ns| == |tys| && AllWellFormed(tys) && Distinct(ns)
    requires forall i | 0 <= i < |os| :: Typed(os[i], tys[i])
    requires forall i | 0 <= i < |os| :: Decode(Encode(os[i], tys[i]), tys[i]) == Ok(os[i])
    ensures DecodeNamed(JObj(EncodeFieldsFrom(os, ns, tys, false, 0)), ns, tys) == Ok(os)
  {
    ScanEncoded(os, ns, tys, false, 0, Absent(|os|));
    FillRequiredAll(os, ns, tys);
  }

  lemma RoundTripVariant(k: nat, os: seq<Overlay>, t: Ty)
    requires WellFormed(t) && Typed(VariantO(k, os), t)
    requires AllWellFormed(t.variants[k].fields) && forall i | 0 <= i < |os| ::
      Decode(Encode(os[i], t.variants[k].fields[i]), t.variants[k].fields[i]) == Ok(os[i])
    ensures Decode(Encode(VariantO(k, os), t), t) == Ok(VariantO(k, os))
  {
    var vt := t.variants[k];
    assert VariantWellFormed(vt);
    IndexOfDistinct(VariantNames(t.variants), k);
    var payload := Encode(VariantO(k, os), t).entries[0].value;
    if vt.form.Named? {
      assert payload == JObj(EncodeFieldsFrom(os, vt.form.names, vt.fields, false, 0));
      RoundTripNamed(os, vt.form.names, vt.fields);
      assert DecodeVariant(payload, k, vt) == Ok(VariantO(k, os));
    } else {
      assert payload == EncodePositional(os, vt.fields);
      RoundTripPositional(os, vt.fields);
      assert DecodeVariant(payload, k, vt) == Ok(VariantO(k, os));
    }
    assert Encode(VariantO(k, os), t) == JObj([Entry(vt.name, payload)]);
    assert Decode(JObj([Entry(vt.name, payload)]), t) == DecodeEnum(JObj([Entry(vt.name, payload)]), t.variants);
  }

  /**
   * Reading back what was written gives the same overlay, for every overlay the format can
   * represent: all flags set, no option around something written as `null`, and every implicit
   * struct field equal to what the deserializer substitutes for a missing key.
   */
  lemma {:induction false} RoundTrip(o: Overlay, t: Ty)
    requires WellFormed(t) && Typed(o, t) && Canonical(o, t)
    ensures Decode(Encode(o, t), t) == Ok(o)
    decreases o, 1
  {
    match o
    case Leaf(p, _) =>
      assert Encode(o, t) == EncodePrim(p);
    case OptSome(x) =>
      EncodeNonNull(x, t.inner);
      RoundTrip(x, t.inner);
    case OptNone(_) =>
    case VecO(_) => RoundTripSequence(o, t);
    case ArrO(_) => RoundTripSequence(o, t);
    case TupleO(_) => RoundTripSequence(o, t);
    case StructO(_) => RoundTripFields(o, t);
    case VariantO(_, _) => RoundTripFields(o, t);
    case UnitO(k, _) =>
      IndexOfDistinct(VariantNames(t.variants), k);
  }

  /** The round trip for vectors, arrays and tuples, from that of their elements. */
  lemma {:induction false} RoundTripSequence(o: Overlay, t: Ty)
    requires WellFormed(t) && Typed(o, t) && Canonical(o, t) && (o.VecO? || o.ArrO? || o.TupleO?)
    ensures Decode(Encode(o, t), t) == Ok(o)
    decreases o, 0
  {
    match o
    case VecO(os) =>
      forall i | 0 <= i < |os| ensures Decode(Encode(os[i], t.elem), t.elem) == Ok(os[i]) {
        RoundTrip(os[i], t.elem);
      }
      RoundTripUniform(os, t.elem);
    case ArrO(os) =>
      forall i | 0 <= i < |os| ensures Decode(Encode(os[i], t.elem), t.elem) == Ok(os[i]) {
        RoundTrip(os[i], t.elem);
      }
      RoundTripArray(os, t);
    case TupleO(os) =>
      forall i | 0 <= i < |os| ensures Decode(Encode(os[i], t.fields[i]), t.fields[i]) == Ok(os[i]) {
        RoundTrip(os[i], t.fields[i]);
      }
      RoundTripPositional(os, t.fields);
  }

  /** The round trip for structs and enum variants, from that of their fields. */
  lemma {:induction false} RoundTripFields(o: Overlay, t: Ty)
    requires WellFormed(t) && Typed(o, t) && Canonical(o, t) && (o.StructO? || o.VariantO?)
    ensures Decode(Encode(o, t), t) == Ok(o)
    decreases o, 0
  {
    match o
    case StructO(os) =>
      forall i | 0 <= i < |os| && IsExplicit(os[i])
        ensures Decode(Encode(os[i], t.fields[i]), t.fields[i]) == Ok(os[i])
      {
        RoundTrip(os[i], t.fields[i]);
      }
      RoundTripStruct(os, t);
    case VariantO(k, os) =>
      assert VariantWellFormed(t.variants[k]) && AllWellFormed(t.variants[k].fields);
      forall i | 0 <= i < |os|
        ensures Decode(Encode(os[i], t.variants[k].fields[i]), t.variants[k].fields[i]) == Ok(os[i])
      {
        RoundTrip(os[i], t.variants[k].fields[i]);
      }
      RoundTripVariant(k, os, t);
  }
}
