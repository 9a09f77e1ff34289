/**
 * The JSON document the serializer produces and the deserializer consumes, and the errors the
 * deserializer reports. Objects keep their entries in order, and a map access hands out whole
 * entries one at a time, as serde_json's in-memory `Value` deserializer does.
 */
module JsonData {

  datatype Json =
    | JNull
    | JBool(b: bool)
    | JNum(n: int)
    | JStr(s: string)
    | JArr(items: seq<Json>)
    | JObj(entries: seq<Entry>)

  datatype Entry = Entry(key: string, value: Json)

  /** The deserialization errors the overlay types can raise. */
  datatype DecodeError =
    | InvalidType
    | InvalidLength(len: nat)
    | UnknownVariant(name: string)
    | ExpectedSingleVariantKey
    | DuplicateField(name: string)
    | MissingField(name: string)

  function Keys(es: seq<Entry>): (ks: seq<string>)
    ensures |ks| == |es| && forall i | 0 <= i < |es| :: ks[i] == es[i].key
  {
    seq(|es|, i requires 0 <= i < |es| => es[i].key)
  }
}
