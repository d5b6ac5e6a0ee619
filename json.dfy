/**
 * The values `JSON.parse` can produce, and the blob the key-value store holds
 * under the prompts key.
 */
module JsonValues {
  import opened Wrappers

  /** A parsed JSON value. Object keys are unique; a missing key reads as `undefined`. */
  datatype Json =
    | JNull
    | JBool(b: bool)
    | JNum(n: int)
    | JStr(s: string)
    | JArr(items: seq<Json>)
    | JObj(fields: map<string, Json>)

  /**
   * The stored item under the prompts key: missing, present but not parseable
   * by `JSON.parse` (the empty string included), or parsed.
   */
  datatype Blob = Absent | Unparseable | Parsed(value: Json)

  /** `typeof v === "object" && v !== null`: objects and arrays. */
  predicate IsObject(v: Json)
  {
    v.JObj? || v.JArr?
  }

  /** Property access `v.key`; `None` stands for `undefined`. Arrays have no such named properties. */
  function Prop(v: Json, key: string): Option<Json>
  {
    if v.JObj? && key in v.fields then Some(v.fields[key]) else None
  }

  /** `typeof v.key === "string"`. */
  predicate IsStringProp(v: Json, key: string)
  {
    Prop(v, key).Some? && Prop(v, key).value.JStr?
  }

  /** A string array as JSON. */
  function StrArray(ss: seq<string>): (r: seq<Json>)
    ensures |r| == |ss| && forall i :: 0 <= i < |ss| ==> r[i] == JStr(ss[i])
  {
    seq(|ss|, i requires 0 <= i < |ss| => JStr(ss[i]))
  }
}
