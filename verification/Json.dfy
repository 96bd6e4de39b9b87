/** Parsed JSON values and the few ways in which the proxy looks into them. */
module Json {
  import opened Wrappers
  import opened EventStream

  datatype Json =
    | Null
    | Bool(value: bool)
    | Number(number: real)
    | Str(text: Text)
    | Arr(items: seq<Json>)
    | Obj(fields: map<Text, Json>)

  /** The code units of an ASCII string. */
  function Ascii(s: string): Text
    requires forall i :: 0 <= i < |s| ==> (s[i] as int) < 0x80
  {
    seq(|s|, i requires 0 <= i < |s| => s[i] as int)
  }

  /** `v.name`: `None` stands for undefined, which is also what a value without fields gives. */
  function Field(v: Json, name: Text): Option<Json> {
    if v.Obj? && name in v.fields then Some(v.fields[name]) else None
  }

  /** `typeof v === 'object' && v !== null`: arrays included. */
  predicate IsObject(v: Option<Json>) {
    v.Some? && (v.value.Obj? || v.value.Arr?)
  }

  /** asRecord: the value if it is an object and not an array. */
  function AsRecord(v: Option<Json>): Option<Json> {
    if v.Some? && v.value.Obj? then v else None
  }

  function AsText(v: Option<Json>): Option<Text> {
    if v.Some? && v.value.Str? then Some(v.value.text) else None
  }

  function AsItems(v: Option<Json>): seq<Json> {
    if v.Some? && v.value.Arr? then v.value.items else []
  }
}
