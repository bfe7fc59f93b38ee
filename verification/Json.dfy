/** A parsed JSON document, and the property reads the tools make on an untyped one. */
module Json {
  import opened Wrappers

  datatype Json =
    | Null
    | Bool(flag: bool)
    | Num(number: real)
    | Str(text: string)
    | Arr(items: seq<Json>)
    | Obj(fields: map<string, Json>)

  /** `v[name]`; absent where the source reads `undefined`. */
  function Field(v: Json, name: string): Option<Json> {
    if v.Obj? && name in v.fields then Some(v.fields[name]) else None
  }

  function TextField(v: Json, name: string): Option<string> {
    match Field(v, name)
    case Some(Str(text)) => Some(text)
    case _ => None
  }

  function NumberField(v: Json, name: string): Option<real> {
    match Field(v, name)
    case Some(Num(number)) => Some(number)
    case _ => None
  }

  function ListField(v: Json, name: string): Option<seq<Json>> {
    match Field(v, name)
    case Some(Arr(items)) => Some(items)
    case _ => None
  }

  /** `typeof v === 'object'` and not null: an object or an array. */
  predicate IsObject(v: Json) {
    v.Obj? || v.Arr?
  }
}
