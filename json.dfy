/** JavaScript values as the stores see them after JSON parsing.
    An object is a map from keys to values, so a spread `{...a, ...b}`
    is the map union `a + b`, and reading a missing key gives `undefined`. */
module Json {

  /** A JavaScript value. Numbers are integers in this model. */
  datatype Value =
    | Undefined
    | Null
    | Bool(b: bool)
    | Num(n: int)
    | Str(s: string)
    | Array(items: seq<Value>)
    | Object(fields: Obj)

  type Obj = map<string, Value>

  /** Property access `o[key]`: a missing key reads as `undefined`. */
  function Get(o: Obj, key: string): Value
  {
    if key in o then o[key] else Undefined
  }

  /** Property access on an arbitrary value: only objects carry named fields here. */
  function Prop(v: Value, key: string): Value
  {
    if v.Object? then Get(v.fields, key) else Undefined
  }

  /** JavaScript truthiness: `undefined`, `null`, `false`, `0` and `''` are falsy. */
  predicate Truthy(v: Value)
  {
    match v
    case Undefined => false
    case Null => false
    case Bool(b) => b
    case Num(n) => n != 0
    case Str(s) => s != ""
    case Array(_) => true
    case Object(_) => true
  }

  /** The own keys a spread `...v` contributes: an object's fields, and
      nothing for `undefined`, `null`, booleans and numbers. */
  function Spread(v: Value): Obj
  {
    if v.Object? then v.fields else map[]
  }

  /** `{...base, ...over}`: keys of `over` win, every other key of `base` is kept. */
  function Merge(base: Obj, over: Obj): (r: Obj)
    ensures r.Keys == base.Keys + over.Keys
    ensures forall k :: k in over ==> r[k] == over[k]
    ensures forall k :: k in base && k !in over ==> r[k] == base[k]
  {
    base + over
  }

  /** `o.id === id`: the lookup by id every store uses. */
  predicate HasId(o: Obj, id: Value)
  {
    Get(o, "id") == id
  }

  function IdIs(id: Value): Obj -> bool
  {
    o => HasId(o, id)
  }
}
