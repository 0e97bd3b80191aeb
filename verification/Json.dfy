/** JSON values as Python holds them: objects are insertion-ordered dicts. */
module Json {
  import opened Prelude

  datatype Value =
    | Null
    | Bool(b: bool)
    | Num(n: real)
    | Str(s: string)
    | Arr(a: seq<Value>)
    | Obj(o: Dict<string, Value>)

  /** Python truth. */
  predicate Truthy(v: Value) {
    match v
    case Null => false
    case Bool(b) => b
    case Num(n) => n != 0.0
    case Str(s) => s != ""
    case Arr(a) => a != []
    case Obj(o) => o.order != []
  }

  /** The values that count as false. */
  lemma FalsyValues(v: Value)
    ensures !Truthy(v) <==>
      v in {Null, Bool(false), Num(0.0), Str(""), Arr([])} || (v.Obj? && v.o.order == [])
  {
  }

  /** `d.get(k, default)` */
  function Get(d: Dict<string, Value>, k: string, default: Value): Value {
    if k in d.at then d.at[k] else default
  }

  function Empty(): Dict<string, Value> {
    Dict([], map[])
  }
}
