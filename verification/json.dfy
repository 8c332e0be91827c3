/** The JavaScript values that flow through the editors: section content,
    styles and nested item lists are plain objects whose keys the handlers
    copy, override and read by name. */
module Json {
  import opened Options

  /** A JSON-like value. Numbers are integers: every number the handlers
      build or compare is an integer id or a stock count. */
  datatype Value =
    | Str(s: string)
    | Num(n: int)
    | Bool(b: bool)
    | Null
    | Arr(elems: seq<Value>)
    | Obj(fields: map<string, Value>)

  /** A plain object, as a map from property name to value. */
  type Record = map<string, Value>

  /** Property access `o.key`; `None` stands for `undefined`. */
  function Get(o: Record, key: string): (r: Option<Value>)
    ensures r.Some? <==> key in o
    ensures r.Some? ==> r.value == o[key]
  {
    if key in o then Some(o[key]) else None
  }

  /** Object spread `{ ...base, ...over }`: every key of either object, the
      value of `over` winning wherever both have the key. */
  function Spread(base: Record, over: Record): (r: Record)
    ensures r.Keys == base.Keys + over.Keys
    ensures forall k :: k in over ==> r[k] == over[k]
    ensures forall k :: k in base && k !in over ==> r[k] == base[k]
  {
    base + over
  }

  /** `{ ...o, [key]: v }`: one property written, every other one kept. */
  function With(o: Record, key: string, v: Value): (r: Record)
    ensures r.Keys == o.Keys + {key}
    ensures r[key] == v
    ensures forall k :: k in o && k != key ==> r[k] == o[k]
  {
    o[key := v]
  }
}
