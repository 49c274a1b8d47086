/** The namespaced per-flow state map and the session it belongs to. */
module Sessions {
  import opened Wrappers
  import opened Words

  datatype Json =
    | Null
    | Bool(b: bool)
    | Number(n: int)
    | String(s: string)
    | Array(items: seq<Json>)
    | Object(fields: map<string, Json>)

  type Data = map<string, Json>

  datatype State = State(data: Data, issuedAt: Option<u64>, delete: bool)

  const FRESH: State := State(map[], None, false)

  function GetValue(d: Data, namespace: string, key: string): Option<Json> {
    if namespace in d && d[namespace].Object? && key in d[namespace].fields
    then Some(d[namespace].fields[key]) else None
  }

  function GetStr(d: Data, namespace: string, key: string): Option<string> {
    match GetValue(d, namespace, key)
    case Some(String(s)) => Some(s)
    case _ => None
  }

  /** Creates the namespace when absent; leaves a namespace that is not an
      object alone. */
  function SetValue(d: Data, namespace: string, key: string, value: Json): Data {
    var ns := if namespace in d then d[namespace] else Object(map[]);
    d[namespace := if ns.Object? then Object(ns.fields[key := value]) else ns]
  }

  function SetStr(d: Data, namespace: string, key: string, value: string): Data {
    SetValue(d, namespace, key, String(value))
  }

  function ClearNamespace(d: Data, namespace: string): Data {
    d - {namespace}
  }

  /** An optional name as JSON writes it: the string, or null. */
  function OptionalName(name: Option<string>): Json {
    if name.Some? then String(name.value) else Null
  }

  function NameOf(j: Json): Option<string> {
    if j.String? then Some(j.s) else None
  }
}
