/**
 * The dynamically typed values the handler passes around: parsed webhook
 * payloads, YAML configuration, prompt contexts and extracted data.
 */
module Json {

  /** A JSON/YAML value. Dictionaries are keyed by strings. */
  datatype Value =
    | Null
    | Bool(b: bool)
    | Int(i: int)
    | Str(s: string)
    | List(items: seq<Value>)
    | Dict(fields: map<string, Value>)

  /** Python truthiness: `None`, `False`, `0`, `""`, `[]` and `{}` are false. */
  predicate Truthy(v: Value) {
    match v
    case Null => false
    case Bool(b) => b
    case Int(i) => i != 0
    case Str(s) => s != ""
    case List(xs) => xs != []
    case Dict(m) => m != map[]
  }

  /** `d.get(key, default)`. */
  function Get(d: map<string, Value>, key: string, default: Value): Value {
    if key in d then d[key] else default
  }

  /** `v.get(key)` on a value that should be a dictionary; `None` when it is not one or lacks the key. */
  function Field(v: Value, key: string): Value {
    if v.Dict? && key in v.fields then v.fields[key] else Null
  }

  /** A handler's reply, `{"status": status, **fields}`. */
  function Reply(status: string, fields: map<string, Value>): (r: Value)
    ensures r.Dict? && "status" in r.fields && r.fields["status"] == Str(status)
  {
    Dict(fields["status" := Str(status)])
  }

  /** The `"status"` of a reply. */
  function StatusOf(reply: Value): string {
    match Field(reply, "status")
    case Str(s) => s
    case _ => ""
  }

  /** The strings of a list of labels, in order (`[Str("bug")]` gives `["bug"]`); other items are dropped. */
  function Strings(v: Value): seq<string> {
    match v
    case List(xs) => StringItems(xs)
    case _ => []
  }

  function StringItems(xs: seq<Value>): seq<string> {
    if xs == [] then []
    else (if xs[0].Str? then [xs[0].s] else []) + StringItems(xs[1..])
  }

  /** A list of strings as a value. */
  function StrList(xs: seq<string>): Value {
    List(seq(|xs|, i requires 0 <= i < |xs| => Str(xs[i])))
  }

  lemma {:induction false} StringsOfStrList(xs: seq<string>)
    ensures Strings(StrList(xs)) == xs
  {
    if xs != [] {
      assert StrList(xs).items[1..] == StrList(xs[1..]).items;
      StringsOfStrList(xs[1..]);
    }
  }
}
