/**
 * Values as the endpoint sees them: a JSON-like Python value, either
 * decoded from a ShotGrid query row or from a FileMaker Data API response.
 */
module Values {
  import opened Wrappers

  /** A Python value of the shapes that JSON and the ShotGrid API produce. */
  datatype RawValue =
    | Null                                   // None
    | Bool(b: bool)
    | Int(i: int)
    | Str(s: string)
    | List(items: seq<RawValue>)
    | Dict(fields: map<string, RawValue>)    // a dict, e.g. an entity reference {"type", "id", "name"}

  /** `d.get(k)`: the value under `k`, or None when `k` is absent. */
  function Get(d: map<string, RawValue>, k: string): (v: RawValue)
    ensures k in d ==> v == d[k]
    ensures k !in d ==> v == Null
  {
    if k in d then d[k] else Null
  }

  /** Python truthiness: `bool(v)`, false exactly for None, False, 0 and the empty str, list and dict. */
  predicate Truthy(v: RawValue): (t: bool)
    ensures !t <==> v in {Null, Bool(false), Int(0), Str(""), List([]), Dict(map[])}
  {
    match v
    case Null => false
    case Bool(b) => b
    case Int(i) => i != 0
    case Str(s) => s != ""
    case List(items) => items != []
    case Dict(fields) => fields != map[]
  }
}
