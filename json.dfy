/**
 * Decoded JSON values as Python's `json.loads` produces them, and the two
 * Python operations the controller applies to them: truthiness (`if x:`,
 * `not x`) and `dict.get`.
 */
module JsonValue {

  /** A decoded JSON value (numbers are modelled as integers only). */
  datatype Json =
    | Null
    | Bool(b: bool)
    | Num(n: int)
    | Str(s: string)
    | Arr(elems: seq<Json>)
    | Obj(fields: map<string, Json>)

  /** Python truthiness: None, False, 0, "", [] and {} are false. */
  predicate Truthy(j: Json)
  {
    match j
    case Null => false
    case Bool(b) => b
    case Num(n) => n != 0
    case Str(s) => s != []
    case Arr(xs) => xs != []
    case Obj(m) => m != map[]
  }

  /** `d.get(key)`: the stored value, or None when the key is absent. */
  function Get(d: map<string, Json>, key: string): Json
  {
    if key in d then d[key] else Null
  }

  /** The falsy values are exactly the "empty" ones. */
  lemma FalsyValues(j: Json)
    ensures !Truthy(j) <==>
      j == Null || j == Bool(false) || j == Num(0) || j == Str([]) || j == Arr([]) || j == Obj(map[])
  {
  }

  /**
   * The values `", ".join(v)` accepts: a string (joined by character), a
   * list of strings, or a dict (whose keys, always strings here, are joined).
   * Anything else, None included, raises TypeError.
   */
  predicate Joinable(j: Json)
  {
    match j
    case Str(_) => true
    case Obj(_) => true
    case Arr(xs) => forall k :: 0 <= k < |xs| ==> xs[k].Str?
    case _ => false
  }
}
