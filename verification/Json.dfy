/** JSON values as the program sees them after parsing, and Python's notion of truth on them. */
module Json {
  import opened Prelude

  /** An object is a dict: only lookup matters to the program, never the order of the keys. */
  datatype Json =
    | Null
    | Bool(b: bool)
    | Num(n: real)
    | Str(s: string)
    | Arr(items: seq<Json>)
    | Obj(fields: Dict)

  type Dict = map<string, Json>

  function Get(d: Dict, key: string): Json
  {
    if key in d then d[key] else Null
  }

  predicate Truthy(x: Json)
  {
    match x
    case Null => false
    case Bool(b) => b
    case Num(n) => n != 0.0
    case Str(s) => s != ""
    case Arr(items) => items != []
    case Obj(fields) => fields != map[]
  }

  /** The values that Python counts as false. */
  lemma FalsyValues(x: Json)
    ensures !Truthy(x) <==> x in [Null, Bool(false), Num(0.0), Str(""), Arr([]), Obj(map[])]
  {
    var falsy := [Null, Bool(false), Num(0.0), Str(""), Arr([]), Obj(map[])];
    assert falsy[0] == Null && falsy[1] == Bool(false) && falsy[2] == Num(0.0);
    assert falsy[3] == Str("") && falsy[4] == Arr([]) && falsy[5] == Obj(map[]);
  }
}
