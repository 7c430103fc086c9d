/** The decoded JSON payload as Python holds it after `json.loads`, and the
    handful of Python operations the adapter applies to it: `dict.get`,
    truthiness, `==` against an integer and `str()`. JSON numbers with a
    fraction or exponent (Python floats) are not modelled. */
module Json {
  import Text

  datatype Json =
    | Null                                // None
    | Bool(b: bool)                       // True / False
    | Int(i: int)                         // int
    | Str(s: string)                      // str
    | Arr(items: seq<Json>)               // list
    | Obj(fields: map<string, Json>)      // dict

  /** `str()` of a list or a dict (Python's repr of its elements, in the dict's
      insertion order), which this model leaves to its caller. */
  type ContainerText = Json -> string

  /** `d.get(key, default)`. */
  function Get(d: map<string, Json>, key: string, default: Json): (r: Json)
    ensures key in d ==> r == d[key]
    ensures key !in d ==> r == default
  {
    if key in d then d[key] else default
  }

  /** `bool(v)`: None, False, 0, "", [] and {} are false, everything else true. */
  predicate Truthy(v: Json)
  {
    match v
    case Null => false
    case Bool(b) => b
    case Int(i) => i != 0
    case Str(s) => s != ""
    case Arr(items) => |items| > 0
    case Obj(fields) => |fields| > 0
  }

  /** `a or b`: `a` when it is truthy, else `b`. */
  function Or(a: Json, b: Json): (r: Json)
    ensures Truthy(r) <==> Truthy(a) || Truthy(b)
    ensures r == a || r == b
    ensures Truthy(a) ==> r == a
    ensures !Truthy(a) ==> r == b
  {
    if Truthy(a) then a else b
  }

  /** `v == n` for a Python int `n`: a bool compares as 0 or 1, a string, list,
      dict or None never equals an int. */
  predicate EqualsInt(v: Json, n: int)
  {
    match v
    case Int(i) => i == n
    case Bool(b) => (if b then 1 else 0) == n
    case _ => false
  }

  /** `str(v)` (equally `f"{v}"`): a string is itself, an int its decimal
      digits, None, True and False their names; lists and dicts are rendered by
      `container`. */
  function ToStr(v: Json, container: ContainerText): (r: string)
    ensures v.Str? ==> r == v.s
    ensures v.Int? ==> r == Text.IntToDecimal(v.i)
    ensures v.Arr? || v.Obj? ==> r == container(v)
  {
    match v
    case Null => "None"
    case Bool(b) => if b then "True" else "False"
    case Int(i) => Text.IntToDecimal(i)
    case Str(s) => s
    case Arr(_) => container(v)
    case Obj(_) => container(v)
  }

  /** `str()` of a scalar never contains a space, except for a string that has one. */
  lemma ToStrHasNoSpace(v: Json, container: ContainerText)
    requires !v.Arr? && !v.Obj?
    requires v.Str? ==> ' ' !in v.s
    ensures ' ' !in ToStr(v, container)
  {
  }
}
