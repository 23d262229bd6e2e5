/**
 * The JSON-like Python values the content modules receive from the Liferay API and from
 * each other: `None`, booleans, integers, strings, lists and string-keyed dictionaries,
 * with Python's truthiness, `dict.get` and `str()` on scalars.
 */
module PyValues {
  import opened Wrappers
  import opened PyStr

  datatype PyValue =
    | NoneValue
    | Bool(b: bool)
    | Int(i: int)
    | Str(s: string)
    | List(items: seq<PyValue>)
    | Dict(entries: map<string, PyValue>)

  /** `bool(v)`: `None`, `False`, `0`, and empty strings, lists and dictionaries are false. */
  predicate Truthy(v: PyValue)
  {
    match v
    case NoneValue => false
    case Bool(b) => b
    case Int(i) => i != 0
    case Str(s) => s != []
    case List(items) => items != []
    case Dict(entries) => entries != map[]
  }

  /** `d.get(key)` on a dictionary; `None` on any other value, where the code tests `isinstance` first. */
  function Get(v: PyValue, key: string): (r: Option<PyValue>)
    ensures r.Some? <==> v.Dict? && key in v.entries
    ensures r.Some? ==> r.value == v.entries[key]
  {
    if v.Dict? && key in v.entries then Some(v.entries[key]) else None
  }

  /** `str(v)` for a scalar: `True`/`False`, the decimal digits of an integer, the string itself, `None`. */
  function ScalarText(v: PyValue): (r: string)
    requires !v.List? && !v.Dict?
    ensures v.Str? ==> r == v.s
    ensures v.Int? ==> r == IntToString(v.i)
  {
    match v
    case NoneValue => "None"
    case Bool(b) => if b then "True" else "False"
    case Int(i) => IntToString(i)
    case Str(s) => s
  }

  /** The text of every integer is non-empty, so it is truthy even for `0`. */
  lemma IntTextTruthy(n: int)
    ensures Truthy(Str(ScalarText(Int(n))))
  {
    if n < 0 {
      assert ScalarText(Int(n)) == "-" + NatToString(-n);
    } else {
      assert IsDigits(NatToString(n));
    }
  }
}
