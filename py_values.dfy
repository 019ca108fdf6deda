/**
 * The untyped values stored in the project's JSON fields, as Python sees
 * them after decoding, with Python's truthiness. Floats are not modelled.
 */
module PyValues {

  /** A Python value: `None`, a bool, an int, a str, a list, a tuple or a dict (in insertion order). */
  datatype Value =
    | Null
    | Bool(b: bool)
    | Int(i: int)
    | Str(s: string)
    | List(items: seq<Value>)
    | Tuple(elems: seq<Value>)
    | Dict(entries: seq<(string, Value)>)

  /** `bool(v)`. */
  predicate Truthy(v: Value) {
    match v
    case Null => false
    case Bool(b) => b
    case Int(i) => i != 0
    case Str(s) => s != ""
    case List(xs) => xs != []
    case Tuple(xs) => xs != []
    case Dict(d) => d != []
  }

  /** `k in d`. */
  predicate HasKey(d: seq<(string, Value)>, k: string) {
    exists i :: 0 <= i < |d| && d[i].0 == k
  }

  /** `d.get(k)`: the value stored under `k`, or `None`. */
  function GetKey(d: seq<(string, Value)>, k: string): (r: Value)
    ensures !HasKey(d, k) ==> r == Null
    ensures HasKey(d, k) ==> exists i :: 0 <= i < |d| && d[i] == (k, r)
  {
    if |d| == 0 then Null
    else if d[0].0 == k then d[0].1
    else GetKey(d[1..], k)
  }

  /** `d.keys()` as a set. */
  function Keys(d: seq<(string, Value)>): (ks: set<string>)
    ensures forall k :: k in ks <==> HasKey(d, k)
  {
    if |d| == 0 then {}
    else
      assert forall k :: HasKey(d, k) <==> d[0].0 == k || HasKey(d[1..], k) by {
        forall k ensures HasKey(d, k) <==> d[0].0 == k || HasKey(d[1..], k) {
          if HasKey(d[1..], k) {
            var i :| 0 <= i < |d[1..]| && d[1..][i].0 == k;
            assert d[i + 1].0 == k;
          }
          if HasKey(d, k) && d[0].0 != k {
            var i :| 0 <= i < |d| && d[i].0 == k;
            assert d[1..][i - 1].0 == k;
          }
        }
      }
      {d[0].0} + Keys(d[1..])
  }

  /** `a or b`: the first operand when it is truthy, the second otherwise. */
  function Or(a: Value, b: Value): (r: Value)
    ensures Truthy(a) ==> r == a
    ensures !Truthy(a) ==> r == b
  {
    if Truthy(a) then a else b
  }

  /** `str(v)`: the string itself for a str; `repr` renders every other value. */
  function PyStr(v: Value, repr: Value -> string): (r: string)
    ensures v.Str? ==> r == v.s
  {
    if v.Str? then v.s else repr(v)
  }
}
