/** The Python values the backend's decisions look at: `None`, booleans,
    integers and strings, with Python's truthiness, the `is True` test, and
    the dictionary operations `get` and `setdefault`. */
module PyValues {
  datatype PyValue = PyNone | PyBool(b: bool) | PyInt(i: int) | PyStr(s: string)

  /** `bool(v)`. */
  predicate Truthy(v: PyValue) {
    match v
    case PyNone => false
    case PyBool(b) => b
    case PyInt(i) => i != 0
    case PyStr(s) => s != ""
  }

  /** `v is True`: only the boolean singleton, not merely a truthy value. */
  predicate IsTrue(v: PyValue) {
    v == PyBool(true)
  }

  /** `d.get(k, default)`. */
  function Get<V>(d: map<string, V>, k: string, default: V): V {
    if k in d then d[k] else default
  }

  /** The dictionary after `d.setdefault(k, v)`: an existing entry is kept. */
  function SetDefault<V>(d: map<string, V>, k: string, v: V): (r: map<string, V>)
    ensures k in r && r[k] == Get(d, k, v)
    ensures r.Keys == d.Keys + {k}
    ensures forall j :: j in d ==> r[j] == d[j]
  {
    if k in d then d else d[k := v]
  }
}
