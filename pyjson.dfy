/** The slice of Python semantics the Yelp script relies on: decoded JSON
    values, truthiness, subscription by a string key, iteration with a
    `for` loop, and the exceptions these can raise. */
module PyJson {

  datatype Option<+T> = None | Some(value: T)

  /** The exceptions the pipeline can raise or catch. */
  datatype PyError = KeyError | TypeError | ValueError

  /** A value either computed or raised as an exception; `:-` propagates the exception. */
  datatype Result<+T> = Ok(value: T) | Raise(error: PyError) {
    predicate IsFailure() { Raise? }
    function PropagateFailure<U>(): Result<U>
      requires Raise?
    {
      Raise(error)
    }
    function Extract(): T
      requires Ok?
    {
      value
    }
  }

  /** A decoded JSON document, as the search client hands it back. The
      decoder gives an integer literal as a Python int and a literal with a
      fraction or exponent as a float, so `str()` prints them differently. */
  datatype Json =
    | JNull
    | JBool(b: bool)
    | JInt(i: int)
    | JFloat(x: real)
    | JStr(s: string)
    | JList(items: seq<Json>)
    | JObj(fields: map<string, Json>)

  /** Python's `bool(v)`: None, False, zero and empty containers are falsy. */
  predicate Truthy(v: Json) {
    match v
    case JNull => false
    case JBool(b) => b
    case JInt(i) => i != 0
    case JFloat(x) => x != 0.0
    case JStr(s) => s != ""
    case JList(items) => items != []
    case JObj(fields) => fields != map[]
  }

  /** Python's `v[key]`: a dict yields the entry or raises KeyError; a list,
      a str, None, a number or a bool cannot be indexed by a str key and
      raises TypeError. */
  function Subscript(v: Json, key: string): (r: Result<Json>)
    ensures r.Ok? <==> v.JObj? && key in v.fields
    ensures r == Raise(KeyError) <==> v.JObj? && key !in v.fields
    ensures r.Ok? ==> r.value == v.fields[key]
    ensures !v.JObj? ==> r == Raise(TypeError)
  {
    match v
    case JObj(fields) => if key in fields then Ok(fields[key]) else Raise(KeyError)
    case _ => Raise(TypeError)
  }

  /** The elements a `for` loop over `v` hands to a body that subscripts
      each of them by a str key. A list yields its items. An empty dict or
      str yields nothing. A non-empty dict or str yields str elements (keys
      or characters), and the body's first subscription of such an element
      raises TypeError; the model raises it here. None, numbers and bools
      are not iterable and raise TypeError. */
  function Iterate(v: Json): (r: Result<seq<Json>>)
    ensures r.Ok? <==> v.JList? || v == JObj(map[]) || v == JStr("")
    ensures r.Ok? && v.JList? ==> r.value == v.items
    ensures r.Ok? && !v.JList? ==> r.value == []
    ensures r.Raise? ==> r.error == TypeError
  {
    match v
    case JList(items) => Ok(items)
    case JObj(fields) => if fields == map[] then Ok([]) else Raise(TypeError)
    case JStr(s) => if s == "" then Ok([]) else Raise(TypeError)
    case _ => Raise(TypeError)
  }
}
