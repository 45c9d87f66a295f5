/** Parsed JSON values as the tracker's Python code sees them (the contents of
    config.json and settings.json, and the options of a view), with Python's
    truthiness, `key in value` and `value[key]`, and the exceptions they raise. */
module Values {
  import opened Strings
  import opened Wrappers

  /** A JSON value. Objects keep their keys in file order; numbers are integers. */
  datatype Value =
    | Null
    | Bool(b: bool)
    | Num(n: int)
    | Str(s: string)
    | Arr(items: seq<Value>)
    | Obj(fields: seq<(string, Value)>)

  /** The Python exception that ends a run. */
  datatype Error =
    | KeyError(key: string)
    | TypeError(what: string)
    | AttributeError(what: string)

  /** `bool(v)`: `None`, `False`, `0`, `""`, `[]` and `{}` are false. */
  predicate Truthy(v: Value) {
    match v
    case Null => false
    case Bool(b) => b
    case Num(n) => n != 0
    case Str(s) => s != ""
    case Arr(items) => items != []
    case Obj(fields) => fields != []
  }

  predicate HasField(fields: seq<(string, Value)>, key: string) {
    exists i :: 0 <= i < |fields| && fields[i].0 == key
  }

  /** The value of the first field named `key`. */
  function FieldValue(fields: seq<(string, Value)>, key: string): (r: Option<Value>)
    ensures r.Some? <==> HasField(fields, key)
    ensures r.Some? ==> exists i :: 0 <= i < |fields| && fields[i] == (key, r.value)
    decreases |fields|
  {
    if fields == [] then None
    else if fields[0].0 == key then Some(fields[0].1)
    else
      var r := FieldValue(fields[1..], key);
      assert r.Some? ==> HasField(fields[1..], key);
      assert HasField(fields, key) && fields[0].0 != key ==> HasField(fields[1..], key) by {
        if HasField(fields, key) && fields[0].0 != key {
          var i :| 0 <= i < |fields| && fields[i].0 == key;
          assert fields[1..][i - 1].0 == key;
        }
      }
      assert r.Some? ==> exists i :: 0 <= i < |fields| && fields[i] == (key, r.value) by {
        if r.Some? {
          var i :| 0 <= i < |fields[1..]| && fields[1..][i] == (key, r.value);
          assert fields[i + 1] == (key, r.value);
        }
      }
      r
  }

  /** `key in v` for a string `key`: a field of an object, an element of a
      list, a substring of a string; numbers and booleans are not iterable. */
  function HasKey(v: Value, key: string): (r: Result<bool, Error>)
    ensures v.Obj? ==> r == Success(HasField(v.fields, key))
    ensures v.Arr? ==> r == Success(Str(key) in v.items)
    ensures v.Str? ==> r == Success(Contains(v.s, key))
    ensures r.Failure? <==> v.Null? || v.Bool? || v.Num?
  {
    match v
    case Obj(fields) => Success(HasField(fields, key))
    case Arr(items) => Success(Str(key) in items)
    case Str(s) => Success(Contains(s, key))
    case _ => Failure(TypeError("argument is not iterable"))
  }

  /** `v[key]` for a string `key`: only objects can be indexed by a string. */
  function Lookup(v: Value, key: string): (r: Result<Value, Error>)
    ensures r.Success? <==> v.Obj? && HasField(v.fields, key)
    ensures r.Success? ==> exists i :: 0 <= i < |v.fields| && v.fields[i] == (key, r.value)
    ensures v.Obj? && !HasField(v.fields, key) ==> r == Failure(KeyError(key))
  {
    match v
    case Obj(fields) =>
      (match FieldValue(fields, key)
       case Some(x) => Success(x)
       case None => Failure(KeyError(key)))
    case _ => Failure(TypeError("indices must be integers"))
  }

  /** `v[key] if key in v else None`. */
  function LookupIfPresent(v: Value, key: string): (r: Result<Option<Value>, Error>)
    ensures v.Obj? ==> r.Success? && (r.value.Some? <==> HasField(v.fields, key))
    ensures v.Obj? && r.value.Some? ==> Lookup(v, key) == Success(r.value.value)
  {
    var present :- HasKey(v, key);
    if present then
      var x :- Lookup(v, key);
      Success(Some(x))
    else Success(None)
  }
}
