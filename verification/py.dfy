/** Python values as the deployment scripts receive them from their YAML
    configuration, the exceptions the scripts let escape, and the two
    Python behaviours every module leans on: truthiness (`if x:`) and
    `'%s' % x` rendering. */
module Py {
  import opened PyStrings

  datatype Option<+T> = None | Some(value: T)

  /** The Python exceptions that can escape the modelled code. */
  datatype PyError =
    | KeyError(key: string)        // dict subscript of a missing key
    | IndexError                   // subscript past the end of a list
    | TypeError                    // subscript or iteration of the wrong kind of value
    | ValueError                   // a malformed `%` format string
    | UnorderedIteration           // iterating a non-empty dict (hash order, see README)
    | Raised(message: string)      // an explicit `raise Exception(...)`

  datatype Result<+T> = Ok(value: T) | Err(error: PyError) {
    predicate IsFailure() {
      Err?
    }

    function PropagateFailure<U>(): Result<U>
      requires Err?
    {
      Err(error)
    }

    function Extract(): T
      requires Ok?
    {
      value
    }
  }

  /** A value read from a YAML document: scalars, lists (and tuples) and dicts. */
  datatype Value =
    | Str(s: string)
    | Int(i: int)
    | Bool(b: bool)
    | Null
    | List(items: seq<Value>)
    | Dict(fields: map<string, Value>)

  /** Python truthiness: empty strings and containers, 0, False and None are false. */
  predicate Truthy(v: Value) {
    match v
    case Str(s) => s != ""
    case Int(i) => i != 0
    case Bool(b) => b
    case Null => false
    case List(items) => |items| > 0
    case Dict(fields) => |fields| > 0
  }

  /** `'%s' % v` for a scalar; nested containers render as "" (see README). */
  function Text(v: Value): string {
    match v
    case Str(s) => s
    case Int(i) => IntText(i)
    case Bool(b) => if b then "True" else "False"
    case Null => "None"
    case List(_) => ""
    case Dict(_) => ""
  }

  /** `'%s' % x` for an attribute that holds a string or None. */
  function OptText(x: Option<string>): string {
    match x
    case Some(s) => s
    case None => "None"
  }

  /** A value that can be a dict key: lists and dicts are unhashable. */
  predicate Hashable(v: Value) {
    !v.List? && !v.Dict?
  }

  /** `dic[key]` on a YAML value. */
  function Subscript(dic: Value, key: string): (r: Result<Value>)
    ensures r.Ok? <==> dic.Dict? && key in dic.fields
    ensures r.Ok? ==> r.value == dic.fields[key]
  {
    if !dic.Dict? then Err(TypeError)
    else if key !in dic.fields then Err(KeyError(key))
    else Ok(dic.fields[key])
  }

  /** `for x in v`: a list yields its items, a string its characters. */
  function Iterate(v: Value): (r: Result<seq<Value>>)
    ensures v.List? ==> r == Ok(v.items)
    ensures v.Str? ==> r.Ok? && |r.value| == |v.s|
    ensures v.Str? ==> forall k :: 0 <= k < |v.s| ==> r.value[k] == Str([v.s[k]])
    ensures (v.Int? || v.Bool? || v.Null?) ==> r == Err(TypeError)
  {
    match v
    case List(items) => Ok(items)
    case Str(s) => Ok(seq(|s|, k requires 0 <= k < |s| => Str([s[k]])))
    case Dict(fields) => if |fields| == 0 then Ok([]) else Err(UnorderedIteration)
    case _ => Err(TypeError)
  }
}
