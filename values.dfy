/**
 * The PHP values a request body or a parsed response body can be: scalars,
 * flat arrays, plain objects and streams, with PHP's truthiness and its
 * string cast.
 */
module Values {
  import opened Wrappers
  import opened PhpStrings
  import opened Messages
  import opened Exceptions

  /** A value that can sit inside a flat array. */
  datatype Scalar = SNull | SBool(b: bool) | SInt(i: int) | SString(s: string)

  datatype Value =
    | Null
    | Bool(b: bool)
    | Int(i: int)
    | Str(s: string)
    /** An array with string keys whose entries are scalars. */
    | Arr(entries: seq<(string, Scalar)>)
    /** An object: its class, its public properties, and what `__toString` returns if it has one. */
    | Obj(className: string, properties: seq<(string, Scalar)>, toString: Option<string>)
    /** A `StreamInterface` object. */
    | StreamBody(stream: Stream)

  /** Whether PHP treats the value as `true` in a condition. */
  predicate Truthy(v: Value) {
    match v
    case Null => false
    case Bool(b) => b
    case Int(i) => i != 0
    case Str(s) => !IsFalsy(s)
    case Arr(entries) => |entries| > 0
    case Obj(_, _, _) => true
    case StreamBody(_) => true
  }

  /**
   * `(string)$value`: arrays become "Array" (PHP warns), streams are read
   * from the start, and an object without `__toString` raises an `Error`.
   */
  function StringCast(v: Value): (r: Result<string, Exception>)
    ensures r.Failure? <==> v.Obj? && v.toString.None?
    ensures v.Str? ==> r == Success(v.s)
    ensures v.Null? || v == Bool(false) ==> r == Success("")
  {
    match v
    case Null => Success("")
    case Bool(b) => Success(if b then "1" else "")
    case Int(i) => Success(IntToString(i))
    case Str(s) => Success(s)
    case Arr(_) => Success("Array")
    case Obj(className, _, toString) =>
      if toString.Some? then Success(toString.value)
      else Failure(Thrown("Error", "Object of class " + className + " could not be converted to string"))
    case StreamBody(stream) => Success(stream.ToString())
  }
}
