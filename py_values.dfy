/**
 * The dynamically typed Python values that the validator inspects with
 * `isinstance`. A Python `bool` is an `int` (bool subclasses int, and every
 * check here treats it as one), so it is folded into `Int`. Dictionary keys are
 * strings: only the keys "lat" and "lng" are ever looked up.
 */
module PyValues {

  datatype Value =
    | NoneValue
    | Int(i: int)
    | Float(x: real)
    | Str(s: string)
    | List(items: seq<Value>)
    | Tuple(items: seq<Value>)
    | Dict(entries: map<string, Value>)
    | DateTime(epoch: real)      // a datetime, as seconds since the epoch
    | Other                      // any object of another type

  /** `isinstance(v, (int, float))` */
  predicate IsNumber(v: Value) {
    v.Int? || v.Float?
  }

  /** Python truthiness (`bool(v)`); objects of other types are truthy by default. */
  function Truthy(v: Value): (t: bool)
    ensures !t <==> v in {NoneValue, Int(0), Float(0.0), Str(""), List([]), Tuple([]), Dict(map[])}
  {
    match v
    case NoneValue => false
    case Int(i) => i != 0
    case Float(x) => x != 0.0
    case Str(s) => s != ""
    case List(items) => items != []
    case Tuple(items) => items != []
    case Dict(entries) => entries != map[]
    case DateTime(_) => true
    case Other => true
  }
}
