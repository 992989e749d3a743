/**
 * The JavaScript values the client's public methods receive: the primitives
 * the library distinguishes, and objects, whose properties the library reads
 * and, in one place, writes. Numbers are non-negative integers.
 */
module JsValues {
  import opened Decimal

  datatype JsValue =
    | Undefined
    | Null
    | Bool(b: bool)
    | Num(n: nat)
    | Str(s: string)
    | Obj(ref: JsObject)

  /** A plain JavaScript object: a mutable map from property names to values. */
  class JsObject {
    var props: map<string, JsValue>

    constructor (props: map<string, JsValue>)
      ensures this.props == props
    {
      this.props := props;
    }

    /** Property read `o.name`: a missing property reads as `undefined`. */
    function Get(name: string): (v: JsValue)
      reads this
      ensures name !in props ==> v == Undefined
    {
      if name in props then props[name] else Undefined
    }
  }

  /** What `if (v)` and `v || w` treat as true. */
  predicate Truthy(v: JsValue) {
    match v
    case Undefined => false
    case Null => false
    case Bool(b) => b
    case Num(n) => n != 0
    case Str(s) => s != ""
    case Obj(_) => true
  }

  /** `typeof v`; note that `typeof null` is "object". */
  function TypeOf(v: JsValue): (t: string)
    ensures t == "string" <==> v.Str?
    ensures t == "number" <==> v.Num?
    ensures t == "object" <==> v.Null? || v.Obj?
  {
    match v
    case Undefined => "undefined"
    case Bool(_) => "boolean"
    case Num(_) => "number"
    case Str(_) => "string"
    case Null => "object"
    case Obj(_) => "object"
  }

  /** The text a template literal `${v}` inserts for `v`. */
  function ToStr(v: JsValue): string {
    match v
    case Undefined => "undefined"
    case Null => "null"
    case Bool(b) => if b then "true" else "false"
    case Num(n) => NatToString(n)
    case Str(s) => s
    case Obj(_) => "[object Object]"
  }

  /** `a || b`: the first operand when it is truthy, the second otherwise. */
  function Or(a: JsValue, b: JsValue): JsValue {
    if Truthy(a) then a else b
  }
}
