/** The Python object graph the deploy-time compiler works on: JSON-like
    scalars and containers, plus the three kinds of object that the
    lowering to a manifest treats specially — `Sentinel` instances (the
    reset marker), `Enum` members and deferred `Expression`s — and
    dataclass instances. */
module Values {
  import Params

  datatype Value =
    | Null
      /** `util.Sentinel`: instances are equal exactly when their
          descriptions are, which datatype equality gives. */
    | Sentinel(description: string)
    | Bool(b: bool)
    | Int(i: int)
    | Str(s: string)
      /** An `Enum` member whose `.value` is `raw`. */
    | Member(raw: Value)
    | Expr(e: Params.Expression)
    | List(items: seq<Value>)
    | Dict(entries: map<string, Value>)
      /** A dataclass instance, by field name. */
    | Record(fields: map<string, Value>)

  /** `options.RESET_VALUE`. */
  const ResetValue: Value :=
    Sentinel("Special configuration value to reset configuration to platform default.")

  /** `d.get(k)` on a dict, with Python's `None` for a missing key. */
  function Get(m: map<string, Value>, k: string): (v: Value)
    ensures k !in m ==> v == Null
    ensures k in m ==> v == m[k]
  {
    if k in m then m[k] else Null
  }

  /** Python truthiness. Enum members, sentinels, expressions and
      dataclass instances define no `__bool__`, so they are truthy. */
  predicate Truthy(v: Value)
  {
    match v
    case Null => false
    case Bool(b) => b
    case Int(i) => i != 0
    case Str(s) => |s| > 0
    case List(xs) => |xs| > 0
    case Dict(m) => |m| > 0
    case _ => true
  }

  /** The value a param default or a CEL operand stands for. */
  function FromOperand(o: Params.Operand): (v: Value)
    ensures o.Ref? <==> v.Expr?
  {
    match o
    case Str(s) => Str(s)
    case Int(i) => Int(i)
    case Bool(b) => Bool(b)
    case Ref(e) => Expr(e)
  }
}
