/** The loosely typed JavaScript values that flow through the service: parsed
    JSON from providers, the model and the store, and request bodies.  The
    rules of the language that the source leans on are spelt out here:
    truthiness, `a || b`, optional chaining `a?.k`, template-string
    conversion `${v}`, strict equality and numeric coercion. */
module JsValue {
  import opened Common

  /** A JSON value.  Numbers are integers in this model; `undefined` is the
      absence of a value (`None`, or a key missing from a record). */
  datatype Value =
    | Null
    | Bool(b: bool)
    | Num(n: int)
    | Str(s: string)
    | Arr(items: seq<Value>)
    | Obj(fields: map<string, Value>)

  /** A plain object: a raw provider record, a canonical job, an application. */
  type Record = map<string, Value>

  /** `r.k` on an object. */
  function Field(r: Record, k: string): Option<Value> {
    if k in r then Some(r[k]) else None
  }

  /** `v?.k`: undefined unless v is an object holding k. */
  function Member(v: Option<Value>, k: string): Option<Value> {
    if v.Some? && v.value.Obj? then Field(v.value.fields, k) else None
  }

  /** JavaScript truthiness: undefined, null, false, 0 and "" are falsy. */
  predicate Truthy(v: Option<Value>) {
    match v
    case None => false
    case Some(x) =>
      match x
      case Null => false
      case Bool(b) => b
      case Num(n) => n != 0
      case Str(s) => s != []
      case _ => true
  }

  /** `a || b`: the first operand when it is truthy, the second otherwise. */
  function Or(a: Option<Value>, b: Option<Value>): Option<Value> {
    if Truthy(a) then a else b
  }

  /** `a || d` for a default `d` that is a defined value. */
  function OrElse(a: Option<Value>, d: Value): Value {
    if Truthy(a) then a.value else d
  }

  /** A truthy default makes `a || d` truthy. */
  lemma OrElseTruthy(a: Option<Value>, d: Value)
    requires Truthy(Some(d))
    ensures Truthy(Some(OrElse(a, d)))
  {
  }

  /** `String(v)` for a defined value, as a template literal renders it. */
  function Text(v: Value): string
    decreases v
  {
    match v
    case Null => "null"
    case Bool(b) => if b then "true" else "false"
    case Num(n) => IntToString(n)
    case Str(s) => s
    case Arr(items) =>
      Join(seq(|items|, i requires 0 <= i < |items| =>
             if items[i].Null? then "" else Text(items[i])), ",")
    case Obj(_) => "[object Object]"
  }

  /** `${v}` where v may be undefined. */
  function ToText(v: Option<Value>): string {
    if v.Some? then Text(v.value) else "undefined"
  }

  /** `${a || d}` for a string default d. */
  function TextOr(a: Option<Value>, d: string): string {
    if Truthy(a) then Text(a.value) else d
  }

  /** Strict equality `a === b` between a value read from one JSON document
      and one read from another: primitives compare by value, while objects
      and arrays never coincide, since each document has its own. */
  predicate StrictEq(a: Option<Value>, b: Option<Value>) {
    match (a, b)
    case (None, None) => true
    case (Some(x), Some(y)) => !x.Arr? && !x.Obj? && x == y
    case _ => false
  }

  /** A JavaScript number as the model sees it: an integer or NaN. */
  datatype Number = NaN | Finite(n: int)

  predicate IsDigits(t: string) {
    t != [] && forall i :: 0 <= i < |t| ==> IsDigit(t[i])
  }

  /** `Number(s)` for decimal integer text surrounded by white space. */
  function StringToNumber(s: string): Number {
    var t := Trim(s);
    if t == [] then Finite(0)
    else if t[0] == '-' && IsDigits(t[1..]) then Finite(0 - DigitsValue(t[1..]))
    else if t[0] == '+' && IsDigits(t[1..]) then Finite(DigitsValue(t[1..]))
    else if IsDigits(t) then Finite(DigitsValue(t))
    else NaN
  }

  /** The numeric coercion `Math.max` and `Math.min` apply to their arguments. */
  function ToNumber(v: Value): Number {
    match v
    case Null => Finite(0)
    case Bool(b) => Finite(if b then 1 else 0)
    case Num(n) => Finite(n)
    case _ => StringToNumber(Text(v))
  }

  /** `Math.max(lo, x)` */
  function MaxWith(lo: int, x: Number): Number {
    match x
    case NaN => NaN
    case Finite(n) => Finite(if n < lo then lo else n)
  }

  /** `Math.min(hi, x)` */
  function MinWith(hi: int, x: Number): Number {
    match x
    case NaN => NaN
    case Finite(n) => Finite(if n > hi then hi else n)
  }
}
