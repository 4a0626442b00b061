/** The JavaScript value semantics the session code leans on: property access
    with `undefined`, truthiness, `ToNumber` coercion, and the comparisons
    `a > v` and `a - v > d` that coerce their right operand. */
module Js {
  import opened Wrappers
  import opened Strings

  /** A property value of a parsed JSON record. Numbers are integers here;
      `undefined` (a missing property) is represented by `None`. */
  datatype Value = Num(n: int) | Str(s: string) | Bool(b: bool) | Null

  /** The properties of a parsed JSON value. */
  type Fields = map<string, Value>

  /** `obj.name`: a missing property reads as `undefined` (None). */
  function Get(f: Fields, name: string): (r: Option<Value>)
    ensures r.Some? <==> name in f
    ensures r.Some? ==> r.value == f[name]
  {
    if name in f then Some(f[name]) else None
  }

  /** `if (v)`: `undefined`, `null`, `false`, `0` and `""` are falsy. */
  predicate Truthy(v: Option<Value>) {
    match v
    case None => false
    case Some(Num(n)) => n != 0
    case Some(Str(s)) => s != ""
    case Some(Bool(b)) => b
    case Some(Null) => false
  }

  /** `ToNumber(v)`, with NaN written None. */
  function ToNumber(v: Option<Value>): (r: Option<int>)
    ensures v == Some(Null) ==> r == Some(0)
    ensures v.None? ==> r.None?
    ensures forall n :: v == Some(Num(n)) ==> r == Some(n)
  {
    match v
    case None => None
    case Some(Num(n)) => Some(n)
    case Some(Str(s)) => NumberOfText(s)
    case Some(Bool(b)) => Some(if b then 1 else 0)
    case Some(Null) => Some(0)
  }

  /** `a > v` for a number `a`: false whenever `v` coerces to NaN. */
  predicate Exceeds(a: int, v: Option<Value>) {
    match ToNumber(v)
    case Some(x) => a > x
    case None => false
  }

  /** `a - v > d` for numbers `a`, `d`: false whenever `v` coerces to NaN. */
  predicate GapExceeds(a: int, v: Option<Value>, d: int) {
    match ToNumber(v)
    case Some(x) => a - x > d
    case None => false
  }

  /** `String(v)`, as a template literal `${v}` renders it. */
  function ToText(v: Value): string {
    match v
    case Num(n) => Decimal(n)
    case Str(s) => s
    case Bool(b) => if b then "true" else "false"
    case Null => "null"
  }
}
