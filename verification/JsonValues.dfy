/** JSON values, and the conversions the code applies to them. */
module JsonValues {
  import opened Common

  datatype Json =
    | Null
    | Bool(b: bool)
    | Num(n: int)
    | Float(x: real)
    | Str(s: string)
    | Arr(items: seq<Json>)
    | Obj(fields: map<string, Json>)

  /** Conversion to a 32-bit int. */
  function Int32(n: int): (r: int)
    ensures -0x8000_0000 <= r < 0x8000_0000
    ensures -0x8000_0000 <= n < 0x8000_0000 ==> r == n
  {
    (n + 0x8000_0000) % 0x1_0000_0000 - 0x8000_0000
  }

  function Truncated(x: real): int {
    if x >= 0.0 then x.Floor else -((-x).Floor)
  }

  /** The int a value converts to: numbers and booleans do, anything else is a type error. */
  function IntOf(j: Json): Option<int> {
    match j
    case Bool(b) => Some(if b then 1 else 0)
    case Num(n) => Some(Int32(n))
    case Float(x) => Some(Int32(Truncated(x)))
    case _ => None
  }

  /** Integers in range convert to themselves, fractions are cut off, booleans count as 0 and 1. */
  lemma IntOfMeans(n: int, x: real)
    requires -0x8000_0000 <= n < 0x8000_0000 && -2147483648.0 < x < 2147483648.0
    ensures IntOf(Num(n)) == Some(n) && IntOf(Float(n as real)) == Some(n)
    ensures IntOf(Bool(true)) == Some(1) && IntOf(Bool(false)) == Some(0)
    ensures
      var r := IntOf(Float(x)).value as real;
      if x >= 0.0 then r <= x < r + 1.0 else r - 1.0 < x <= r
  {
    assert (n as real).Floor == n && (-(n as real)).Floor == -n;
  }

  /** A text field with a default; None for a type error. */
  function TextOr(m: map<string, Json>, key: string, default: string): Option<string> {
    if key !in m then Some(default) else if m[key].Str? then Some(m[key].s) else None
  }

  function IntOr(m: map<string, Json>, key: string, default: int): Option<int> {
    if key !in m then Some(default) else IntOf(m[key])
  }
}
