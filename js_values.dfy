/**
 * The two kinds of JavaScript value the date stamp passes around, and the
 * binary `+` and `%` operators on them.
 */
module JsValues {
  import opened Strings

  /** A JavaScript string or an integral JavaScript number. */
  datatype JsValue = Str(s: string) | Num(n: int)

  /** The string a value turns into when it is concatenated. */
  function ToStr(v: JsValue): string
  {
    match v
    case Str(s) => s
    case Num(n) => NumberToString(n)
  }

  /** Binary `+`: string concatenation as soon as either operand is a string, numeric addition otherwise. */
  function Plus(a: JsValue, b: JsValue): (r: JsValue)
    ensures r.Str? <==> a.Str? || b.Str?
    ensures r.Str? ==> ToStr(r) == ToStr(a) + ToStr(b)
    ensures r.Num? ==> r.n == a.n + b.n
  {
    if a.Str? || b.Str? then Str(ToStr(a) + ToStr(b)) else Num(a.n + b.n)
  }

  /** Binary `%` by a positive divisor: the remainder takes the sign of the dividend (truncating division). */
  function Rem(a: int, m: int): (r: int)
    requires m > 0
    ensures a >= 0 ==> 0 <= r < m
    ensures a < 0 ==> -m < r <= 0
    ensures a == (if a >= 0 then a / m else -((-a) / m)) * m + r
  {
    if a >= 0 then a % m else -((-a) % m)
  }
}
