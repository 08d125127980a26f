/** Prices as the synchronisation reads them, with floating-point numbers as reals. */
module Prices {
  datatype Value = Nil | Number(x: real) | Integer(n: int) | Text(s: string)

  /** Model name to price, and field name to such a table. */
  type Table = map<string, Value>
  type Data = map<string, Table>

  const EPSILON := 0.000000001

  predicate NearlyEqual(a: real, b: real) {
    if a > b then a - b < EPSILON else b - a < EPSILON
  }

  predicate ValuesEqual(a: Value, b: Value) {
    if a.Number? && b.Number? then NearlyEqual(a.x, b.x) else a == b
  }

  function AsFloat(v: Value): Value {
    if v.Integer? then Number(v.n as real) else v
  }
}
