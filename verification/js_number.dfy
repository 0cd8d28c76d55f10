/**
 * The part of JavaScript's number semantics the scorers depend on: an
 * arithmetic result is either a finite value or NaN (for example
 * `undefined * weight` when an answer is missing from a lexicon), and NaN
 * absorbs every later addition, multiplication and division.
 * Floating-point rounding is not modelled: finite values are exact reals.
 */
module JsNumber {

  datatype Num = Fin(v: real) | NaN

  /** `a + b`. */
  function Add(a: Num, b: Num): (r: Num)
    ensures r.Fin? <==> a.Fin? && b.Fin?
    ensures r.Fin? ==> r.v == a.v + b.v
  {
    if a.Fin? && b.Fin? then Fin(a.v + b.v) else NaN
  }

  /** `a * w` for a real factor `w`. */
  function Scale(a: Num, w: real): (r: Num)
    ensures r.Fin? <==> a.Fin?
    ensures r.Fin? ==> r.v == a.v * w
  {
    if a.Fin? then Fin(a.v * w) else NaN
  }

  /** `0` or NaN: the only numerators the scorers ever divide by zero. */
  predicate ZeroOrNaN(a: Num)
  {
    a.NaN? || a.v == 0.0
  }

  /**
   * `(a / b) * 100`. With `b == 0` the numerator is 0 or NaN (see ZeroOrNaN), so
   * the JavaScript result is NaN; Infinity never arises.
   */
  function Percent(a: Num, b: real): (r: Num)
    requires b >= 0.0
    requires b == 0.0 ==> ZeroOrNaN(a)
    ensures r.Fin? <==> a.Fin? && b > 0.0
    ensures r.Fin? ==> r.v * b == a.v * 100.0
  {
    if a.Fin? && b > 0.0 then Fin(a.v / b * 100.0) else NaN
  }

  /** `a / b` for a positive divisor. */
  function DivBy(a: Num, b: real): (r: Num)
    requires b > 0.0
    ensures r.Fin? <==> a.Fin?
    ensures r.Fin? ==> r.v * b == a.v
  {
    if a.Fin? then Fin(a.v / b) else NaN
  }

  /** `Math.round(x)`: halves round up, towards +Infinity. */
  function Round(x: real): (r: int)
    ensures x - 0.5 < r as real <= x + 0.5
  {
    (x + 0.5).Floor
  }

  /** `Math.round` on a number that may be NaN. */
  function RoundNum(a: Num): (r: Num)
    ensures r.Fin? <==> a.Fin?
    ensures r.Fin? ==> a.v - 0.5 < r.v <= a.v + 0.5
  {
    if a.Fin? then Fin(Round(a.v) as real) else NaN
  }

  /** JavaScript truthiness of a number: everything except 0 and NaN. */
  predicate Truthy(a: Num)
  {
    a.Fin? && a.v != 0.0
  }

  /** Bounds on a ratio, used for the percentage ranges of the scorers. */
  lemma PercentBetween(a: real, b: real, lo: real, hi: real)
    requires b > 0.0
    requires lo * b <= a * 100.0 <= hi * b
    ensures lo <= a / b * 100.0 <= hi
  {
    var p := a / b * 100.0;
    assert p * b == a * 100.0;
  }

  /** Bounds on a percentage of a finite number. */
  lemma PercentWithin(a: Num, b: real, lo: real, hi: real)
    requires a.Fin? && b > 0.0
    requires lo * b <= a.v * 100.0 <= hi * b
    ensures Percent(a, b).Fin? && lo <= Percent(a, b).v <= hi
  {
    PercentBetween(a.v, b, lo, hi);
  }

  /** Round is monotone. */
  lemma RoundMonotone(x: real, y: real)
    requires x <= y
    ensures Round(x) <= Round(y)
  {
  }
}
