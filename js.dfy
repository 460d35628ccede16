/** Values of the JavaScript runtime that the widgets' arithmetic and
    guards can observe, with IEEE-754 detail reduced to what the widgets
    distinguish (NaN, the infinities, finite values as exact reals). */
module Js {

  datatype Option<+T> = None | Some(value: T)

  /** A JavaScript value of numeric role: `undefined` (a missing key of a
      rate object), NaN, an infinity, or a finite number. Negative zero is
      not distinguished from zero. */
  datatype Num = Undefined | NaN | Infinity(negative: bool) | Finite(value: real)

  /** JavaScript truthiness of a numeric value: `undefined`, NaN and 0 are falsy. */
  predicate Truthy(n: Num)
  {
    n.Infinity? || (n.Finite? && n.value != 0.0)
  }

  /** The IEEE-754 quotient `a / b`; `undefined` takes part as NaN. Without a
      negative zero, a nonzero number over zero takes the dividend's sign. */
  function Div(a: Num, b: Num): (r: Num)
    ensures a.Finite? && b.Finite? && b.value != 0.0 ==> r == Finite(a.value / b.value)
    ensures a == Finite(0.0) && b == Finite(0.0) ==> r == NaN
    ensures a.Finite? && a.value != 0.0 && b == Finite(0.0) ==> r == Infinity(a.value < 0.0)
    ensures a.Infinity? && b == Finite(0.0) ==> r == a
    ensures a.Infinity? && b.Finite? && b.value != 0.0 ==> r == Infinity(a.negative != (b.value < 0.0))
    ensures a.Finite? && b.Infinity? ==> r == Finite(0.0)
    ensures a.Infinity? && b.Infinity? ==> r == NaN
    ensures !a.Finite? && !a.Infinity? ==> r == NaN
    ensures !b.Finite? && !b.Infinity? ==> r == NaN
  {
    match (a, b)
    case (Finite(x), Finite(y)) =>
      if y != 0.0 then Finite(x / y)
      else if x == 0.0 then NaN
      else Infinity(x < 0.0)
    case (Infinity(n), Finite(y)) =>
      if y == 0.0 then Infinity(n) else Infinity(n != (y < 0.0))
    case (Finite(_), Infinity(_)) => Finite(0.0)
    case _ => NaN
  }

  /** What an edit handler learns from the text typed into a field:
      empty text, text that `Number` reads as a number (the value that
      `parseFloat` then yields), or text that `Number` rejects. */
  datatype Entry = Empty | Parsed(value: real) | NotNumeric
}
