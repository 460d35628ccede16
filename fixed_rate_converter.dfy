/** The fixed-rate dollar/euro converter (app/routes/currency-converter.tsx):
    two number inputs kept in step through one constant rate. */
module FixedRateConverter {
  import opened Js
  import opened Rounding

  /** The rate the widget starts with and never changes: euros per dollar. */
  const InitialRate: real := 0.89

  function ToEuro(amount: real, rate: real): real
  {
    amount * rate
  }

  function ToUsd(amount: real, rate: real): real
    requires rate != 0.0
  {
    amount / rate
  }

  /** Dollars to euros and back is the identity at any nonzero rate ... */
  lemma UsdEuroUsd(amount: real, rate: real)
    requires rate != 0.0
    ensures ToUsd(ToEuro(amount, rate), rate) == amount
  {
  }

  /** ... and so is euros to dollars and back. */
  lemma EuroUsdEuro(amount: real, rate: real)
    requires rate != 0.0
    ensures ToEuro(ToUsd(amount, rate), rate) == amount
  {
  }

  /** The `equation` argument of `convert`. */
  datatype Equation = ToEuroEquation | ToUsdEquation

  /** An equation applied to a JavaScript number at a positive rate: finite values
      go through the formula, an infinity stays infinite, anything else is NaN. */
  function Apply(eq: Equation, n: Num, rate: real): (r: Num)
    requires rate > 0.0
    ensures n.Finite? && eq == ToEuroEquation ==> r == Finite(ToEuro(n.value, rate))
    ensures n.Finite? && eq == ToUsdEquation ==> r == Finite(ToUsd(n.value, rate))
    ensures n.Infinity? ==> r == n
    ensures n.NaN? || n.Undefined? ==> r == NaN
  {
    match n
    case Finite(x) => Finite(if eq == ToEuroEquation then ToEuro(x, rate) else ToUsd(x, rate))
    case Infinity(_) => n
    case _ => NaN
  }

  /** `parseFloat(n.toFixed(places))` for any number: finite values are rounded. */
  function RoundNum(n: Num, places: nat): (r: Num)
    ensures n.Finite? ==> r == Finite(Round(n.value, places))
    ensures !n.Finite? ==> r == n
  {
    if n.Finite? then Finite(Round(n.value, places)) else n
  }

  /** The text `convert` returns: "" or the result of `toFixed(3)`, kept as the
      number it spells. */
  datatype Text = EmptyText | Spelled(n: Num)

  /** `convert`: "" for a NaN input, else the equation's result to three decimals.
      Its input is a `number`, so never undefined (`toString` would throw on it). */
  function Convert(amount: Num, rate: real, eq: Equation): (t: Text)
    requires rate > 0.0
    requires !amount.Undefined?
    ensures amount.NaN? <==> t == EmptyText
    ensures amount.Finite? ==> t == Spelled(Finite(Round(Apply(eq, amount, rate).value, 3)))
    ensures amount.Infinity? ==> t == Spelled(amount)
  {
    if amount.NaN? then EmptyText
    else Spelled(RoundNum(Apply(eq, amount, rate), 3))
  }

  /** `parseFloat` of a text `convert` produced. */
  function ParseFloat(t: Text): (n: Num)
    ensures t == EmptyText ==> n == NaN
    ensures t.Spelled? ==> n == t.n
  {
    match t
    case EmptyText => NaN
    case Spelled(n) => n
  }

  /** Reading back what `convert` wrote is rounding the formula's result to three
      decimals, NaN included: the "" for NaN reads back as NaN. */
  lemma ConvertReadBack(amount: Num, rate: real, eq: Equation)
    requires rate > 0.0
    requires !amount.Undefined?
    ensures ParseFloat(Convert(amount, rate, eq)) == RoundNum(Apply(eq, amount, rate), 3)
  {
  }

  /** The widget's state record. */
  class Widget {
    var rate: real
    var usd: Num
    var euro: Num

    /** The rate is the constant one. */
    ghost predicate Valid()
      reads this
    {
      rate == InitialRate
    }

    constructor ()
      ensures Valid()
      ensures usd == Finite(1.0) && euro == Finite(0.89)
      ensures euro == Finite(ToEuro(usd.value, rate))
    {
      rate, usd, euro := 0.89, Finite(1.0), Finite(0.89);
    }

    /** The dollar field was edited; `typed` is `parseFloat` of its text, which
        is a number or NaN and never undefined. */
    method HandleUsdChange(typed: Num)
      requires Valid()
      requires !typed.Undefined?
      modifies this`usd, this`euro
      ensures Valid()
      ensures usd == typed
      ensures euro == ParseFloat(Convert(typed, rate, ToEuroEquation))
    {
      var converted := Convert(typed, rate, ToEuroEquation);
      usd, euro := typed, ParseFloat(converted);
    }

    /** The euro field was edited; the mirror image of HandleUsdChange. */
    method HandleEuroChange(typed: Num)
      requires Valid()
      requires !typed.Undefined?
      modifies this`usd, this`euro
      ensures Valid()
      ensures euro == typed
      ensures usd == ParseFloat(Convert(typed, rate, ToUsdEquation))
    {
      var converted := Convert(typed, rate, ToUsdEquation);
      euro, usd := typed, ParseFloat(converted);
    }
  }

  /** Edits of either field never touch the rate, whatever their order. */
  method EditSequence(w: Widget, edits: seq<(bool, Num)>)
    requires w.Valid()
    requires forall k :: 0 <= k < |edits| ==> !edits[k].1.Undefined?
    modifies w
    ensures w.Valid() && w.rate == old(w.rate)
  {
    var k := 0;
    while k < |edits|
      invariant 0 <= k <= |edits|
      invariant w.Valid()
    {
      if edits[k].0 {
        w.HandleUsdChange(edits[k].1);
      } else {
        w.HandleEuroChange(edits[k].1);
      }
      k := k + 1;
    }
  }
}
