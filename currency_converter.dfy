/** The two-field converter of the currency dashboard
    (app/currency-v2/CurrencyConverter.tsx): an amount in one currency and
    its conversion into another, both editable, over a USD-anchored rate
    table whose missing or zero rates count as 1. */
module CurrencyConverter {
  import opened Js
  import opened Rounding
  import opened RateTable

  /** The conversion effect before rounding, case by case as the source writes it. */
  function Forward(t: Table, from: string, to: string, amount: real): real
  {
    if from == Base then amount * Effective(t, to)
    else if to == Base then amount / Effective(t, from)
    else amount / Effective(t, from) * Effective(t, to)
  }

  /** The amount recomputed from an edited converted amount, before rounding. */
  function Reverse(t: Table, from: string, to: string, value: real): real
  {
    if from == Base then value / Effective(t, to)
    else if to == Base then value * Effective(t, from)
    else value * Effective(t, from) / Effective(t, to)
  }

  /** What the converted field shows for an amount: `parseFloat(result.toFixed(2))`. */
  function Converted(t: Table, from: string, to: string, amount: real): (r: real)
    ensures OnGrid(r, 2)
    ensures -0.5 <= Scaled(r - Forward(t, from, to, amount), 2) <= 0.5
    ensures Scaled(r - Forward(t, from, to, amount), 2) == 0.5 ==> Forward(t, from, to, amount) > 0.0
    ensures Scaled(r - Forward(t, from, to, amount), 2) == -0.5 ==> Forward(t, from, to, amount) < 0.0
  {
    Round(Forward(t, from, to, amount), 2)
  }

  /** The reverse formula undoes the forward one exactly, in all three cases. */
  lemma ReverseUndoesForward(t: Table, from: string, to: string, x: real)
    ensures Reverse(t, from, to, Forward(t, from, to, x)) == x
  {
    var f, g := Effective(t, from), Effective(t, to);
    if from != Base && to != Base {
      var y := x / f * g;
      assert Forward(t, from, to, x) == y;
      assert Reverse(t, from, to, y) == y * f / g;
      CrossThenBack(x, f, g);
    } else if from == Base {
      MulThenDiv(x, g);
    } else {
      DivThenMul(x, f);
    }
  }

  /** ... and the forward formula undoes the reverse one. */
  lemma ForwardUndoesReverse(t: Table, from: string, to: string, y: real)
    ensures Forward(t, from, to, Reverse(t, from, to, y)) == y
  {
    var f, g := Effective(t, from), Effective(t, to);
    if from != Base && to != Base {
      BackThenCross(y, f, g);
    } else if from == Base {
      DivThenMul(y, g);
    } else {
      MulThenDiv(y, f);
    }
  }

  lemma CrossThenBack(x: real, f: real, g: real)
    requires f != 0.0 && g != 0.0
    ensures x / f * g * f / g == x
  {
    DivThenMul(x, f);
    assert x / f * g * f == x / f * f * g;
    MulThenDiv(x, g);
  }

  lemma BackThenCross(y: real, f: real, g: real)
    requires f != 0.0 && g != 0.0
    ensures y * f / g / f * g == y
  {
    DivSwap(y, f, g);
    MulThenDiv(y / g, f);
    DivThenMul(y, g);
  }

  lemma DivThenMul(x: real, f: real)
    requires f != 0.0
    ensures x / f * f == x
  {
  }

  lemma DivSwap(y: real, f: real, g: real)
    requires g != 0.0
    ensures y * f / g == y / g * f
  {
    var q := y / g;
    DivThenMul(y, g);
    assert y * f == q * f * g;
    MulThenDiv(q * f, g);
  }

  lemma MulThenDiv(x: real, f: real)
    requires f != 0.0
    ensures x * f / f == x
  {
  }

  /** The value of one US dollar in `c` as the conversion uses it: 1 for USD itself. */
  function Anchor(t: Table, c: string): (r: real)
    ensures r != 0.0
    ensures c != Base ==> r == Effective(t, c)
  {
    if c == Base then 1.0 else Effective(t, c)
  }

  /** Every case is "to dollars, then from dollars" — except USD to USD when the
      table lists USD itself with a rate other than 0 or 1. */
  lemma ForwardViaAnchor(t: Table, from: string, to: string, x: real)
    requires from != Base || to != Base || Effective(t, Base) == 1.0
    ensures Forward(t, from, to, x) == x / Anchor(t, from) * Anchor(t, to)
  {
  }

  /** The rate one way times the rate back is 1, again except USD to USD
      against a USD entry of its own. */
  lemma RateRoundTrip(t: Table, from: string, to: string)
    requires from != Base || to != Base || Effective(t, Base) == 1.0
    ensures Forward(t, from, to, 1.0) * Forward(t, to, from, 1.0) == 1.0
  {
    ForwardViaAnchor(t, from, to, 1.0);
    ForwardViaAnchor(t, to, from, 1.0);
    var f, g := Anchor(t, from), Anchor(t, to);
    assert (1.0 / f * g) * (1.0 / g * f) == 1.0;
  }

  /** USD to USD multiplies by the table's own USD entry when it has one. */
  lemma UsdToUsd(t: Table, x: real)
    ensures Forward(t, Base, Base, x) == x * Effective(t, Base)
    ensures Base in t.rate && t.rate[Base] != 0.0 ==> Forward(t, Base, Base, x) == x * t.rate[Base]
  {
  }

  /** Conversion is linear: the amount times the conversion of one unit. */
  lemma ForwardPerUnit(t: Table, from: string, to: string, x: real)
    ensures Forward(t, from, to, x) == x * Forward(t, from, to, 1.0)
  {
    var f, g := Effective(t, from), Effective(t, to);
    if from != Base && to != Base {
      assert x / f * g == x * (1.0 / f * g);
    } else if to == Base && from != Base {
      assert x / f == x * (1.0 / f);
    }
  }

  /** A currency converted to itself shows the amount itself, rounded; for USD
      that needs the table to give USD no rate of its own. */
  lemma SameCurrency(t: Table, c: string, x: real)
    requires c != Base || Effective(t, Base) == 1.0
    ensures Converted(t, c, c, x) == Round(x, 2)
  {
    if c != Base {
      DivThenMul(x, Effective(t, c));
    }
    assert Forward(t, c, c, x) == x;
  }

  /** A target missing from the table converts from USD at parity. */
  lemma UnknownTarget(t: Table, to: string, x: real)
    requires to !in t.rate
    ensures Converted(t, Base, to, x) == Round(x, 2)
  {
  }

  /** The demo table the currency dashboard is fed with (app/currency-v2/CurrencyExchange.tsx). */
  const MockRates: Table := Table(
    ["EUR", "GBP", "JPY", "CAD", "AUD", "CHF", "HKD", "CNY"],
    map["EUR" := 0.826, "GBP" := 0.765, "JPY" := 108.2, "CAD" := 1.257,
        "AUD" := 1.345, "CHF" := 0.925, "HKD" := 7.782, "CNY" := 6.548])

  /** The demo table is a real rate object: eight distinct keys, each with a rate. */
  lemma MockRatesValid()
    ensures MockRates.Valid()
  {
  }

  /** The opening screen over the demo table: 100 USD shows 82.60 EUR, and
      typing that back converts to exactly 100 USD. */
  lemma MockScenario()
    ensures Converted(MockRates, Base, "EUR", 100.0) == 82.6
    ensures Round(Reverse(MockRates, Base, "EUR", 82.6), 2) == 100.0
    ensures Converted(MockRates, Base, "XXX", 50.0) == 50.0
  {
    var t := MockRates;
    assert Effective(t, "EUR") == 0.826;
    assert Effective(t, "XXX") == 1.0;
    OnGridExample(82.6, 8260);
    OnGridExample(100.0, 10000);
    OnGridExample(50.0, 5000);
  }

  lemma OnGridExample(x: real, cents: int)
    requires x * 100.0 == cents as real
    ensures Round(x, 2) == x
  {
    assert Scaled(x, 2) == cents as real;
    RoundOnGrid(x, 2);
  }

  /** A three-currency table: each direction through USD and the cross rate
      land on whole cents, and an unknown code converts at parity. */
  lemma ThreeCurrencyScenario()
    ensures Converted(Table(["EUR", "GBP", "JPY"], map["EUR" := 0.92, "GBP" := 0.78, "JPY" := 148.5]), Base, "EUR", 100.0) == 92.0
    ensures Converted(Table(["EUR", "GBP", "JPY"], map["EUR" := 0.92, "GBP" := 0.78, "JPY" := 148.5]), "EUR", Base, 92.0) == 100.0
    ensures Converted(Table(["EUR", "GBP", "JPY"], map["EUR" := 0.92, "GBP" := 0.78, "JPY" := 148.5]), "EUR", "GBP", 92.0) == 78.0
    ensures Converted(Table(["EUR", "GBP", "JPY"], map["EUR" := 0.92, "GBP" := 0.78, "JPY" := 148.5]), Base, "XXX", 50.0) == 50.0
  {
    var t := Table(["EUR", "GBP", "JPY"], map["EUR" := 0.92, "GBP" := 0.78, "JPY" := 148.5]);
    assert Forward(t, "EUR", "GBP", 92.0) == 78.0;
    OnGridExample(92.0, 9200);
    OnGridExample(100.0, 10000);
    OnGridExample(78.0, 7800);
    OnGridExample(50.0, 5000);
  }

  /** The "CURRENT RATE" line: None stands for "—", `Some(v)` for `v.toFixed(6)`. */
  function RateDisplay(rates: Option<Table>, from: string, to: string): (r: Option<real>)
    ensures rates.None? ==> r.None?
    ensures rates.Some? && from == Base ==> (r.Some? <==> to in rates.value.rate)
    ensures rates.Some? && from == Base && to in rates.value.rate ==> r == Some(Round(rates.value.rate[to], 6))
    ensures rates.Some? && from != Base ==> r == Some(Round(Forward(rates.value, from, to, 1.0), 6))
  {
    match rates
    case None => None
    case Some(t) =>
      if from == Base then
        if to in t.rate then Some(Round(t.rate[to], 6)) else None
      else if to == Base then Some(Round(1.0 / Effective(t, from), 6))
      else
        RatioIsUnitConversion(Effective(t, from), Effective(t, to));
        assert Forward(t, from, to, 1.0) == Effective(t, to) / Effective(t, from);
        Some(Round(Effective(t, to) / Effective(t, from), 6))
  }

  lemma RatioIsUnitConversion(f: real, g: real)
    requires f != 0.0
    ensures g / f == 1.0 / f * g
  {
  }

  /** From USD the display agrees with the conversion of one dollar whenever the
      target has a nonzero rate, but shows "—" for an unknown target that the
      conversion itself treats at parity. */
  lemma RateDisplayFromUsd(t: Table, to: string)
    ensures to in t.rate && t.rate[to] != 0.0 ==>
              RateDisplay(Some(t), Base, to) == Some(Round(Forward(t, Base, to, 1.0), 6))
    ensures to !in t.rate ==>
              RateDisplay(Some(t), Base, to).None? && Forward(t, Base, to, 1.0) == 1.0
  {
  }

  /** The symbol table of `getCurrencySymbol`. */
  const Symbols: map<string, string> := map[
    "USD" := "$", "EUR" := "\U{20AC}", "GBP" := "\U{00A3}", "JPY" := "\U{00A5}",
    "CAD" := "C$", "AUD" := "A$", "CHF" := "Fr", "CNY" := "\U{00A5}",
    "HKD" := "HK$", "NZD" := "NZ$", "INR" := "\U{20B9}", "KRW" := "\U{20A9}",
    "MXN" := "$", "SGD" := "S$", "ZAR" := "R", "SEK" := "kr",
    "NOK" := "kr", "DKK" := "kr", "BRL" := "R$", "RUB" := "\U{20BD}",
    "PLN" := "z\U{0142}", "THB" := "\U{0E3F}", "IDR" := "Rp"
  ]

  /** `currencySymbols[code] || code`. */
  function CurrencySymbol(code: string): (s: string)
    ensures code in Symbols ==> s == Symbols[code]
    ensures code !in Symbols ==> s == code
    ensures code != "" ==> s != ""
  {
    if code in Symbols && Symbols[code] != "" then Symbols[code] else code
  }

  /** A field of the form: a number, or "" after the user cleared it. */
  datatype Field = Blank | Amount(value: real)

  /** The converter's state: the two selected currencies, the two fields, and
      the currency list offered by both selects. The rate table is a prop. */
  class Converter {
    const rates: Option<Table>
    var fromCurrency: string
    var toCurrency: string
    var amount: Field
    var convertedAmount: Field
    var availableCurrencies: seq<string>

    constructor (rates: Option<Table>)
      ensures this.rates == rates
      ensures fromCurrency == Base && toCurrency == "EUR"
      ensures amount == Amount(100.0) && convertedAmount == Amount(0.0)
      ensures availableCurrencies == []
    {
      this.rates := rates;
      fromCurrency, toCurrency := Base, "EUR";
      amount, convertedAmount := Amount(100.0), Amount(0.0);
      availableCurrencies := [];
    }

    /** The converted field matches the amount, as the conversion effect leaves it. */
    ghost predicate InSync()
      reads this
    {
      rates.Some? && amount.Amount? ==>
        convertedAmount == Amount(Converted(rates.value, fromCurrency, toCurrency, amount.value))
    }

    /** The effect on `rates`: fill the selects once a table is present. */
    method SyncCurrencies()
      modifies this`availableCurrencies
      ensures rates.Some? ==> availableCurrencies == UsdFirst(rates.value.keys)
      ensures rates.None? ==> availableCurrencies == old(availableCurrencies)
    {
      if rates.Some? {
        availableCurrencies := UsdFirst(rates.value.keys);
      }
    }

    /** The conversion effect: recompute the converted field from a numeric amount. */
    method SyncConverted()
      modifies this`convertedAmount
      ensures InSync()
      ensures !(rates.Some? && amount.Amount?) ==> convertedAmount == old(convertedAmount)
    {
      if rates.Some? && amount.Amount? {
        convertedAmount := Amount(Converted(rates.value, fromCurrency, toCurrency, amount.value));
      }
    }

    method HandleAmountChange(e: Entry)
      modifies this`amount
      ensures e.Empty? ==> amount == Blank
      ensures e.Parsed? ==> amount == Amount(e.value)
      ensures e.NotNumeric? ==> amount == old(amount)
    {
      match e
      case Empty => amount := Blank;
      case Parsed(v) => amount := Amount(v);
      case NotNumeric =>
    }

    method HandleConvertedAmountChange(e: Entry)
      modifies this`amount, this`convertedAmount
      ensures e.NotNumeric? ==> amount == old(amount) && convertedAmount == old(convertedAmount)
      ensures e.Empty? ==> convertedAmount == Blank && amount == old(amount)
      ensures e.Parsed? ==> convertedAmount == Amount(e.value)
      ensures e.Parsed? && rates.Some? ==>
                amount == Amount(Round(Reverse(rates.value, fromCurrency, toCurrency, e.value), 2))
      ensures e.Parsed? && rates.None? ==> amount == old(amount)
    {
      match e
      case Empty => convertedAmount := Blank;
      case Parsed(v) =>
        convertedAmount := Amount(v);
        if rates.Some? {
          amount := Amount(Round(Reverse(rates.value, fromCurrency, toCurrency, v), 2));
        }
      case NotNumeric =>
    }

    method SwapCurrencies()
      modifies this`fromCurrency, this`toCurrency
      ensures fromCurrency == old(toCurrency) && toCurrency == old(fromCurrency)
    {
      fromCurrency, toCurrency := toCurrency, fromCurrency;
    }

    /** The "from" select. */
    method SelectFrom(c: string)
      modifies this`fromCurrency
      ensures fromCurrency == c
    {
      fromCurrency := c;
    }

    /** The "to" select. */
    method SelectTo(c: string)
      modifies this`toCurrency
      ensures toCurrency == c
    {
      toCurrency := c;
    }
  }

  /** Swapping twice restores the pair and leaves both fields alone. */
  method SwapTwice(c: Converter)
    modifies c
    ensures c.fromCurrency == old(c.fromCurrency) && c.toCurrency == old(c.toCurrency)
    ensures c.amount == old(c.amount) && c.convertedAmount == old(c.convertedAmount)
  {
    c.SwapCurrencies();
    c.SwapCurrencies();
  }
}
