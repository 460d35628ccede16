/** The base-currency selector and "popular rates" panel
    (app/currency-v2/CurrencyRatesList.tsx). Unlike the converter it reads
    rates without any fallback, so a missing or zero rate surfaces as
    `undefined`, NaN or an infinity. */
module CurrencyRatesList {
  import opened Js
  import opened Rounding
  import opened RateTable
  import CurrencyConverter

  /** The currencies offered: USD alone without a table, else USD then the other keys. */
  function AvailableCurrencies(rates: Option<Table>): (r: seq<string>)
    ensures |r| >= 1 && r[0] == Base
    ensures forall i :: 1 <= i < |r| ==> r[i] != Base
    ensures rates.None? ==> r == [Base]
    ensures rates.Some? ==> forall c :: c in r <==> c == Base || c in rates.value.keys
    ensures rates.Some? ==> r[1..] == Without(rates.value.keys, Base)
  {
    match rates
    case None => [Base]
    case Some(t) => UsdFirst(t.keys)
  }

  /** `rates[c]` as JavaScript reads it. */
  function Lookup(t: Table, c: string): (n: Num)
    ensures c in t.rate ==> n == Finite(t.rate[c])
    ensures c !in t.rate ==> n == Undefined
  {
    if c in t.rate then Finite(t.rate[c]) else Undefined
  }

  /** `calculateRate`: the value of one unit of `base` in `c`; None for a null table. */
  function CalculateRate(rates: Option<Table>, base: string, c: string): (r: Option<Num>)
    ensures rates.None? <==> r.None?
    ensures rates.Some? && base == Base ==> r == Some(Lookup(rates.value, c))
    ensures rates.Some? && base != Base && c == Base ==> r == Some(Div(Finite(1.0), Lookup(rates.value, base)))
    ensures rates.Some? && base != Base && c != Base ==>
              r == Some(Div(Lookup(rates.value, c), Lookup(rates.value, base)))
  {
    match rates
    case None => None
    case Some(t) =>
      if base == Base then Some(Lookup(t, c))
      else if c == Base then Some(Div(Finite(1.0), Lookup(t, base)))
      else Some(Div(Lookup(t, c), Lookup(t, base)))
  }

  /** Where every rate involved is present and nonzero, the panel and the converter agree. */
  lemma CalculateRateMatchesConverter(t: Table, base: string, c: string)
    requires base != Base ==> base in t.rate && t.rate[base] != 0.0
    requires c != Base ==> c in t.rate && t.rate[c] != 0.0
    requires base != Base || c != Base
    ensures CalculateRate(Some(t), base, c) == Some(Finite(CurrencyConverter.Forward(t, base, c, 1.0)))
  {
    if base == Base {
      assert Lookup(t, c) == Finite(t.rate[c]);
    } else if c == Base {
      assert Lookup(t, base) == Finite(t.rate[base]);
    } else {
      CurrencyConverter.RatioIsUnitConversion(t.rate[base], t.rate[c]);
      assert CurrencyConverter.Forward(t, base, c, 1.0) == t.rate[c] / t.rate[base];
    }
  }

  /** No fallback here: a currency missing from the table has no rate at all,
      where the converter would have used 1. */
  lemma CalculateRateNoFallback(t: Table, base: string, c: string)
    requires c != Base && c !in t.rate
    ensures CalculateRate(Some(t), base, c) == Some(if base == Base then Undefined else NaN)
    ensures base == Base ==> CurrencyConverter.Forward(t, base, c, 1.0) == 1.0
  {
  }

  /** The text of a rate cell: a dash, a number to three decimals, or an infinity. */
  datatype Cell = Dash | Digits(value: real) | InfinityText(negative: bool)

  /** `rate ? rate.toFixed(3) : "—"`. */
  function RateCell(rate: Option<Num>): (c: Cell)
    ensures c == Dash <==> rate.None? || !Truthy(rate.value)
    ensures rate.Some? && rate.value.Finite? && rate.value.value != 0.0 ==>
              c == Digits(Round(rate.value.value, 3))
    ensures rate.Some? && rate.value.Infinity? ==> c == InfinityText(rate.value.negative)
  {
    match rate
    case None => Dash
    case Some(n) =>
      if !Truthy(n) then Dash
      else match n
        case Infinity(neg) => InfinityText(neg)
        case Finite(x) => Digits(Round(x, 3))
  }

  /** A zero rate for the panel's base shows "Infinity" against every other key with a nonzero rate. */
  lemma ZeroBaseRateShowsInfinity(t: Table, base: string, c: string)
    requires base != Base && base in t.rate && t.rate[base] == 0.0
    requires c != Base && c in t.rate && t.rate[c] > 0.0
    ensures RateCell(CalculateRate(Some(t), base, c)) == InfinityText(false)
  {
  }

  /** `.filter((curr) => curr !== baseCurrency).slice(0, 5)`. */
  function PopularPairs(available: seq<string>, base: string): (r: seq<string>)
    ensures |r| <= 5
    ensures base !in r
    ensures forall c :: c in r ==> c in available
    ensures |r| == if |Without(available, base)| < 5 then |Without(available, base)| else 5
    ensures r == Without(available, base)[..|r|]
  {
    var others := Without(available, base);
    assert forall i :: 0 <= i < |others| ==> others[i] in others;
    if |others| <= 5 then others else others[..5]
  }

  /** The listed pairs keep the order of the currency list: filtering a longer
      list only extends the list of pairs it starts from. */
  lemma PopularPairsPrefix(a: seq<string>, b: seq<string>, base: string)
    ensures |PopularPairs(a, base)| <= |PopularPairs(a + b, base)|
    ensures PopularPairs(a, base) == PopularPairs(a + b, base)[..|PopularPairs(a, base)|]
  {
    WithoutAppend(a, b, base);
  }

  datatype Trend = Up | Down | NoTrend

  const TrendUp: seq<string> := ["EUR", "JPY", "CAD", "AUD"]
  const TrendDown: seq<string> := ["GBP", "CHF", "HKD"]

  /** `getTrendIcon`: the static arrows of the panel. */
  function TrendIcon(c: string): (tr: Trend)
    ensures tr == Up <==> c in TrendUp
    ensures tr == Down <==> c in TrendDown
    ensures tr == NoTrend <==> c !in TrendUp && c !in TrendDown
  {
    if c in TrendUp then Up
    else if c in TrendDown then Down
    else NoTrend
  }

  /** No currency is listed as both rising and falling. */
  lemma TrendsDisjoint(c: string)
    ensures !(c in TrendUp && c in TrendDown)
  {
  }
}
