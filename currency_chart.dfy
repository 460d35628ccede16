/** The mock 30-day history chart (app/currency-v2/CurrencyChart.tsx): a
    volatility class for the pair, a base rate from a small fixed table,
    and a 31-point random walk. The random numbers are parameters here. */
module CurrencyChart {
  import opened Rounding

  const MajorPairs: seq<string> :=
    ["EURUSD", "USDJPY", "GBPUSD", "USDCHF", "AUDUSD", "USDCAD", "NZDUSD"]

  /** `getVolatility`: how far the mock series may swing for a pair. */
  function Volatility(from: string, to: string): (v: real)
    ensures from == to ==> v == 0.001
    ensures from != to && (from + to in MajorPairs || to + from in MajorPairs) ==> v == 0.02
    ensures from != to && from + to !in MajorPairs && to + from !in MajorPairs ==>
              v == if from == "USD" || to == "USD" || from == "EUR" || to == "EUR" then 0.03 else 0.05
  {
    var pair := from + to;
    var inversePair := to + from;
    if from == to then 0.001
    else if pair in MajorPairs || inversePair in MajorPairs then 0.02
    else if from == "USD" || to == "USD" || from == "EUR" || to == "EUR" then 0.03
    else 0.05
  }

  /** The class of a pair does not depend on its direction. */
  lemma VolatilitySymmetric(a: string, b: string)
    ensures Volatility(a, b) == Volatility(b, a)
  {
  }

  /** Gluing two codes of the same length is injective. */
  lemma {:induction false} GlueSplit(a: string, b: string, x: string, y: string)
    requires |a| == |x|
    ensures a + b == x + y <==> a == x && b == y
  {
    if a + b == x + y {
      assert a == (a + b)[..|a|] == (x + y)[..|x|] == x;
      assert b == (a + b)[|a|..] == (x + y)[|x|..] == y;
    }
  }

  /** The major pairs as pairs of three-letter codes. */
  const MajorCodes: seq<(string, string)> :=
    [("EUR", "USD"), ("USD", "JPY"), ("GBP", "USD"), ("USD", "CHF"),
     ("AUD", "USD"), ("USD", "CAD"), ("NZD", "USD")]

  /** For three-letter codes, the glued-string test is exactly a lookup of the pair. */
  lemma MajorPairOfCodes(a: string, b: string)
    requires |a| == 3
    ensures a + b in MajorPairs <==> (a, b) in MajorCodes
  {
    forall k | 0 <= k < |MajorCodes|
      ensures a + b == MajorPairs[k] <==> (a, b) == MajorCodes[k]
    {
      assert MajorPairs[k] == MajorCodes[k].0 + MajorCodes[k].1;
      GlueSplit(a, b, MajorCodes[k].0, MajorCodes[k].1);
    }
    assert |MajorPairs| == |MajorCodes|;
    if a + b in MajorPairs {
      var k :| 0 <= k < |MajorPairs| && MajorPairs[k] == a + b;
      assert (a, b) == MajorCodes[k];
    }
    if (a, b) in MajorCodes {
      var k :| 0 <= k < |MajorCodes| && MajorCodes[k] == (a, b);
      assert a + b == MajorPairs[k];
    }
  }

  /** The predefined rates: units of the inner currency per unit of the outer one. */
  const BaseRates: map<string, map<string, real>> := map[
    "USD" := map["EUR" := 0.92, "GBP" := 0.78, "JPY" := 148.5, "CAD" := 1.35, "AUD" := 1.52,
                 "CHF" := 0.89, "CNY" := 7.23, "HKD" := 7.82, "NZD" := 1.65],
    "EUR" := map["USD" := 1.09, "GBP" := 0.85, "JPY" := 161.5, "CAD" := 1.47, "AUD" := 1.65,
                 "CHF" := 0.97, "CNY" := 7.87, "HKD" := 8.51, "NZD" := 1.79],
    "GBP" := map["USD" := 1.28, "EUR" := 1.18, "JPY" := 190.5, "CAD" := 1.73, "AUD" := 1.94,
                 "CHF" := 1.14, "CNY" := 9.27, "HKD" := 10.01, "NZD" := 2.11]
  ]

  /** `baseRates[a] && baseRates[a][b]`: the table has a (truthy) entry from a to b. */
  predicate Listed(t: map<string, map<string, real>>, a: string, b: string)
  {
    a in t && b in t[a] && t[a][b] != 0.0
  }

  /** Every entry of a table is a positive rate. */
  predicate PositiveRates(t: map<string, map<string, real>>)
  {
    forall a, b :: a in t && b in t[a] ==> t[a][b] > 0.0
  }

  /** The predefined table holds positive rates only. */
  lemma BaseRatesPositive()
    ensures PositiveRates(BaseRates)
  {
  }

  /** The lookup of `getBaseRate` over a table `t` of positive rates: the direct
      entry, else the reciprocal of the reverse entry, else parity for the same
      currency and 1.25 otherwise. */
  function RateFrom(t: map<string, map<string, real>>, from: string, to: string): (r: real)
    requires PositiveRates(t)
    ensures r > 0.0
    ensures Listed(t, from, to) ==> r == t[from][to]
    ensures !Listed(t, from, to) && Listed(t, to, from) ==> r * t[to][from] == 1.0
    ensures !Listed(t, from, to) && !Listed(t, to, from) ==> r == if from == to then 1.0 else 1.25
  {
    if Listed(t, from, to) then t[from][to]
    else if Listed(t, to, from) then 1.0 / t[to][from]
    else if from == to then 1.0
    else 1.25
  }

  /** The starting rate of the walk, looked up in the predefined table. */
  function BaseRate(from: string, to: string): (r: real)
    ensures r > 0.0
    ensures r == RateFrom(BaseRates, from, to)
  {
    BaseRatesPositive();
    RateFrom(BaseRates, from, to)
  }

  /** A pair listed in one direction only gets reciprocal rates both ways. */
  lemma RateFromReciprocal(t: map<string, map<string, real>>, a: string, b: string)
    requires PositiveRates(t)
    requires Listed(t, a, b) && !Listed(t, b, a)
    ensures RateFrom(t, a, b) * RateFrom(t, b, a) == 1.0
  {
    var x, y := RateFrom(t, a, b), RateFrom(t, b, a);
    ProductWithReciprocal(x, y, t[a][b]);
  }

  lemma ProductWithReciprocal(x: real, y: real, z: real)
    requires x == z && y * z == 1.0
    ensures x * y == 1.0
  {
  }

  /** The table itself is not reciprocal where it lists both directions. */
  lemma BaseRatesNotReciprocal()
    ensures BaseRate("USD", "EUR") * BaseRate("EUR", "USD") != 1.0
  {
    assert Listed(BaseRates, "USD", "EUR") && Listed(BaseRates, "EUR", "USD");
  }

  /** Decimal places of a JPY-target chart versus every other one; the same rule
      rounds the data points, the tooltip and the y-axis ticks. */
  function Precision(to: string): (p: nat)
    ensures p == 2 <==> to == "JPY"
    ensures p == 4 <==> to != "JPY"
  {
    if to == "JPY" then 2 else 4
  }

  /** What the tooltip and the y-axis tick show for a value: the nearest point of
      the pair's precision grid, with the value's sign. */
  function Shown(value: real, to: string): (r: real)
    ensures OnGrid(r, Precision(to))
    ensures -0.5 <= Scaled(r - value, Precision(to)) <= 0.5
    ensures Scaled(r - value, Precision(to)) == 0.5 ==> value > 0.0
    ensures Scaled(r - value, Precision(to)) == -0.5 ==> value < 0.0
    ensures (value >= 0.0 ==> r >= 0.0) && (value <= 0.0 ==> r <= 0.0)
  {
    Round(value, Precision(to))
  }

  /** The two `Math.random()` results one iteration consumes. */
  datatype Draw = Draw(variation: real, walk: real)

  predicate UnitInterval(x: real)
  {
    0.0 <= x < 1.0
  }

  /** `baseRate * (1 + randomVariation)` with `randomVariation = (u - 0.5) * volatility`. */
  function Jittered(rate: real, volatility: real, u: real): real
  {
    rate * (1.0 + (u - 0.5) * volatility)
  }

  /** One data point: the rate jittered by the volatility, at the pair's precision. */
  function Point(rate: real, volatility: real, precision: nat, d: Draw): real
  {
    Round(Jittered(rate, volatility, d.variation), precision)
  }

  /** One step of the centred random walk of the base rate. */
  function Step(rate: real, d: Draw): real
  {
    rate + (d.walk - 0.5) * 0.005 * rate
  }

  /** The series the loop emits, one point per draw, oldest first. */
  function Points(rate: real, volatility: real, precision: nat, draws: seq<Draw>): (ps: seq<real>)
    ensures |ps| == |draws|
    decreases |draws|
  {
    if draws == [] then []
    else [Point(rate, volatility, precision, draws[0])] + Points(Step(rate, draws[0]), volatility, precision, draws[1..])
  }

  /** The generation loop of `fetchHistoricalRates`: 31 days, `i = 30` down to 0,
      each pushing a label (the day offset; the date text is not modelled) and a point. */
  method FetchHistoricalRates(from: string, to: string, draws: seq<Draw>)
    returns (labels: seq<int>, data: seq<real>)
    requires |draws| == 31
    ensures |labels| == 31 && |data| == 31
    ensures forall k :: 0 <= k < 31 ==> labels[k] == 30 - k
    ensures data == Points(BaseRate(from, to), Volatility(from, to), Precision(to), draws)
  {
    labels, data := [], [];
    var baseRate := BaseRate(from, to);
    ghost var start, vol, prec := baseRate, Volatility(from, to), Precision(to);
    var i := 30;
    while i >= 0
      invariant -1 <= i <= 30
      invariant |labels| == |data| == 30 - i
      invariant forall k :: 0 <= k < |labels| ==> labels[k] == 30 - k
      invariant data + Points(baseRate, vol, prec, draws[30 - i..]) == Points(start, vol, prec, draws)
    {
      labels := labels + [i];
      var volatility := Volatility(from, to);
      var d := draws[30 - i];
      var rate := Jittered(baseRate, volatility, d.variation);
      var precision := Precision(to);
      ghost var rest := draws[30 - i..];
      assert rest[0] == d && rest[1..] == draws[30 - i + 1..];
      WalkStep(data, baseRate, vol, prec, rest, Points(start, vol, prec, draws));
      assert Round(rate, precision) == Point(baseRate, vol, prec, d);
      data := data + [Round(rate, precision)];
      baseRate := Step(baseRate, d);
      i := i - 1;
    }
    assert draws[31..] == [];
  }

  /** One iteration of the walk keeps "points so far, then the rest of the walk"
      equal to the whole walk. */
  lemma WalkStep(data: seq<real>, rate: real, volatility: real, precision: nat,
                 rest: seq<Draw>, total: seq<real>)
    requires rest != []
    requires data + Points(rate, volatility, precision, rest) == total
    ensures (data + [Point(rate, volatility, precision, rest[0])])
            + Points(Step(rate, rest[0]), volatility, precision, rest[1..]) == total
  {
    PointsUnfold(rate, volatility, precision, rest);
  }

  lemma PointsUnfold(rate: real, volatility: real, precision: nat, draws: seq<Draw>)
    requires draws != []
    ensures Points(rate, volatility, precision, draws)
            == [Point(rate, volatility, precision, draws[0])] + Points(Step(rate, draws[0]), volatility, precision, draws[1..])
  {
  }

  lemma Jitter(u: real, spread: real)
    requires UnitInterval(u) && 0.0 <= spread < 2.0
    ensures 1.0 + (u - 0.5) * spread > 0.0
  {
    if u < 0.5 {
      assert (0.5 - u) * spread <= 0.5 * spread;
    }
  }

  lemma PositiveFactor(rate: real, x: real)
    requires rate > 0.0 && x > 0.0
    ensures rate * x > 0.0
  {
  }

  /** With draws from [0, 1) and a positive start the walk stays positive and
      no point is negative. */
  lemma {:induction false} PointsNonNegative(rate: real, volatility: real, precision: nat, draws: seq<Draw>)
    requires rate > 0.0 && 0.0 <= volatility < 2.0
    requires forall k :: 0 <= k < |draws| ==> UnitInterval(draws[k].variation) && UnitInterval(draws[k].walk)
    ensures forall k :: 0 <= k < |draws| ==> Points(rate, volatility, precision, draws)[k] >= 0.0
    decreases |draws|
  {
    if draws != [] {
      var d := draws[0];
      Jitter(d.variation, volatility);
      Jitter(d.walk, 0.005);
      PositiveFactor(rate, 1.0 + (d.variation - 0.5) * volatility);
      PositiveFactor(rate, 1.0 + (d.walk - 0.5) * 0.005);
      assert Step(rate, d) == rate * (1.0 + (d.walk - 0.5) * 0.005);
      PointsNonNegative(Step(rate, d), volatility, precision, draws[1..]);
      var ps := Points(rate, volatility, precision, draws);
      forall k | 0 <= k < |draws| ensures ps[k] >= 0.0 {
        if k > 0 {
          assert ps[k] == Points(Step(rate, d), volatility, precision, draws[1..])[k - 1];
        }
      }
    }
  }

  /** The series of any pair, drawn from [0, 1), has no negative point. */
  lemma HistoryNonNegative(from: string, to: string, draws: seq<Draw>)
    requires forall k :: 0 <= k < |draws| ==> UnitInterval(draws[k].variation) && UnitInterval(draws[k].walk)
    ensures forall k :: 0 <= k < |draws| ==>
              Points(BaseRate(from, to), Volatility(from, to), Precision(to), draws)[k] >= 0.0
  {
    PointsNonNegative(BaseRate(from, to), Volatility(from, to), Precision(to), draws);
  }

  /** The tooltip and axis show a generated point exactly as stored. */
  lemma ShownPointUnchanged(rate: real, to: string, d: Draw, volatility: real)
    ensures Shown(Point(rate, volatility, Precision(to), d), to) == Point(rate, volatility, Precision(to), d)
  {
    RoundIdempotent(Jittered(rate, volatility, d.variation), Precision(to));
  }
}
