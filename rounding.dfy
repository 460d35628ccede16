/** Display rounding: `parseFloat(x.toFixed(places))` on an exact real.
    `toFixed` picks the nearest multiple of 10^-places and, on a tie, the
    one of larger magnitude (it formats -x and prefixes a sign). */
module Rounding {

  function Pow10(n: nat): (r: nat)
    ensures r >= 1
  {
    if n == 0 then 1 else 10 * Pow10(n - 1)
  }

  /** `x` measured in units of 10^-places. */
  function Scaled(x: real, places: nat): real
  {
    x * Pow10(places) as real
  }

  /** True when `x` is a whole multiple of 10^-places. */
  predicate OnGrid(x: real, places: nat)
  {
    Scaled(x, places).Floor as real == Scaled(x, places)
  }

  /** The nearest integer to `s`, ties away from zero: a tie rounds up only for
      a positive `s` and down only for a negative one. */
  function Nearest(s: real): (n: int)
    ensures s - 0.5 <= n as real <= s + 0.5
    ensures (s >= 0.0 ==> n >= 0) && (s <= 0.0 ==> n <= 0)
    ensures n as real - s == 0.5 ==> s > 0.0
    ensures n as real - s == -0.5 ==> s < 0.0
  {
    if s >= 0.0 then (s + 0.5).Floor else -((-s + 0.5).Floor)
  }

  function Round(x: real, places: nat): (r: real)
    ensures OnGrid(r, places)
    ensures -0.5 <= Scaled(r - x, places) <= 0.5
    ensures Scaled(r - x, places) == 0.5 ==> x > 0.0
    ensures Scaled(r - x, places) == -0.5 ==> x < 0.0
    ensures (x >= 0.0 ==> r >= 0.0) && (x <= 0.0 ==> r <= 0.0)
  {
    Rescale(Nearest(Scaled(x, places)), x, places);
    Nearest(Scaled(x, places)) as real / Pow10(places) as real
  }

  /** Arithmetic behind Round's contract, kept apart from its definition. */
  lemma Rescale(n: int, x: real, places: nat)
    requires Scaled(x, places) - 0.5 <= n as real <= Scaled(x, places) + 0.5
    requires (Scaled(x, places) >= 0.0 ==> n >= 0) && (Scaled(x, places) <= 0.0 ==> n <= 0)
    ensures Scaled(n as real / Pow10(places) as real, places) == n as real
    ensures OnGrid(n as real / Pow10(places) as real, places)
    ensures -0.5 <= Scaled(n as real / Pow10(places) as real - x, places) <= 0.5
    ensures Scaled(n as real / Pow10(places) as real - x, places) == n as real - Scaled(x, places)
    ensures (x >= 0.0 ==> n >= 0) && (x <= 0.0 ==> n <= 0)
  {
    var k := Pow10(places) as real;
    ScaleBack(n as real, x, k);
    assert (n as real).Floor == n;
    SignOfScaled(x, places);
  }

  lemma ScaleBack(m: real, x: real, k: real)
    requires k >= 1.0
    ensures (m / k) * k == m
    ensures (m / k - x) * k == m - x * k
  {
  }

  lemma SignOfScaled(x: real, places: nat)
    ensures (x >= 0.0 <==> Scaled(x, places) >= 0.0) && (x <= 0.0 <==> Scaled(x, places) <= 0.0)
  {
  }

  /** A value already on the grid is left alone. */
  lemma RoundOnGrid(x: real, places: nat)
    requires OnGrid(x, places)
    ensures Round(x, places) == x
  {
    var n := Scaled(x, places).Floor;
    assert n as real == Scaled(x, places);
    if Scaled(x, places) >= 0.0 {
      assert (Scaled(x, places) + 0.5).Floor == n;
    } else {
      assert (-Scaled(x, places) + 0.5).Floor == -n;
    }
    assert Nearest(Scaled(x, places)) == n;
    var k := Pow10(places) as real;
    assert (x * k) / k == x;
  }

  /** Rounding twice at the same precision is rounding once: a value shown
      at `places` decimals and read back shows the same again. */
  lemma RoundIdempotent(x: real, places: nat)
    ensures Round(Round(x, places), places) == Round(x, places)
  {
    RoundOnGrid(Round(x, places), places);
  }

  /** Rounding commutes with negation (ties go away from zero on both sides). */
  lemma RoundOdd(x: real, places: nat)
    ensures Round(-x, places) == -Round(x, places)
  {
    var k := Pow10(places) as real;
    assert Scaled(-x, places) == -Scaled(x, places);
    var n := Nearest(Scaled(x, places));
    assert Nearest(-Scaled(x, places)) == -n;
    assert (-n) as real / k == -(n as real / k);
  }
}
