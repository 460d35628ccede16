/** The stopwatch (app/routes/stopwatch.tsx): elapsed milliseconds shown as
    mm:ss:cc, a start/stop toggle, a reset, the interval ticks as explicit
    steps, and the background colour that follows the running state. */
module Stopwatch {

  /** JavaScript's `%` on numbers keeps the sign of the dividend: the quotient
      is truncated toward zero. */
  function Trunc(y: real): (k: int)
    ensures y >= 0.0 ==> k == y.Floor
    ensures y < 0.0 ==> k == -((-y).Floor)
  {
    if y >= 0.0 then y.Floor else -((-y).Floor)
  }

  function JsRem(x: real, m: real): real
    requires m != 0.0
  {
    x - m * Trunc(x / m) as real
  }

  /** `Math.floor((time / unit) % modulus)`, computed on numbers as the page does;
      it always lies in [0, modulus). */
  function Field(time: nat, unit: nat, modulus: nat): (r: int)
    requires unit > 0 && modulus > 0
    ensures 0 <= r < modulus
  {
    FieldIsDigitGroup(time, unit, modulus);
    JsRem(time as real / unit as real, modulus as real).Floor
  }

  lemma DivSplit(n: int, r: int, d: int)
    requires d > 0
    ensures ((n * d + r) as real) / (d as real) == n as real + r as real / d as real
  {
    assert (n * d + r) as real == n as real * d as real + r as real;
  }

  lemma FracBounds(r: int, d: int)
    requires d > 0 && 0 <= r < d
    ensures 0.0 <= r as real / d as real < 1.0
  {
  }

  lemma FloorOffset(k: int, f: real)
    requires 0.0 <= f < 1.0
    ensures (k as real + f).Floor == k
  {
  }

  lemma QuotientSplit(a: int, b: int, f: real, m: int)
    requires m > 0
    ensures ((a * m + b) as real + f) / m as real == a as real + (b as real + f) / m as real
  {
    assert ((a * m + b) as real + f) == a as real * m as real + (b as real + f);
  }

  lemma SmallQuotient(x: real, m: int)
    requires m > 0 && 0.0 <= x < m as real
    ensures 0.0 <= x / m as real < 1.0
  {
  }

  /** `time / unit` on numbers is the integer quotient plus a fraction below one. */
  lemma QuotientParts(time: nat, unit: nat)
    requires unit > 0
    ensures time as real / unit as real == (time / unit) as real + (time % unit) as real / unit as real
    ensures 0.0 <= (time % unit) as real / unit as real < 1.0
  {
    DivSplit(time / unit, time % unit, unit);
    FracBounds(time % unit, unit);
  }

  /** The JavaScript remainder of a non-negative integer plus a fraction. */
  lemma RemOfFraction(n: nat, frac: real, modulus: nat)
    requires modulus > 0 && 0.0 <= frac < 1.0
    ensures JsRem(n as real + frac, modulus as real) == (n % modulus) as real + frac
  {
    var a, b := n / modulus, n % modulus;
    assert n as real + frac == (a * modulus + b) as real + frac;
    QuotientSplit(a, b, frac, modulus);
    SmallQuotient(b as real + frac, modulus);
    FloorOffset(a, (b as real + frac) / modulus as real);
    assert Trunc((n as real + frac) / modulus as real) == a;
  }

  /** The number arithmetic of the display is the integer one: the field is the
      quotient by `unit`, reduced modulo `modulus`. */
  lemma FieldIsDigitGroup(time: nat, unit: nat, modulus: nat)
    requires unit > 0 && modulus > 0
    ensures JsRem(time as real / unit as real, modulus as real).Floor == (time / unit) % modulus
  {
    var frac := (time % unit) as real / unit as real;
    QuotientParts(time, unit);
    RemOfFraction(time / unit, frac, modulus);
    FloorOffset((time / unit) % modulus, frac);
  }

  /** The minutes field of the display. */
  function Minutes(time: nat): (r: int)
    ensures 0 <= r < 60
  {
    Field(time, 60000, 60)
  }

  /** The seconds field of the display. */
  function Seconds(time: nat): (r: int)
    ensures 0 <= r < 60
  {
    Field(time, 1000, 60)
  }

  /** The hundredths field of the display. */
  function Centiseconds(time: nat): (r: int)
    ensures 0 <= r < 100
  {
    Field(time, 10, 100)
  }

  /** The three fields in integer terms. */
  lemma FieldsInRange(time: nat)
    ensures Minutes(time) == (time / 60000) % 60
    ensures Seconds(time) == (time / 1000) % 60
    ensures Centiseconds(time) == (time / 10) % 100
  {
    FieldIsDigitGroup(time, 60000, 60);
    FieldIsDigitGroup(time, 1000, 60);
    FieldIsDigitGroup(time, 10, 100);
  }

  function Digit(d: nat): (c: char)
    requires d < 10
    ensures '0' <= c <= '9'
  {
    (48 + d) as char
  }

  /** `String(n)` for a non-negative integer: its decimal digits, no leading zero. */
  function DecimalString(n: nat): (s: string)
    ensures |s| >= 1 && (|s| == 1 <==> n < 10)
    ensures 10 <= n < 100 ==> |s| == 2
    ensures forall i :: 0 <= i < |s| ==> '0' <= s[i] <= '9'
    ensures |s| > 1 ==> s[0] != '0'
  {
    if n < 10 then [Digit(n)] else DecimalString(n / 10) + [Digit(n % 10)]
  }

  /** `s.slice(-k)`: the last `k` characters, or all of a shorter string. */
  function SliceLast(s: string, k: nat): (r: string)
    ensures |r| == if |s| < k then |s| else k
    ensures r == s[|s| - |r|..]
  {
    if |s| < k then s else s[|s| - k..]
  }

  /** `("0" + n).slice(-2)`. */
  function Pad2(n: nat): (r: string)
    ensures n < 100 ==> |r| == 2
  {
    SliceLast("0" + DecimalString(n), 2)
  }

  /** Every field shows as two digits, led by "0" exactly for the values below ten. */
  lemma Pad2Digits(n: nat)
    requires n < 100
    ensures |Pad2(n)| == 2
    ensures Pad2(n) == [Digit(n / 10), Digit(n % 10)]
    ensures Pad2(n)[0] == '0' <==> n < 10
  {
    if n >= 10 {
      assert DecimalString(n / 10) == [Digit(n / 10)];
    }
  }

  /** The mm:ss:cc text. */
  function TimeDisplay(time: nat): (s: string)
    ensures |s| == 8 && s[2] == ':' && s[5] == ':'
  {
    var mm, ss, cc := Pad2(Minutes(time)), Pad2(Seconds(time)), Pad2(Centiseconds(time));
    ColonsAt(mm, ss, cc);
    mm + ":" + ss + ":" + cc
  }

  lemma ColonsAt(a: string, b: string, c: string)
    requires |a| == 2 && |b| == 2 && |c| == 2
    ensures |a + ":" + b + ":" + c| == 8
    ensures (a + ":" + b + ":" + c)[2] == ':' && (a + ":" + b + ":" + c)[5] == ':'
  {
  }

  /** The display spells the time: two digits each of the minutes within the
      hour, the seconds within the minute and the hundredths of the second. */
  lemma TimeDisplayDigits(time: nat)
    ensures var m, sec, c := (time / 60000) % 60, (time / 1000) % 60, (time / 10) % 100;
            TimeDisplay(time) == [Digit(m / 10), Digit(m % 10), ':',
                                  Digit(sec / 10), Digit(sec % 10), ':',
                                  Digit(c / 10), Digit(c % 10)]
  {
    FieldsInRange(time);
    ThreeFields(Minutes(time), Seconds(time), Centiseconds(time));
  }

  lemma ThreeFields(a: nat, b: nat, c: nat)
    requires a < 100 && b < 100 && c < 100
    ensures Pad2(a) + ":" + Pad2(b) + ":" + Pad2(c)
            == [Digit(a / 10), Digit(a % 10), ':', Digit(b / 10), Digit(b % 10), ':',
                Digit(c / 10), Digit(c % 10)]
  {
    Pad2Digits(a);
    Pad2Digits(b);
    Pad2Digits(c);
  }

  /** The display has no hours: it repeats every hour. */
  lemma TimeDisplayHourly(time: nat)
    ensures TimeDisplay(time + 3600000) == TimeDisplay(time)
  {
    FieldsHourly(time);
  }

  lemma FieldsHourly(time: nat)
    ensures Minutes(time + 3600000) == Minutes(time)
    ensures Seconds(time + 3600000) == Seconds(time)
    ensures Centiseconds(time + 3600000) == Centiseconds(time)
  {
    FieldsInRange(time);
    FieldsInRange(time + 3600000);
    IntegerFieldsHourly(time);
  }

  lemma IntegerFieldsHourly(time: nat)
    ensures ((time + 3600000) / 60000) % 60 == (time / 60000) % 60
    ensures ((time + 3600000) / 1000) % 60 == (time / 1000) % 60
    ensures ((time + 3600000) / 10) % 100 == (time / 10) % 100
  {
    ShiftQuotient(time, 60000, 60);
    ShiftQuotient(time, 1000, 3600);
    ShiftQuotient(time, 10, 360000);
    ModShift(time / 60000, 1, 60);
    ModShift(time / 1000, 60, 60);
    ModShift(time / 10, 3600, 100);
  }

  /** Adding whole units adds to the quotient. */
  lemma ShiftQuotient(time: nat, unit: nat, k: nat)
    requires unit > 0
    ensures (time + k * unit) / unit == time / unit + k
  {
    DivUnique(time + k * unit, unit, time / unit + k, time % unit);
  }

  /** Adding whole moduli leaves the remainder. */
  lemma ModShift(n: nat, j: nat, m: nat)
    requires m > 0
    ensures (n + j * m) % m == n % m
  {
    DivUnique(n + j * m, m, n / m + j, n % m);
  }

  /** Euclidean division has one quotient and one remainder. */
  lemma DivUnique(n: int, m: int, q: int, r: int)
    requires m > 0 && 0 <= r < m && n == q * m + r
    ensures n / m == q && n % m == r
  {
    var q', r' := n / m, n % m;
    assert (q' - q) * m == r - r';
    SmallMultiple(q' - q, m);
  }

  /** The only multiple of `m` strictly between `-m` and `m` is zero. */
  lemma SmallMultiple(d: int, m: int)
    requires m > 0 && -m < d * m < m
    ensures d == 0
  {
    MultipleBounds(d, m);
  }

  /** A nonzero multiple of `m` is at least `m` away from zero. */
  lemma MultipleBounds(d: int, m: int)
    requires m > 0
    ensures d > 0 ==> d * m >= m
    ensures d < 0 ==> d * m <= -m
  {
    if d > 0 {
      PositiveMultiple(d, m);
    } else if d < 0 {
      PositiveMultiple(-d, m);
      assert d * m == -((-d) * m);
    }
  }

  lemma {:induction false} PositiveMultiple(d: int, m: int)
    requires d >= 1 && m > 0
    ensures d * m >= m
    decreases d
  {
    if d > 1 {
      PositiveMultiple(d - 1, m);
      assert d * m == (d - 1) * m + m;
    }
  }

  datatype Color = White | Green | Red

  /** The page's state: elapsed milliseconds, the running flag and the colour. */
  class Watch {
    var time: nat
    var isRunning: bool
    var backgroundColor: Color

    constructor ()
      ensures time == 0 && !isRunning && backgroundColor == White
    {
      time, isRunning, backgroundColor := 0, false, White;
    }

    /** The START/STOP button. */
    method HandleStartStop()
      modifies this`isRunning
      ensures isRunning == !old(isRunning)
    {
      isRunning := !isRunning;
    }

    /** The RESET button, from any state. */
    method HandleReset()
      modifies this`isRunning, this`time, this`backgroundColor
      ensures !isRunning && time == 0 && backgroundColor == White
    {
      isRunning := false;
      time := 0;
      backgroundColor := White;
    }

    /** The 10 ms interval, which exists only while running. */
    method FastTick()
      requires isRunning
      modifies this`time
      ensures time == old(time) + 10
    {
      time := time + 10;
    }

    /** The 1 s interval of the colour effect, which also exists only while running. */
    method SlowTick()
      requires isRunning
      modifies this`time
      ensures time == old(time) + 1
    {
      time := time + 1;
    }

    /** The colour part of the effect on `[isRunning, time]`. */
    method SyncColor()
      modifies this`backgroundColor
      ensures isRunning ==> backgroundColor == Green
      ensures !isRunning && time != 0 ==> backgroundColor == Red
      ensures !isRunning && time == 0 ==> backgroundColor == old(backgroundColor)
    {
      if isRunning {
        backgroundColor := Green;
      } else if time != 0 {
        backgroundColor := Red;
      }
    }
  }

  /** Pressing START/STOP twice restores the running state and touches nothing else. */
  method StartStopTwice(w: Watch)
    modifies w
    ensures w.isRunning == old(w.isRunning)
    ensures w.time == old(w.time) && w.backgroundColor == old(w.backgroundColor)
  {
    w.HandleStartStop();
    w.HandleStartStop();
  }

  /** A reset followed by its effect leaves the page white: the effect keeps the
      colour of a stopped watch at zero. */
  method ResetThenSync(w: Watch)
    modifies w
    ensures !w.isRunning && w.time == 0 && w.backgroundColor == White
  {
    w.HandleReset();
    w.SyncColor();
  }

  /** Ticks only add time: any run of ticks while running ends at or above where
      it began, by 10 per fast tick and 1 per slow tick. */
  method RunTicks(w: Watch, fast: seq<bool>)
    requires w.isRunning
    modifies w
    ensures w.isRunning
    ensures w.time >= old(w.time) + |fast|
    ensures w.time <= old(w.time) + 10 * |fast|
  {
    var k := 0;
    while k < |fast|
      invariant 0 <= k <= |fast|
      invariant w.isRunning
      invariant old(w.time) + k <= w.time <= old(w.time) + 10 * k
    {
      if fast[k] {
        w.FastTick();
      } else {
        w.SlowTick();
      }
      k := k + 1;
    }
  }
}
