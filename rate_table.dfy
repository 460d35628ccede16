/** The rate object both currency widgets receive: units of each currency
    per one US dollar, keyed by currency code, with the key order that
    `Object.keys` reports. */
module RateTable {

  /** The anchor currency of every rate table. */
  const Base: string := "USD"

  /** `keys` is `Object.keys(rates)`, `rate` the lookup `rates[c]`. */
  datatype Table = Table(keys: seq<string>, rate: map<string, real>)
  {
    /** The key list of a real rate object: each key once, exactly the map's keys. */
    ghost predicate Valid()
    {
      && (forall i, j :: 0 <= i < j < |keys| ==> keys[i] != keys[j])
      && (forall c :: c in rate <==> c in keys)
    }
  }

  /** `rates[c] || 1`: the rate of `c`, or 1 when `c` is missing or its rate is 0. */
  function Effective(t: Table, c: string): (r: real)
    ensures r != 0.0
    ensures c in t.rate && t.rate[c] != 0.0 ==> r == t.rate[c]
    ensures c !in t.rate || t.rate[c] == 0.0 ==> r == 1.0
  {
    if c in t.rate && t.rate[c] != 0.0 then t.rate[c] else 1.0
  }

  /** `s.filter((y) => y !== x)`. */
  function Without(s: seq<string>, x: string): (r: seq<string>)
    ensures |r| <= |s|
    ensures forall y :: y in r <==> y in s && y != x
  {
    if s == [] then []
    else if s[0] == x then Without(s[1..], x)
    else [s[0]] + Without(s[1..], x)
  }

  /** Filtering distributes over concatenation, so it keeps the order of what it keeps. */
  lemma {:induction false} WithoutAppend(a: seq<string>, b: seq<string>, x: string)
    ensures Without(a + b, x) == Without(a, x) + Without(b, x)
  {
    if a == [] {
      assert a + b == b;
    } else {
      assert (a + b)[1..] == a[1..] + b;
      WithoutAppend(a[1..], b, x);
    }
  }

  /** Filtering out a value that does not occur changes nothing. */
  lemma {:induction false} WithoutAbsent(s: seq<string>, x: string)
    requires x !in s
    ensures Without(s, x) == s
  {
    if s != [] {
      WithoutAbsent(s[1..], x);
    }
  }

  /** Filtering out a value that occurs once removes exactly one element. */
  lemma {:induction false} WithoutOnce(s: seq<string>, x: string)
    requires forall i, j :: 0 <= i < j < |s| ==> s[i] != s[j]
    requires x in s
    ensures |Without(s, x)| == |s| - 1
  {
    if s[0] == x {
      WithoutAbsent(s[1..], x);
    } else {
      WithoutOnce(s[1..], x);
    }
  }

  /** `["USD", ...keys.filter((c) => c !== "USD")]`, the currency list offered in the selects. */
  function UsdFirst(keys: seq<string>): (r: seq<string>)
    ensures |r| >= 1 && r[0] == Base
    ensures forall i :: 1 <= i < |r| ==> r[i] != Base
    ensures forall c :: c in r <==> c == Base || c in keys
  {
    var rest := Without(keys, Base);
    assert forall i :: 0 <= i < |rest| ==> rest[i] in rest;
    [Base] + rest
  }

  /** For a real rate object the list has one entry per key, plus USD when USD is not a key. */
  lemma UsdFirstLength(t: Table)
    requires t.Valid()
    ensures |UsdFirst(t.keys)| == if Base in t.rate then |t.keys| else |t.keys| + 1
  {
    if Base in t.rate {
      WithoutOnce(t.keys, Base);
    } else {
      WithoutAbsent(t.keys, Base);
    }
  }
}
