/**
 Conversion between currencies through the base currency: exact until a single
 rounding to the decimals of the target.
 */
module Currency {
  import opened Wrappers
  import opened Rounding

  /** Decimals per ISO code; a code that is not listed counts as EUR. */
  const DECIMALS: map<string, nat> := map[
    "EUR" := 2, "USD" := 2, "CAD" := 2, "GBP" := 2, "DKK" := 2, "SEK" := 2, "MYR" := 2, "AUD" := 2,
    "IDR" := 0, "NZD" := 2, "SGD" := 2, "JPY" := 0, "KRW" := 0, "LKR" := 2, "ZAR" := 2, "SAR" := 2]

  /** Three currencies have no decimals, every other one has two, and so has a code that is not listed. */
  function Decimals(code: string): (d: nat)
    ensures d == if code == "IDR" || code == "JPY" || code == "KRW" then 0 else 2
  {
    if code in DECIMALS then DECIMALS[code] else 2
  }

  /** The value of n units of a currency with d decimals. */
  function Units(n: int, d: nat): (x: real) {
    if d == 0 then n as real else n as real / 100.0
  }

  function HalfUnit(d: nat): (x: real)
    ensures x > 0.0
  {
    if d == 0 then 0.5 else 0.005
  }

  function RoundTo(x: real, d: nat): (r: real) {
    Units(RoundHalfAway(if d == 0 then x else x * 100.0), d)
  }

  function UpperChar(c: char): (u: char) {
    if 'a' <= c <= 'z' then c - 'a' + 'A' else c
  }

  /** toUpperCase on ASCII letters. */
  function Upper(s: string): (u: string) {
    if s == "" then "" else [UpperChar(s[0])] + Upper(s[1..])
  }

  /** The rates of the table; None stands for one that is null or not a number. */
  type Rates = map<string, Option<real>>

  /** The rate of a code, or the code whose rate is missing. */
  function GetRate(code: string, base: string, rates: Rates): (r: Result<real, string>)
    ensures r.Ok? ==> r.value != 0.0
    ensures r.Err? ==> r.error == code
  {
    if code == base then Ok(1.0)
    else if code !in rates || rates[code].None? || rates[code].value == 0.0 then Err(code)
    else Ok(rates[code].value)
  }

  /** Into the base currency and out of it, before any rounding. */
  function InTarget(amount: real, fromRate: real, toRate: real): (x: real)
    requires fromRate != 0.0
  {
    amount / fromRate * toRate
  }

  /** Rounded only once, at the end. */
  function Triangulate(amount: real, fromRate: real, toRate: real, d: nat): (r: real)
    requires fromRate != 0.0
  {
    RoundTo(InTarget(amount, fromRate, toRate), d)
  }

  function ConvertAmount(amount: real, fromCode: string, toCode: string, baseCode: string, rates: Rates): (r: Result<real, string>) {
    var from, to, base := Upper(fromCode), Upper(toCode), Upper(baseCode);
    if from == to then Ok(amount)
    else
      var fromRate := GetRate(from, base, rates);
      if fromRate.Err? then Err(fromRate.error)
      else
        var toRate := GetRate(to, base, rates);
        if toRate.Err? then Err(toRate.error)
        else Ok(Triangulate(amount, fromRate.value, toRate.value, Decimals(to)))
  }

  ghost predicate HasRate(code: string, base: string, rates: Rates) {
    GetRate(code, base, rates).Ok?
  }

  /** Conversion fails exactly for a missing rate of a currency that is not the base, the source's being looked up first. */
  lemma {:induction false} ConversionFailsForMissingRates(amount: real, from: string, to: string, base: string, rates: Rates)
    ensures var r, f, t, b := ConvertAmount(amount, from, to, base, rates), Upper(from), Upper(to), Upper(base);
      && (r.Err? <==> f != t && !(HasRate(f, b, rates) && HasRate(t, b, rates)))
      && (r.Err? ==> r.error == if !HasRate(f, b, rates) then f else t)
      && (!HasRate(f, b, rates) <==> f != b && (f in rates ==> rates[f].None? || rates[f].value == 0.0))
  {
  }

  // ---- Rounding ----

  ghost predicate Within(x: real, bound: real) {
    -bound <= x <= bound
  }

  lemma {:induction false} RoundToIsNear(x: real, d: nat)
    ensures Within(RoundTo(x, d) - x, HalfUnit(d))
  {
  }

  lemma {:induction false} RoundToIsMonotone(x: real, y: real, d: nat)
    requires x <= y
    ensures RoundTo(x, d) <= RoundTo(y, d)
  {
    if d == 0 {
      RoundingIsMonotone(x, y);
    } else {
      RoundingIsMonotone(x * 100.0, y * 100.0);
    }
  }

  lemma {:induction false} CloseEnoughRoundsBack(x: real, n: int, d: nat, error: real)
    requires error < HalfUnit(d) && Within(x - Units(n, d), error)
    ensures RoundTo(x, d) == Units(n, d)
  {
    NearestIsUnique(if d == 0 then x else x * 100.0, n);
  }

  // ---- Cross rates ----

  /** r is amount at the rate c, give or take an error. */
  ghost predicate IsNear(r: real, amount: real, c: real, error: real) {
    Within(r - amount * c, error)
  }

  /** The rates enter only through their quotient. */
  lemma {:induction false} TriangulationIsCrossRate(amount: real, f: real, t: real)
    requires f > 0.0
    ensures InTarget(amount, f, t) == amount * (t / f)
  {
    assert amount / f == amount * (1.0 / f);
    assert t / f == t * (1.0 / f);
  }

  lemma {:induction false} TriangulationIsNear(amount: real, f: real, t: real, c: real, d: nat)
    requires f > 0.0 && c == t / f
    ensures IsNear(Triangulate(amount, f, t, d), amount, c, HalfUnit(d))
  {
    TriangulationIsCrossRate(amount, f, t);
    RoundToIsNear(InTarget(amount, f, t), d);
  }

  lemma {:induction false} InTargetIsMonotone(a: real, b: real, f: real, t: real)
    requires f > 0.0 && t > 0.0 && a <= b
    ensures InTarget(a, f, t) <= InTarget(b, f, t)
  {
    assert a / f <= b / f;
    assert (b / f - a / f) * t >= 0.0;
  }

  lemma {:induction false} TriangulationIsMonotone(a: real, b: real, f: real, t: real, d: nat)
    requires f > 0.0 && t > 0.0 && a <= b
    ensures Triangulate(a, f, t, d) <= Triangulate(b, f, t, d)
  {
    InTargetIsMonotone(a, b, f, t);
    RoundToIsMonotone(InTarget(a, f, t), InTarget(b, f, t), d);
  }

  lemma {:induction false} CancelFactor(a: real, b: real, t: real)
    requires t > 0.0 && a * t == b * t
    ensures a == b
  {
    assert (a - b) * t == 0.0;
  }

  lemma {:induction false} ReciprocalProduct(x: real, y: real, f: real, t: real)
    requires x * f == t && y * t == f && f > 0.0 && t > 0.0
    ensures x * y == 1.0 && x > 0.0 && y > 0.0
  {
    assert (x * y) * t == x * (y * t);
    CancelFactor(x * y, 1.0, t);
    assert x <= 0.0 ==> x * f <= 0.0;
    assert y <= 0.0 ==> y * t <= 0.0;
  }

  lemma {:induction false} QuotientsAreInverse(f: real, t: real)
    requires f > 0.0 && t > 0.0
    ensures (t / f) * (f / t) == 1.0 && t / f > 0.0 && f / t > 0.0
  {
    ReciprocalProduct(t / f, f / t, f, t);
  }

  lemma {:induction false} ScaledError(e: real, bound: real, c: real)
    requires c > 0.0 && Within(e * c, bound)
    ensures Within(e, bound / c)
  {
    var q := bound / c;
    assert q * c == bound;
    assert e > q ==> (e - q) * c > 0.0;
    assert e < -q ==> (e + q) * c < 0.0;
  }

  /** An error of `half` on the way there is `half / c` seen from the start. */
  lemma {:induction false} ErrorSeenFrom(amount: real, there: real, c: real, d: real, half: real)
    requires c > 0.0 && c * d == 1.0 && IsNear(there, amount, c, half)
    ensures Within(there * d - amount, half / c)
  {
    assert (there * d - amount) * c == there * (c * d) - amount * c;
    ScaledError(there * d - amount, half, c);
  }

  /** The value that is rounded on the way back; c is the cross rate. */
  lemma {:induction false} WayBackIsNear(amount: real, there: real, f: real, t: real, c: real, half: real)
    requires f > 0.0 && t > 0.0 && c == t / f && IsNear(there, amount, c, half)
    ensures Within(InTarget(there, t, f) - amount, half / c)
  {
    QuotientsAreInverse(f, t);
    ErrorSeenFrom(amount, there, c, f / t, half);
    TriangulationIsCrossRate(there, t, f);
  }

  // ---- Conversion ----

  /** The rate used for a code, where there is one. */
  ghost function RateOf(code: string, base: string, rates: Rates): (x: real)
    requires HasRate(code, base, rates)
    ensures x != 0.0
  {
    GetRate(code, base, rates).value
  }

  /** Both rates are there and positive. */
  ghost predicate Convertible(from: string, to: string, base: string, rates: Rates) {
    && HasRate(Upper(from), Upper(base), rates) && HasRate(Upper(to), Upper(base), rates)
    && RateOf(Upper(from), Upper(base), rates) > 0.0 && RateOf(Upper(to), Upper(base), rates) > 0.0
  }

  /** What one unit of `from` is worth in `to`. */
  ghost function CrossRate(from: string, to: string, base: string, rates: Rates): (x: real)
    requires Convertible(from, to, base, rates)
    ensures x > 0.0
  {
    QuotientsAreInverse(RateOf(Upper(from), Upper(base), rates), RateOf(Upper(to), Upper(base), rates));
    RateOf(Upper(to), Upper(base), rates) / RateOf(Upper(from), Upper(base), rates)
  }

  lemma {:induction false} ConversionTriangulates(amount: real, from: string, to: string, base: string, rates: Rates)
    requires Convertible(from, to, base, rates) && Upper(from) != Upper(to)
    ensures ConvertAmount(amount, from, to, base, rates) ==
      Ok(Triangulate(amount, RateOf(Upper(from), Upper(base), rates), RateOf(Upper(to), Upper(base), rates), Decimals(Upper(to))))
  {
  }

  lemma {:induction false} OwnRateIsOne(x: real)
    requires x != 0.0
    ensures x / x == 1.0
  {
  }

  /** A conversion lies within half a unit of the target currency of the exact value. */
  lemma {:induction false} ConversionIsNear(amount: real, from: string, to: string, base: string, rates: Rates)
    requires Convertible(from, to, base, rates)
    ensures var r := ConvertAmount(amount, from, to, base, rates);
      r.Ok? && IsNear(r.value, amount, CrossRate(from, to, base, rates), HalfUnit(Decimals(Upper(to))))
  {
    if Upper(from) == Upper(to) {
      OwnRateIsOne(RateOf(Upper(from), Upper(base), rates));
    } else {
      ConversionTriangulates(amount, from, to, base, rates);
      TriangulationIsNear(amount, RateOf(Upper(from), Upper(base), rates), RateOf(Upper(to), Upper(base), rates),
        CrossRate(from, to, base, rates), Decimals(Upper(to)));
    }
  }

  // ---- The result, read off the rates ----

  /** x is the rate of a code: 1 for the base, else what the table holds for it, which is not zero. */
  ghost predicate RateIs(code: string, base: string, rates: Rates, x: real) {
    if code == base then x == 1.0 else code in rates && rates[code] == Some(x) && x != 0.0
  }

  /** r is n of the smallest units of the currency, as near to x as possible, a tie going away from zero. */
  ghost predicate NearestUnits(n: int, r: real, x: real, code: string) {
    var scale := if code == "IDR" || code == "JPY" || code == "KRW" then 1.0 else 100.0;
    && r * scale == n as real
    && -0.5 <= n as real - x * scale <= 0.5
    && (n as real - x * scale == 0.5 ==> x > 0.0) && (n as real - x * scale == -0.5 ==> x < 0.0)
  }

  predicate InCapitals(code: string) {
    forall i :: 0 <= i < |code| ==> !('a' <= code[i] <= 'z')
  }

  /** The same letters, capital or not. */
  predicate SameButForCase(s: string, t: string) {
    |s| == |t| && forall i :: 0 <= i < |s| ==>
      || s[i] == t[i]
      || ('a' <= s[i] <= 'z' && s[i] as int - t[i] as int == 32)
      || ('a' <= t[i] <= 'z' && t[i] as int - s[i] as int == 32)
  }

  lemma {:induction false} UpperByCharacter(s: string)
    ensures |Upper(s)| == |s| && forall i :: 0 <= i < |s| ==> Upper(s)[i] == UpperChar(s[i])
    decreases s
  {
    if s == "" {
    } else {
      UpperByCharacter(s[1..]);
    }
  }

  /** Codes are read without regard to case. */
  lemma {:induction false} ConversionIgnoresCase(
    amount: real, from: string, to: string, base: string, from': string, to': string, base': string, rates: Rates)
    requires SameButForCase(from, from') && SameButForCase(to, to') && SameButForCase(base, base')
    ensures ConvertAmount(amount, from, to, base, rates) == ConvertAmount(amount, from', to', base', rates)
  {
    SameUpper(from, from');
    SameUpper(to, to');
    SameUpper(base, base');
  }

  lemma {:induction false} SameUpper(s: string, t: string)
    requires SameButForCase(s, t)
    ensures Upper(s) == Upper(t)
  {
    UpperByCharacter(s);
    UpperByCharacter(t);
    forall i | 0 <= i < |s| ensures UpperChar(s[i]) == UpperChar(t[i]) {
    }
  }

  lemma {:induction false} CapitalsStay(s: string)
    requires InCapitals(s)
    ensures Upper(s) == s
  {
    UpperByCharacter(s);
  }

  /**
   The amount divided by the rate of the source and multiplied by that of the target, to
   the target's decimals; an amount in its own currency is left alone.
   */
  lemma {:induction false} ConversionByRates(
    amount: real, from: string, to: string, base: string, rates: Rates, f: real, t: real) returns (n: int)
    requires InCapitals(from) && InCapitals(to) && InCapitals(base)
    requires RateIs(from, base, rates, f) && RateIs(to, base, rates, t)
    ensures var r := ConvertAmount(amount, from, to, base, rates);
      && r.Ok?
      && (from == to ==> r.value == amount)
      && (from != to ==> NearestUnits(n, r.value, amount / f * t, to))
  {
    CapitalsStay(from);
    CapitalsStay(to);
    CapitalsStay(base);
    var x := InTarget(amount, f, t);
    n := RoundHalfAway(if Decimals(to) == 0 then x else x * 100.0);
  }

  /** Converting more never gives less. */
  lemma {:induction false} ConversionIsMonotone(a: real, b: real, from: string, to: string, base: string, rates: Rates)
    requires Convertible(from, to, base, rates) && a <= b
    ensures ConvertAmount(a, from, to, base, rates).Ok? && ConvertAmount(b, from, to, base, rates).Ok?
    ensures ConvertAmount(a, from, to, base, rates).value <= ConvertAmount(b, from, to, base, rates).value
  {
    if Upper(from) != Upper(to) {
      ConversionTriangulates(a, from, to, base, rates);
      ConversionTriangulates(b, from, to, base, rates);
      TriangulationIsMonotone(a, b, RateOf(Upper(from), Upper(base), rates), RateOf(Upper(to), Upper(base), rates), Decimals(Upper(to)));
    }
  }

  /** Half a unit of `to`, in units of `from`. */
  ghost function HalfUnitSeenFrom(from: string, to: string, base: string, rates: Rates): (x: real)
    requires Convertible(from, to, base, rates)
    ensures x > 0.0
  {
    HalfUnit(Decimals(Upper(to))) / CrossRate(from, to, base, rates)
  }

  /** What a round trip is just before its last rounding. */
  lemma {:induction false} ThereAndBack(amount: real, x: string, y: string, base: string, rates: Rates) returns (back: real)
    requires Convertible(x, y, base, rates) && Upper(x) != Upper(y)
    ensures ConvertAmount(amount, x, y, base, rates).Ok?
    ensures ConvertAmount(ConvertAmount(amount, x, y, base, rates).value, y, x, base, rates)
         == Ok(RoundTo(back, Decimals(Upper(x))))
    ensures Within(back - amount, HalfUnitSeenFrom(x, y, base, rates))
  {
    ConversionIsNear(amount, x, y, base, rates);
    var there := ConvertAmount(amount, x, y, base, rates).value;
    back := WayBack(there, x, y, base, rates);
    WayBackIsNear(amount, there, RateOf(Upper(x), Upper(base), rates), RateOf(Upper(y), Upper(base), rates),
      CrossRate(x, y, base, rates), HalfUnit(Decimals(Upper(y))));
  }

  lemma {:induction false} WayBack(there: real, x: string, y: string, base: string, rates: Rates) returns (back: real)
    requires Convertible(x, y, base, rates) && Upper(x) != Upper(y)
    ensures ConvertAmount(there, y, x, base, rates) == Ok(RoundTo(back, Decimals(Upper(x))))
    ensures back == InTarget(there, RateOf(Upper(y), Upper(base), rates), RateOf(Upper(x), Upper(base), rates))
  {
    back := InTarget(there, RateOf(Upper(y), Upper(base), rates), RateOf(Upper(x), Upper(base), rates));
    ConversionTriangulates(there, y, x, base, rates);
  }

  /** There and back again misses by at most half a Y-unit, seen from X, plus half an X-unit. */
  lemma {:induction false} RoundTripIsNear(amount: real, x: string, y: string, base: string, rates: Rates)
    requires Convertible(x, y, base, rates)
    ensures var there := ConvertAmount(amount, x, y, base, rates);
      there.Ok? && var back := ConvertAmount(there.value, y, x, base, rates);
      back.Ok? && Within(back.value - amount, HalfUnitSeenFrom(x, y, base, rates) + HalfUnit(Decimals(Upper(x))))
  {
    if Upper(x) != Upper(y) {
      var back := ThereAndBack(amount, x, y, base, rates);
      RoundToIsNear(back, Decimals(Upper(x)));
    }
  }

  /**
   An amount already at X's decimals comes back unchanged when half a Y-unit is
   worth less than half an X-unit.
   */
  lemma {:induction false} FineTargetsAreLossless(n: int, x: string, y: string, base: string, rates: Rates)
    requires Convertible(x, y, base, rates)
    requires HalfUnitSeenFrom(x, y, base, rates) < HalfUnit(Decimals(Upper(x)))
    ensures var amount := Units(n, Decimals(Upper(x)));
      var there := ConvertAmount(amount, x, y, base, rates);
      there.Ok? && ConvertAmount(there.value, y, x, base, rates) == Ok(amount)
  {
    if Upper(x) != Upper(y) {
      var back := ThereAndBack(Units(n, Decimals(Upper(x))), x, y, base, rates);
      CloseEnoughRoundsBack(back, n, Decimals(Upper(x)), HalfUnitSeenFrom(x, y, base, rates));
    }
  }
}
