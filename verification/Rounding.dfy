/**
 The rounding every monetary calculation goes through: to the nearest unit,
 a tie going away from zero (decimal.js's default, ROUND_HALF_UP).
 */
module Rounding {

  ghost function Abs(x: real): real { if x < 0.0 then -x else x }

  /** The nearest integer; halves go away from zero. */
  function RoundHalfAway(x: real): (n: int)
    ensures -0.5 <= n as real - x <= 0.5
    ensures n as real - x == 0.5 ==> x > 0.0
    ensures n as real - x == -0.5 ==> x < 0.0
  {
    if x >= 0.0 then (x + 0.5).Floor else -((0.5 - x).Floor)
  }

  /** The contract of RoundHalfAway leaves exactly one possible result. */
  lemma {:induction false} NearestIsUnique(x: real, n: int)
    requires -0.5 <= n as real - x <= 0.5
    requires n as real - x == 0.5 ==> x > 0.0
    requires n as real - x == -0.5 ==> x < 0.0
    ensures RoundHalfAway(x) == n
  {
    var r := RoundHalfAway(x);
    assert r > n ==> r as real - n as real >= 1.0;
    assert r < n ==> n as real - r as real >= 1.0;
  }

  lemma {:induction false} RoundingWholeUnits(n: int)
    ensures RoundHalfAway(n as real) == n
  {
    NearestIsUnique(n as real, n);
  }

  /** Rounding a debit and the equal credit can never disagree. */
  lemma {:induction false} RoundingIsOdd(x: real)
    ensures RoundHalfAway(-x) == -RoundHalfAway(x)
  {
    NearestIsUnique(-x, -RoundHalfAway(x));
  }

  lemma {:induction false} RoundingIsMonotone(x: real, y: real)
    requires x <= y
    ensures RoundHalfAway(x) <= RoundHalfAway(y)
  {
    var r, s := RoundHalfAway(x), RoundHalfAway(y);
    assert r > s ==> r as real - s as real >= 1.0;
  }

  /** An amount to two decimals, as whole cents. */
  function Cents(amount: real): (c: int)
    ensures -0.5 <= c as real - amount * 100.0 <= 0.5
  {
    RoundHalfAway(amount * 100.0)
  }

  function Amount(cents: int): (x: real) {
    cents as real / 100.0
  }

  /** Two decimals are enough for what has two decimals. */
  lemma {:induction false} CentsOfAmount(n: int)
    ensures Cents(Amount(n)) == n
  {
    RoundingWholeUnits(n);
    assert Amount(n) * 100.0 == n as real;
  }

  predicate IsWhole(x: real) {
    x.Floor as real == x
  }

  predicate WholeCents(amount: real) {
    IsWhole(amount * 100.0)
  }

  lemma {:induction false} WholeCentsBy(x: real, n: int)
    requires x * 100.0 == n as real
    ensures WholeCents(x) && Cents(x) == n
  {
    assert (n as real).Floor == n;
    RoundingWholeUnits(n);
  }

  lemma {:induction false} WholeCentsAdd(x: real, y: real)
    requires WholeCents(x) && WholeCents(y)
    ensures WholeCents(x + y) && WholeCents(x - y)
  {
    var m, n := (x * 100.0).Floor, (y * 100.0).Floor;
    WholeCentsBy(x + y, m + n);
    WholeCentsBy(x - y, m - n);
  }

  /** Rounding to cents changes an amount exactly when it is not whole cents. */
  lemma {:induction false} CentsAreExactly(x: real)
    ensures WholeCents(x) <==> Amount(Cents(x)) == x
  {
    if WholeCents(x) {
      WholeCentsBy(x, (x * 100.0).Floor);
    } else if Amount(Cents(x)) == x {
      WholeCentsBy(x, Cents(x));
    }
  }
}
