/**
 Account statements: a running balance row by row, the summary of the period,
 and the totals of aged balances.  Every amount is rounded to cents before it
 is added, so no error builds up.
 */
module Accounting {
  import opened Wrappers
  import opened Rounding
  import Q = Sequences

  /** A ledger line with whatever else it carries. */
  datatype Line<T> = Line(debit: Option<real>, credit: Option<real>, rest: T)

  datatype Row<T> = Row(line: Line<T>, runningBalance: real)

  datatype Summary = Summary(openingBalance: real, periodDebit: real, periodCredit: real, netMovement: real, closingBalance: real)

  /** JavaScript's `amount || 0`. */
  function OrZero(amount: Option<real>): (x: real) {
    if amount.Some? then amount.value else 0.0
  }

  /** toDecimalPlaces(2) */
  function ToTwoPlaces(x: real): (r: real) {
    Amount(Cents(x))
  }

  lemma {:induction false} TwoPlacesStay(n: int)
    ensures ToTwoPlaces(Amount(n)) == Amount(n)
  {
    CentsOfAmount(n);
  }

  /** The balance of an account, debit-positive. */
  function ComputeAccountNetBalance(debit: Option<real>, credit: Option<real>): (x: real) {
    ToTwoPlaces(ToTwoPlaces(OrZero(debit)) - ToTwoPlaces(OrZero(credit)))
  }

  // ---- What the statement says, in cents ----

  function DebitCents<T>(l: Line<T>): (c: int) { Cents(OrZero(l.debit)) }

  function CreditCents<T>(l: Line<T>): (c: int) { Cents(OrZero(l.credit)) }

  function Debits<T>(lines: seq<Line<T>>): (c: int) {
    if lines == [] then 0 else Debits(lines[..|lines| - 1]) + DebitCents(lines[|lines| - 1])
  }

  function Credits<T>(lines: seq<Line<T>>): (c: int) {
    if lines == [] then 0 else Credits(lines[..|lines| - 1]) + CreditCents(lines[|lines| - 1])
  }

  /** The balance after some lines, independent of the rows in between. */
  function BalanceAfter<T>(opening: real, lines: seq<Line<T>>): (x: real) {
    Amount(Cents(opening) + Debits(lines) - Credits(lines))
  }

  lemma {:induction false} OneMoreLine<T>(s: seq<Line<T>>, j: nat)
    requires j < |s|
    ensures Debits(s[..j + 1]) == Debits(s[..j]) + DebitCents(s[j])
    ensures Credits(s[..j + 1]) == Credits(s[..j]) + CreditCents(s[j])
  {
    assert s[..j + 1][..j] == s[..j];
  }

  lemma {:induction false} NextRow<T>(opening: real, lines: seq<Line<T>>, i: nat)
    requires i < |lines|
    ensures var d, c := ToTwoPlaces(OrZero(lines[i].debit)), ToTwoPlaces(OrZero(lines[i].credit));
      && Amount(Debits(lines[..i + 1])) == Amount(Debits(lines[..i])) + d
      && Amount(Credits(lines[..i + 1])) == Amount(Credits(lines[..i])) + c
      && ToTwoPlaces(BalanceAfter(opening, lines[..i]) + d - c) == BalanceAfter(opening, lines[..i + 1])
  {
    OneMoreLine(lines, i);
    TwoPlacesStay(Cents(opening) + Debits(lines[..i + 1]) - Credits(lines[..i + 1]));
  }

  lemma {:induction false} SummaryRoundsNothing(opening: int, debits: int, credits: int)
    ensures ToTwoPlaces(Amount(debits)) == Amount(debits) && ToTwoPlaces(Amount(credits)) == Amount(credits)
    ensures ToTwoPlaces(Amount(debits) - Amount(credits)) == Amount(debits) - Amount(credits)
    ensures ToTwoPlaces(Amount(opening) + (Amount(debits) - Amount(credits))) == Amount(opening + debits - credits)
  {
    TwoPlacesStay(debits);
    TwoPlacesStay(credits);
    TwoPlacesStay(debits - credits);
    TwoPlacesStay(opening + debits - credits);
  }

  method ComputeRunningBalances<T>(openingBalance: real, lines: seq<Line<T>>) returns (rows: seq<Row<T>>, summary: Summary)
    ensures |rows| == |lines|
    ensures forall i :: 0 <= i < |rows| ==> rows[i] == Row(lines[i], BalanceAfter(openingBalance, lines[..i + 1]))
    ensures summary.openingBalance == ToTwoPlaces(openingBalance)
    ensures summary.periodDebit == Amount(Debits(lines)) && summary.periodCredit == Amount(Credits(lines))
    ensures summary.netMovement == summary.periodDebit - summary.periodCredit
    ensures summary.closingBalance == BalanceAfter(openingBalance, lines)
    ensures rows != [] ==> rows[|rows| - 1].runningBalance == summary.closingBalance
  {
    var initial := ToTwoPlaces(openingBalance);
    var running := initial;
    var periodDebit, periodCredit := 0.0, 0.0;
    rows := [];
    for i := 0 to |lines|
      invariant |rows| == i
      invariant forall k :: 0 <= k < i ==> rows[k] == Row(lines[k], BalanceAfter(openingBalance, lines[..k + 1]))
      invariant running == BalanceAfter(openingBalance, lines[..i])
      invariant periodDebit == Amount(Debits(lines[..i])) && periodCredit == Amount(Credits(lines[..i]))
    {
      var d, c := ToTwoPlaces(OrZero(lines[i].debit)), ToTwoPlaces(OrZero(lines[i].credit));
      NextRow(openingBalance, lines, i);
      periodDebit := periodDebit + d;
      periodCredit := periodCredit + c;
      running := ToTwoPlaces(running + d - c);
      rows := rows + [Row(lines[i], running)];
    }
    assert lines[..|lines|] == lines;
    SummaryRoundsNothing(Cents(openingBalance), Debits(lines), Credits(lines));
    var roundedPeriodDebit, roundedPeriodCredit := ToTwoPlaces(periodDebit), ToTwoPlaces(periodCredit);
    var netMovement := ToTwoPlaces(roundedPeriodDebit - roundedPeriodCredit);
    summary := Summary(initial, roundedPeriodDebit, roundedPeriodCredit, netMovement, ToTwoPlaces(initial + netMovement));
  }

  lemma {:induction false} TotalsConcat<T>(a: seq<Line<T>>, b: seq<Line<T>>)
    ensures Debits(a + b) == Debits(a) + Debits(b)
    ensures Credits(a + b) == Credits(a) + Credits(b)
    decreases b
  {
    if b == [] {
      assert a + b == a;
    } else {
      assert (a + b)[..|a + b| - 1] == a + b[..|b| - 1];
      TotalsConcat(a, b[..|b| - 1]);
    }
  }

  /** A statement can be continued from its closing balance: page breaks do not show. */
  lemma {:induction false} StatementsContinue<T>(opening: real, xs: seq<Line<T>>, ys: seq<Line<T>>)
    ensures BalanceAfter(opening, xs + ys) == BalanceAfter(BalanceAfter(opening, xs), ys)
    ensures forall i :: 0 <= i <= |xs| ==> BalanceAfter(opening, (xs + ys)[..i]) == BalanceAfter(opening, xs[..i])
    ensures forall j :: 0 <= j <= |ys| ==>
      BalanceAfter(opening, (xs + ys)[..|xs| + j]) == BalanceAfter(BalanceAfter(opening, xs), ys[..j])
  {
    CentsOfAmount(Cents(opening) + Debits(xs) - Credits(xs));
    TotalsConcat(xs, ys);
    forall i | 0 <= i <= |xs| ensures BalanceAfter(opening, (xs + ys)[..i]) == BalanceAfter(opening, xs[..i]) {
      assert (xs + ys)[..i] == xs[..i];
    }
    forall j | 0 <= j <= |ys|
      ensures BalanceAfter(opening, (xs + ys)[..|xs| + j]) == BalanceAfter(BalanceAfter(opening, xs), ys[..j])
    {
      assert (xs + ys)[..|xs| + j] == xs + ys[..j];
      TotalsConcat(xs, ys[..j]);
    }
  }

  /** From one row to the next the balance moves by the net balance of the line. */
  lemma {:induction false} RowsMoveByNetBalance<T>(opening: real, lines: seq<Line<T>>, i: nat)
    requires i < |lines|
    ensures BalanceAfter(opening, lines[..i + 1]) - BalanceAfter(opening, lines[..i])
         == ComputeAccountNetBalance(lines[i].debit, lines[i].credit)
  {
    OneMoreLine(lines, i);
    TwoPlacesStay(DebitCents(lines[i]) - CreditCents(lines[i]));
  }

  /** That net balance, read off the line: debit less credit, absent amounts being zero, each rounded to cents. */
  lemma {:induction false} NetBalanceIs(debit: Option<real>, credit: Option<real>, d: real, c: real)
    requires debit == Some(d) || (debit == None && d == 0.0)
    requires credit == Some(c) || (credit == None && c == 0.0)
    ensures var net := ComputeAccountNetBalance(debit, credit);
      && WholeCents(net) && -0.01 <= net - (d - c) <= 0.01
      && (WholeCents(d) && WholeCents(c) ==> net == d - c)
  {
    var m, n := Cents(d), Cents(c);
    TwoPlacesStay(m - n);
    WholeCentsBy(Amount(m - n), m - n);
    CentsAreExactly(d);
    CentsAreExactly(c);
  }

  /** The order of the lines shows in the rows, never in the closing balance. */
  lemma {:induction false} ClosingIgnoresOrder<T>(opening: real, a: seq<Line<T>>, b: seq<Line<T>>)
    requires multiset(a) == multiset(b)
    ensures BalanceAfter(opening, a) == BalanceAfter(opening, b)
    decreases |a|
  {
    assert |a| == |multiset(a)| == |multiset(b)| == |b|;
    if a == [] {
    } else {
      var j := Q.FindInPermutation(a, b);
      ClosingIgnoresOrder(opening, a[1..], Q.Without(b, j));
      TotalsWithoutOne(a, 0);
      TotalsWithoutOne(b, j);
      assert Q.Without(a, 0) == a[1..];
    }
  }

  lemma {:induction false} TotalsWithoutOne<T>(s: seq<Line<T>>, j: nat)
    requires j < |s|
    ensures Debits(s) == Debits(Q.Without(s, j)) + DebitCents(s[j])
    ensures Credits(s) == Credits(Q.Without(s, j)) + CreditCents(s[j])
  {
    var before, upTo, after := s[..j], s[..j + 1], s[j + 1..];
    assert s == upTo + after && Q.Without(s, j) == before + after;
    OneMoreLine(s, j);
    TotalsConcat(upTo, after);
    TotalsConcat(before, after);
  }

  function Mirror<T>(l: Line<T>): (r: Line<T>) { l.(debit := l.credit, credit := l.debit) }

  /** The counterparty's statement, debits for credits, is the same with the sign changed, ties included. */
  lemma {:induction false} MirroredStatement<T>(opening: real, lines: seq<Line<T>>)
    ensures BalanceAfter(-opening, Q.Map(Mirror, lines)) == -BalanceAfter(opening, lines)
    ensures Debits(Q.Map(Mirror, lines)) == Credits(lines) && Credits(Q.Map(Mirror, lines)) == Debits(lines)
    decreases lines
  {
    assert -opening * 100.0 == -(opening * 100.0);
    RoundingIsOdd(opening * 100.0);
    if lines == [] {
    } else {
      MirroredStatement(opening, lines[..|lines| - 1]);
      assert Q.Map(Mirror, lines)[..|lines| - 1] == Q.Map(Mirror, lines[..|lines| - 1]);
    }
  }

  /** Opening plus movements without any rounding. */
  function ExactAfter<T>(opening: real, lines: seq<Line<T>>): (x: real) {
    if lines == [] then opening
    else ExactAfter(opening, lines[..|lines| - 1]) + OrZero(lines[|lines| - 1].debit) - OrZero(lines[|lines| - 1].credit)
  }

  /** The balance is out by at most half a cent for the opening and for each debit and credit. */
  lemma {:induction false} BalanceIsNearExact<T>(opening: real, lines: seq<Line<T>>)
    ensures -0.005 * (2 * |lines| + 1) as real <= BalanceAfter(opening, lines) - ExactAfter(opening, lines)
         <= 0.005 * (2 * |lines| + 1) as real
    decreases lines
  {
    if lines == [] {
    } else {
      BalanceIsNearExact(opening, lines[..|lines| - 1]);
    }
  }

  // ---- Aged balances ----

  datatype AgedRow = AgedRow(current: real, days1To30: real, days31To60: real, days61To90: real, days90Plus: real)

  datatype AgedTotals = AgedTotals(buckets: AgedRow, totalOutstanding: real)

  function Across(r: AgedRow): (x: real) {
    r.current + r.days1To30 + r.days31To60 + r.days61To90 + r.days90Plus
  }

  function Add(a: AgedRow, b: AgedRow): (r: AgedRow) {
    AgedRow(a.current + b.current, a.days1To30 + b.days1To30, a.days31To60 + b.days31To60,
            a.days61To90 + b.days61To90, a.days90Plus + b.days90Plus)
  }

  /** Bucket by bucket, unrounded. */
  function Sum(rows: seq<AgedRow>): (r: AgedRow) {
    if rows == [] then AgedRow(0.0, 0.0, 0.0, 0.0, 0.0) else Add(Sum(rows[..|rows| - 1]), rows[|rows| - 1])
  }

  function Buckets(r: AgedRow): (b: seq<real>)
    ensures |b| == 5
  {
    [r.current, r.days1To30, r.days31To60, r.days61To90, r.days90Plus]
  }

  /** One bucket over all rows. */
  function BucketTotal(rows: seq<AgedRow>, k: nat): (x: real)
    requires k < 5
  {
    if rows == [] then 0.0 else BucketTotal(rows[..|rows| - 1], k) + Buckets(rows[|rows| - 1])[k]
  }

  lemma {:induction false} SumIsByBucket(rows: seq<AgedRow>, k: nat)
    requires k < 5
    ensures Buckets(Sum(rows))[k] == BucketTotal(rows, k)
    decreases rows
  {
    if rows == [] {
    } else {
      SumIsByBucket(rows[..|rows| - 1], k);
    }
  }

  function RoundBuckets(r: AgedRow): (s: AgedRow) {
    AgedRow(ToTwoPlaces(r.current), ToTwoPlaces(r.days1To30), ToTwoPlaces(r.days31To60),
            ToTwoPlaces(r.days61To90), ToTwoPlaces(r.days90Plus))
  }

  function Outstanding(rows: seq<AgedRow>): (x: real) {
    if rows == [] then 0.0 else Outstanding(rows[..|rows| - 1]) + Across(rows[|rows| - 1])
  }

  /** Every bucket is whole cents. */
  predicate CentRow(r: AgedRow) {
    WholeCents(r.current) && WholeCents(r.days1To30) && WholeCents(r.days31To60) && WholeCents(r.days61To90) && WholeCents(r.days90Plus)
  }

  lemma {:induction false} SumOfCentRows(rows: seq<AgedRow>)
    requires forall r :: r in rows ==> CentRow(r)
    ensures CentRow(Sum(rows))
    decreases rows
  {
    if rows == [] {
      WholeCentsBy(0.0, 0);
    } else {
      var before, last := Sum(rows[..|rows| - 1]), rows[|rows| - 1];
      SumOfCentRows(rows[..|rows| - 1]);
      assert CentRow(last);
      CentRowsAdd(before, last);
    }
  }

  lemma {:induction false} CentRowsAdd(a: AgedRow, b: AgedRow)
    requires CentRow(a) && CentRow(b)
    ensures CentRow(Add(a, b))
  {
    WholeCentsAdd(a.current, b.current);
    WholeCentsAdd(a.days1To30, b.days1To30);
    WholeCentsAdd(a.days31To60, b.days31To60);
    WholeCentsAdd(a.days61To90, b.days61To90);
    WholeCentsAdd(a.days90Plus, b.days90Plus);
  }

  lemma {:induction false} CentRowsStay(r: AgedRow)
    requires CentRow(r)
    ensures RoundBuckets(r) == r
  {
    CentsAreExactly(r.current);
    CentsAreExactly(r.days1To30);
    CentsAreExactly(r.days31To60);
    CentsAreExactly(r.days61To90);
    CentsAreExactly(r.days90Plus);
  }

  lemma {:induction false} CentRowsAreExact(balances: seq<AgedRow>)
    requires forall r :: r in balances ==> CentRow(r)
    ensures RoundBuckets(Sum(balances)) == Sum(balances)
  {
    SumOfCentRows(balances);
    CentRowsStay(Sum(balances));
  }

  /**
   The total is the sum of the buckets as shown, so the page adds up; it is near
   what is really owed, and exactly that when all amounts are whole cents.
   */
  method CalculateAgedTotals(balances: seq<AgedRow>) returns (t: AgedTotals)
    ensures forall k: nat :: k < 5 ==> Buckets(t.buckets)[k] == ToTwoPlaces(BucketTotal(balances, k))
    ensures t.buckets == RoundBuckets(Sum(balances))
    ensures t.totalOutstanding == Across(t.buckets)
    ensures -0.025 <= t.totalOutstanding - Outstanding(balances) <= 0.025
    ensures (forall r :: r in balances ==> CentRow(r)) ==> t.totalOutstanding == Outstanding(balances)
  {
    var sums := AgedRow(0.0, 0.0, 0.0, 0.0, 0.0);
    for i := 0 to |balances|
      invariant sums == Sum(balances[..i]) && Across(sums) == Outstanding(balances[..i])
    {
      assert balances[..i + 1][..i] == balances[..i];
      sums := Add(sums, balances[i]);
    }
    assert balances[..|balances|] == balances;
    var b := RoundBuckets(sums);
    ShownTotalStays(sums);
    forall k: nat | k < 5 ensures Buckets(b)[k] == ToTwoPlaces(BucketTotal(balances, k)) {
      SumIsByBucket(balances, k);
    }
    t := AgedTotals(b, ToTwoPlaces(Across(b)));
    if forall r :: r in balances ==> CentRow(r) {
      CentRowsAreExact(balances);
    }
  }

  lemma {:induction false} ShownTotalStays(r: AgedRow)
    ensures ToTwoPlaces(Across(RoundBuckets(r))) == Across(RoundBuckets(r))
    ensures -0.025 <= Across(RoundBuckets(r)) - Across(r) <= 0.025
  {
    TwoPlacesStay(Cents(r.current) + Cents(r.days1To30) + Cents(r.days31To60) + Cents(r.days61To90) + Cents(r.days90Plus));
  }

  /** The page shows what is owed, rounded to cents. */
  predicate ShowsRoundedDebt(r: AgedRow) {
    Across(RoundBuckets(r)) == ToTwoPlaces(Across(r))
  }

  predicate NonNegative(r: AgedRow) {
    r.current >= 0.0 && r.days1To30 >= 0.0 && r.days31To60 >= 0.0 && r.days61To90 >= 0.0 && r.days90Plus >= 0.0
  }

  /** What an amount has beyond whole cents, in cents. */
  function Fraction(x: real): (f: real)
    ensures 0.0 <= f < 1.0
  {
    x * 100.0 - (x * 100.0).Floor as real
  }

  function Ups(x: real): (n: int) { if Fraction(x) >= 0.5 then 1 else 0 }

  lemma {:induction false} CentsByFraction(x: real)
    requires x >= 0.0
    ensures Cents(x) == (x * 100.0).Floor + Ups(x)
  {
    NearestIsUnique(x * 100.0, (x * 100.0).Floor + Ups(x));
  }

  function FractionSum(r: AgedRow): (x: real) {
    Fraction(r.current) + Fraction(r.days1To30) + Fraction(r.days31To60) + Fraction(r.days61To90) + Fraction(r.days90Plus)
  }

  function RoundedUp(r: AgedRow): (n: int) {
    Ups(r.current) + Ups(r.days1To30) + Ups(r.days31To60) + Ups(r.days61To90) + Ups(r.days90Plus)
  }

  function WholeSum(r: AgedRow): (n: int) {
    (r.current * 100.0).Floor + (r.days1To30 * 100.0).Floor + (r.days31To60 * 100.0).Floor
      + (r.days61To90 * 100.0).Floor + (r.days90Plus * 100.0).Floor
  }

  lemma {:induction false} ShownInCents(r: AgedRow)
    requires NonNegative(r)
    ensures Across(RoundBuckets(r)) == Amount(WholeSum(r) + RoundedUp(r))
  {
    CentsByFraction(r.current);
    CentsByFraction(r.days1To30);
    CentsByFraction(r.days31To60);
    CentsByFraction(r.days61To90);
    CentsByFraction(r.days90Plus);
  }

  lemma {:induction false} OwedInCents(r: AgedRow)
    requires NonNegative(r)
    ensures Cents(Across(r)) == WholeSum(r) + RoundHalfAway(FractionSum(r))
  {
    var n := RoundHalfAway(FractionSum(r));
    assert Across(r) * 100.0 == WholeSum(r) as real + FractionSum(r);
    assert n as real - FractionSum(r) == -0.5 ==> FractionSum(r) < 0.0;
    NearestIsUnique(Across(r) * 100.0, WholeSum(r) + n);
  }

  /**
   Which sums are shown as what is owed, rounded, read off their fractions of a
   cent: those where as many buckets are rounded up as the fractions are worth together.
   */
  lemma {:induction false} RoundedDebtByFractions(r: AgedRow)
    requires NonNegative(r)
    ensures ShowsRoundedDebt(r) <==> RoundedUp(r) == RoundHalfAway(FractionSum(r))
  {
    ShownInCents(r);
    OwedInCents(r);
    SameCents(WholeSum(r) + RoundedUp(r), Cents(Across(r)));
  }

  lemma {:induction false} SameCents(m: int, n: int)
    ensures Amount(m) == Amount(n) <==> m == n
  {
  }

  // ---- Which buckets may carry fractions ----

  const BUCKETS := {0, 1, 2, 3, 4}

  ghost predicate FractionsOnlyIn(r: AgedRow, allowed: set<int>) {
    forall i :: 0 <= i < 5 && i !in allowed ==> WholeCents(Buckets(r)[i])
  }

  lemma {:induction false} WholeHasNoFraction(x: real)
    ensures WholeCents(x) ==> Fraction(x) == 0.0 && Ups(x) == 0
  {
  }

  lemma {:induction false} OneFractionRoundsAlike(f: real)
    requires 0.0 <= f < 1.0
    ensures RoundHalfAway(f) == if f >= 0.5 then 1 else 0
  {
    NearestIsUnique(f, if f >= 0.5 then 1 else 0);
  }

  lemma {:induction false} OneFractionIsShown(r: AgedRow, allowed: set<int>)
    requires NonNegative(r) && FractionsOnlyIn(r, allowed) && |allowed| <= 1
    ensures ShowsRoundedDebt(r)
  {
    var b := Buckets(r);
    var k := 0;
    if allowed != {} {
      k := OnlyElement(allowed);
    }
    forall i | 0 <= i < 5 && i != k ensures Fraction(b[i]) == 0.0 && Ups(b[i]) == 0 {
      WholeHasNoFraction(b[i]);
    }
    assert FractionSum(r) == Fraction(b[0]) + Fraction(b[1]) + Fraction(b[2]) + Fraction(b[3]) + Fraction(b[4]);
    assert RoundedUp(r) == Ups(b[0]) + Ups(b[1]) + Ups(b[2]) + Ups(b[3]) + Ups(b[4]);
    if 0 <= k < 5 {
      assert FractionSum(r) == Fraction(b[k]) && RoundedUp(r) == Ups(b[k]);
      OneFractionRoundsAlike(Fraction(b[k]));
    } else {
      OneFractionRoundsAlike(0.0);
    }
    RoundedDebtByFractions(r);
  }

  lemma {:induction false} OnlyElement(s: set<int>) returns (k: int)
    requires |s| == 1
    ensures s == {k}
  {
    assert (forall x :: x !in s) ==> s == {};
    k :| k in s;
    assert |s - {k}| == 0;
  }

  /** x in one bucket, y in another, nothing elsewhere. */
  function Pair(i: int, x: real, j: int, y: real): (r: AgedRow) {
    AgedRow(At(0, i, x, j, y), At(1, i, x, j, y), At(2, i, x, j, y), At(3, i, x, j, y), At(4, i, x, j, y))
  }

  function At(k: int, i: int, x: real, j: int, y: real): (z: real) {
    if k == i then x else if k == j then y else 0.0
  }

  lemma {:induction false} PairSum(i: int, x: real, j: int, y: real)
    requires i in BUCKETS && j in BUCKETS && i != j
    ensures Across(Pair(i, x, j, y)) == x + y
  {
  }

  lemma {:induction false} PairRounds(i: int, x: real, j: int, y: real, x': real, y': real)
    requires x' == ToTwoPlaces(x) && y' == ToTwoPlaces(y)
    ensures RoundBuckets(Pair(i, x, j, y)) == Pair(i, x', j, y')
  {
    assert ToTwoPlaces(0.0) == 0.0 by {
      NearestIsUnique(0.0 * 100.0, 0);
    }
    AtRounds(0, i, x, j, y);
    AtRounds(1, i, x, j, y);
    AtRounds(2, i, x, j, y);
    AtRounds(3, i, x, j, y);
    AtRounds(4, i, x, j, y);
  }

  lemma {:induction false} AtRounds(k: int, i: int, x: real, j: int, y: real)
    requires ToTwoPlaces(0.0) == 0.0
    ensures ToTwoPlaces(At(k, i, x, j, y)) == At(k, i, ToTwoPlaces(x), j, ToTwoPlaces(y))
  {
  }

  /** A pair is shown as x' + y', and owed as z. */
  lemma {:induction false} PairIsShown(i: int, x: real, j: int, y: real, x': real, y': real, z: real)
    requires i in BUCKETS && j in BUCKETS && i != j
    requires x' == ToTwoPlaces(x) && y' == ToTwoPlaces(y) && z == ToTwoPlaces(x + y)
    ensures ShowsRoundedDebt(Pair(i, x, j, y)) <==> x' + y' == z
  {
    PairRounds(i, x, j, y, x', y');
    PairSum(i, x, j, y);
    PairSum(i, x', j, y');
  }

  /** Two buckets of half a cent show two cents for a debt of one, whichever buckets they are. */
  lemma {:induction false} HalfCentsAreShownTwice(i: int, j: int)
    requires i in BUCKETS && j in BUCKETS && i != j
    ensures !ShowsRoundedDebt(Pair(i, 0.005, j, 0.005))
  {
    NearestIsUnique(0.005 * 100.0, 1);
    NearestIsUnique(0.01 * 100.0, 1);
    PairIsShown(i, 0.005, j, 0.005, 0.01, 0.01, 0.01);
  }

  lemma {:induction false} SumOfOneRow(r: AgedRow)
    ensures Sum([r]) == r && Outstanding([r]) == Across(r)
  {
    assert [r][..0] == [];
  }

  /** From the rows on: a single row of half a cent in each of two buckets is shown as 0.02, and 0.01 is owed. */
  lemma {:induction false} AgedTotalsCanExceedTheDebt(i: int, j: int)
    requires i in BUCKETS && j in BUCKETS && i != j
    ensures var rows := [Pair(i, 0.005, j, 0.005)];
      Outstanding(rows) == 0.01 && Across(RoundBuckets(Sum(rows))) == 0.02
  {
    SumOfOneRow(Pair(i, 0.005, j, 0.005));
    NearestIsUnique(0.005 * 100.0, 1);
    PairRounds(i, 0.005, j, 0.005, 0.01, 0.01);
    PairSum(i, 0.005, j, 0.005);
    PairSum(i, 0.01, j, 0.01);
  }

  /** Half a cent in one bucket and a credit of 1.00 in another: the tie is rounded one way in the bucket and the other in the debt. */
  lemma {:induction false} CreditsTurnTies(i: int, j: int)
    requires i in BUCKETS && j in BUCKETS && i != j
    ensures !ShowsRoundedDebt(Pair(i, 0.005, j, -1.0))
  {
    NearestIsUnique(0.005 * 100.0, 1);
    NearestIsUnique(-1.0 * 100.0, -100);
    NearestIsUnique(-0.995 * 100.0, -100);
    PairIsShown(i, 0.005, j, -1.0, 0.01, -1.0, -1.0);
  }

  lemma {:induction false} PairFractions(i: int, x: real, j: int, y: real, allowed: set<int>)
    requires i in allowed && (j in allowed || WholeCents(y))
    ensures FractionsOnlyIn(Pair(i, x, j, y), allowed)
  {
    WholeCentsBy(0.0, 0);
    var b := Buckets(Pair(i, x, j, y));
    forall k | 0 <= k < 5 && k !in allowed ensures WholeCents(b[k]) {
      assert b[k] == At(k, i, x, j, y);
    }
  }

  /**
   Without credits the page shows what is owed, rounded, for all amounts if and only
   if at most one bucket may carry a fraction of a cent.
   */
  lemma {:induction false} RoundedDebtIsShownExactly(allowed: set<int>)
    requires allowed <= BUCKETS
    ensures (forall r :: NonNegative(r) && FractionsOnlyIn(r, allowed) ==> ShowsRoundedDebt(r)) <==> |allowed| <= 1
  {
    if |allowed| <= 1 {
      forall r | NonNegative(r) && FractionsOnlyIn(r, allowed) ensures ShowsRoundedDebt(r) {
        OneFractionIsShown(r, allowed);
      }
    } else {
      var i :| i in allowed;
      assert |allowed - {i}| >= 1;
      var j :| j in allowed - {i};
      HalfCentsAreShownTwice(i, j);
      PairFractions(i, 0.005, j, 0.005, allowed);
    }
  }

  /** With credits it does so if and only if no bucket may. */
  lemma {:induction false} RoundedDebtWithCreditsExactly(allowed: set<int>)
    requires allowed <= BUCKETS
    ensures (forall r :: FractionsOnlyIn(r, allowed) ==> ShowsRoundedDebt(r)) <==> allowed == {}
  {
    if allowed == {} {
      forall r | FractionsOnlyIn(r, allowed) ensures ShowsRoundedDebt(r) {
        var b := Buckets(r);
        assert WholeCents(b[0]) && WholeCents(b[1]) && WholeCents(b[2]) && WholeCents(b[3]) && WholeCents(b[4]);
        CentRowsStay(r);
        ShownTotalStays(r);
      }
    } else {
      var i :| i in allowed;
      var j := if i == 0 then 1 else 0;
      WholeCentsBy(-1.0, -100);
      CreditsTurnTies(i, j);
      PairFractions(i, 0.005, j, -1.0, allowed);
    }
  }
}
