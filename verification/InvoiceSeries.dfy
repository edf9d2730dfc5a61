/**
 What the numbering check finds, read off the fetched invoices: their numbers, their
 creation times and which of them are historical.
 */
module InvoiceSeries {
  import opened Wrappers
  import opened JsonText
  import A = LedgerAudit
  import Q = Sequences

  type Invoices = seq<A.Invoice>

  // ---- Invoice numbers ----

  /** A prefix on one line that does not end in a digit, and digits. */
  ghost predicate NumberParts(s: string, prefix: string, digits: string) {
    && s == prefix + digits && digits != "" && (forall i :: 0 <= i < |digits| ==> IsDigit(digits[i]))
    && (prefix != "" ==> !IsDigit(prefix[|prefix| - 1]))
    && forall i :: 0 <= i < |prefix| ==>
         prefix[i] != '\n' && prefix[i] != '\r' && prefix[i] != '\U{2028}' && prefix[i] != '\U{2029}'
  }

  /** The invoice is not historical, and its number is the prefix followed by n, in however many digits. */
  ghost predicate Numbered(inv: A.Invoice, prefix: string, n: int) {
    !inv.historical && exists digits :: NumberParts(inv.invoiceNumber, prefix, digits) && DigitsValue(digits) == n
  }

  ghost predicate InSeries(inv: A.Invoice, prefix: string) {
    exists n :: Numbered(inv, prefix, n)
  }

  lemma {:induction false} LongerPrefixEndsInDigit(s: string, p: string, d: string, q: string, e: string)
    requires s == p + d == q + e && forall i :: 0 <= i < |d| ==> IsDigit(d[i])
    ensures |p| < |q| ==> IsDigit(q[|q| - 1])
  {
    if |p| < |q| {
      assert q[|q| - 1] == s[|q| - 1] == d[|q| - 1 - |p|];
    }
  }

  lemma {:induction false} PartsAreUnique(s: string, p: string, d: string, q: string, e: string)
    requires NumberParts(s, p, d) && NumberParts(s, q, e)
    ensures p == q && d == e
  {
    assert |p| >= |q| by {
      LongerPrefixEndsInDigit(s, p, d, q, e);
    }
    assert |q| >= |p| by {
      LongerPrefixEndsInDigit(s, q, e, p, d);
    }
    assert p == s[..|p|] == q && d == s[|p|..] == e;
  }

  /** An invoice number is read as prefix and digits exactly when it consists of them. */
  lemma {:induction false} SplitIsExact(s: string, prefix: string, digits: string)
    ensures A.SplitNumber(s) == Some((prefix, digits)) <==> NumberParts(s, prefix, digits)
  {
    if NumberParts(s, prefix, digits) {
      assert s[|s| - 1] == digits[|digits| - 1];
      forall i | 0 <= i < |s|
        ensures s[i] != '\n' && s[i] != '\r' && s[i] != '\U{2028}' && s[i] != '\U{2029}'
      {
        assert s[i] == if i < |prefix| then prefix[i] else digits[i - |prefix|];
      }
      SplitParts(s);
      var m := A.SplitNumber(s).value;
      PartsAreUnique(s, prefix, digits, m.0, m.1);
    }
    if A.SplitNumber(s) == Some((prefix, digits)) {
      SplitParts(s);
    }
  }

  lemma {:induction false} SplitParts(s: string)
    requires A.SplitNumber(s).Some?
    ensures var m := A.SplitNumber(s).value; NumberParts(s, m.0, m.1)
  {
    var m := A.SplitNumber(s).value;
    assert forall i :: 0 <= i < |m.1| ==> m.1[i] in m.1;
    assert forall i :: 0 <= i < |m.0| ==> m.0[i] == s[i];
  }

  /** Whatever the prefix and however many zeros, a number is read back from its text. */
  lemma {:induction false} NumbersAreRead(prefix: string, zeros: nat, n: nat)
    requires prefix != "" ==> !IsDigit(prefix[|prefix| - 1])
    requires forall i :: 0 <= i < |prefix| ==>
      prefix[i] != '\n' && prefix[i] != '\r' && prefix[i] != '\U{2028}' && prefix[i] != '\U{2029}'
    ensures var digits := Zeros(zeros) + Digits(n);
      (forall i :: 0 <= i < |digits| ==> IsDigit(digits[i])) && DigitsValue(digits) == n
      && A.SplitNumber(prefix + digits) == Some((prefix, digits))
  {
    var digits := Zeros(zeros) + Digits(n);
    assert NumberParts(prefix + digits, prefix, digits);
    SplitIsExact(prefix + digits, prefix, digits);
    LeadingZerosCountNothing(zeros, Digits(n));
    DigitsRoundTrip(n);
  }

  function Zeros(n: nat): (s: string) { seq(n, _ => '0') }

  lemma {:induction false} LeadingZerosCountNothing(zeros: nat, digits: string)
    requires forall i :: 0 <= i < |digits| ==> IsDigit(digits[i])
    ensures DigitsValue(Zeros(zeros) + digits) == DigitsValue(digits)
    decreases zeros + |digits|
  {
    var s := Zeros(zeros) + digits;
    if digits != "" {
      assert s[..|s| - 1] == Zeros(zeros) + digits[..|digits| - 1];
      LeadingZerosCountNothing(zeros, digits[..|digits| - 1]);
    } else if zeros > 0 {
      assert s[..|s| - 1] == Zeros(zeros - 1) + digits;
      LeadingZerosCountNothing(zeros - 1, digits);
    }
  }

  // ---- The series of a prefix ----

  lemma {:induction false} NumberedIsVisited(inv: A.Invoice, prefix: string, n: int)
    ensures Numbered(inv, prefix, n)
       <==> !inv.historical && A.PrefixOf(inv) == Some(prefix) && A.VisitOf(inv).number == n
  {
    var m := A.SplitNumber(inv.invoiceNumber);
    if m.Some? {
      SplitIsExact(inv.invoiceNumber, m.value.0, m.value.1);
    }
    if Numbered(inv, prefix, n) {
      var digits :| NumberParts(inv.invoiceNumber, prefix, digits) && DigitsValue(digits) == n;
      SplitIsExact(inv.invoiceNumber, prefix, digits);
    }
  }

  lemma {:induction false} InSeriesIsKept(inv: A.Invoice, prefix: string)
    ensures InSeries(inv, prefix) <==> !inv.historical && A.PrefixOf(inv) == Some(prefix)
    ensures InSeries(inv, prefix) ==> Numbered(inv, prefix, A.VisitOf(inv).number)
  {
    NumberedIsVisited(inv, prefix, A.VisitOf(inv).number);
    if InSeries(inv, prefix) {
      var n :| Numbered(inv, prefix, n);
      NumberedIsVisited(inv, prefix, n);
    }
  }

  ghost function Member(prefix: string): (p: A.Invoice -> bool) {
    inv => InSeries(inv, prefix)
  }

  /** Where the visits of a series stand among the invoices. */
  ghost predicate Visited(invoices: Invoices, prefix: string, at: seq<nat>) {
    var series := A.Series(invoices, prefix);
    && Q.Positions(Member(prefix), invoices, at) && |at| == |series|
    && forall k :: 0 <= k < |at| ==> series[k] == A.VisitOf(invoices[at[k]])
  }

  lemma {:induction false} SeriesPositions(invoices: Invoices, prefix: string) returns (at: seq<nat>)
    ensures Visited(invoices, prefix, at)
  {
    forall inv ensures Member(prefix)(inv) <==> A.HasKey(A.PrefixOf, prefix)(inv) && A.Operational(inv) {
      InSeriesIsKept(inv, prefix);
    }
    Q.FilterTwice(A.HasKey(A.PrefixOf, prefix), A.Operational, Member(prefix), invoices);
    at := Q.FilterPositions(Member(prefix), invoices);
  }

  // ---- Missing numbers ----

  ghost predicate NumberedBelow(inv: A.Invoice, prefix: string, v: int) {
    exists n :: n < v && Numbered(inv, prefix, n)
  }

  ghost predicate NumberedAbove(inv: A.Invoice, prefix: string, v: int) {
    exists n :: n > v && Numbered(inv, prefix, n)
  }

  /** From invoice i to invoice j of the series the number v is passed without an invoice of that number in between. */
  ghost predicate Passes(invoices: Invoices, prefix: string, v: int, i: int, j: int) {
    && 0 <= i < j < |invoices| && NumberedBelow(invoices[i], prefix, v) && NumberedAbove(invoices[j], prefix, v)
    && forall k :: i < k < j ==> !Numbered(invoices[k], prefix, v)
  }

  ghost predicate Passed(invoices: Invoices, prefix: string, v: int) {
    exists i, j :: Passes(invoices, prefix, v, i, j)
  }

  /** What the number of an invoice of the series is, compared with v. */
  lemma {:induction false} NumberOf(inv: A.Invoice, prefix: string, v: int)
    ensures InSeries(inv, prefix) ==>
      && (Numbered(inv, prefix, v) <==> A.VisitOf(inv).number == v)
      && (NumberedBelow(inv, prefix, v) <==> A.VisitOf(inv).number < v)
      && (NumberedAbove(inv, prefix, v) <==> A.VisitOf(inv).number > v)
    ensures Numbered(inv, prefix, v) || NumberedBelow(inv, prefix, v) || NumberedAbove(inv, prefix, v) <==> InSeries(inv, prefix)
  {
    forall n ensures InSeries(inv, prefix) ==> (Numbered(inv, prefix, n) <==> A.VisitOf(inv).number == n) {
      InSeriesIsKept(inv, prefix);
      NumberedIsVisited(inv, prefix, n);
    }
    if InSeries(inv, prefix) {
      var m := A.VisitOf(inv).number;
      assert Numbered(inv, prefix, m);
    }
  }

  lemma {:induction false} NumberAt(invoices: Invoices, prefix: string, at: seq<nat>, k: nat, v: int)
    requires Visited(invoices, prefix, at) && k < |at|
    ensures var inv, x := invoices[at[k]], A.Series(invoices, prefix)[k];
      && (Numbered(inv, prefix, v) <==> x.number == v)
      && (NumberedBelow(inv, prefix, v) <==> x.number < v)
      && (NumberedAbove(inv, prefix, v) <==> x.number > v)
  {
    assert Member(prefix)(invoices[at[k]]);
    NumberOf(invoices[at[k]], prefix, v);
  }

  lemma {:induction false} PlaceInSeries(invoices: Invoices, prefix: string, at: seq<nat>, x: nat, v: int) returns (k: nat)
    requires Visited(invoices, prefix, at) && x < |invoices|
    requires Numbered(invoices[x], prefix, v) || NumberedBelow(invoices[x], prefix, v) || NumberedAbove(invoices[x], prefix, v)
    ensures k < |at| && at[k] == x
    ensures forall i :: 0 <= i < |at| ==> (at[i] < x <==> i < k) && (x < at[i] <==> k < i)
  {
    NumberOf(invoices[x], prefix, v);
    assert Member(prefix)(invoices[x]);
    k := Q.PlaceOf(Member(prefix), invoices, at, x);
  }

  lemma {:induction false} ClimbedIsPassed(invoices: Invoices, prefix: string, at: seq<nat>, v: int, i: nat, j: nat)
    requires Visited(invoices, prefix, at) && A.ClimbsOver(A.Series(invoices, prefix), v, i, j)
    ensures Passes(invoices, prefix, v, at[i], at[j])
  {
    NumberAt(invoices, prefix, at, i, v);
    NumberAt(invoices, prefix, at, j, v);
    forall x | at[i] < x < at[j] ensures !Numbered(invoices[x], prefix, v) {
      if Numbered(invoices[x], prefix, v) {
        var k := PlaceInSeries(invoices, prefix, at, x, v);
        NumberAt(invoices, prefix, at, k, v);
      }
    }
  }

  lemma {:induction false} NotVisitedBetween(invoices: Invoices, prefix: string, at: seq<nat>, v: int, i: nat, j: nat)
    requires Visited(invoices, prefix, at) && i < j < |at|
    requires forall x :: at[i] < x < at[j] ==> !Numbered(invoices[x], prefix, v)
    ensures forall k :: i < k < j ==> A.Series(invoices, prefix)[k].number != v
  {
    forall k | i < k < j ensures A.Series(invoices, prefix)[k].number != v {
      NumberAt(invoices, prefix, at, k, v);
    }
  }

  lemma {:induction false} PassedIsClimbed(invoices: Invoices, prefix: string, at: seq<nat>, v: int, x: nat, y: nat)
    requires Visited(invoices, prefix, at) && Passes(invoices, prefix, v, x, y)
    ensures A.ClimbedOver(A.Series(invoices, prefix), v)
  {
    var i := PlaceInSeries(invoices, prefix, at, x, v);
    var j := PlaceInSeries(invoices, prefix, at, y, v);
    NumberAt(invoices, prefix, at, i, v);
    NumberAt(invoices, prefix, at, j, v);
    NotVisitedBetween(invoices, prefix, at, v, i, j);
    assert A.ClimbsOver(A.Series(invoices, prefix), v, i, j);
  }

  /** A number is climbed over in the series exactly when the invoices pass it. */
  lemma {:induction false} ClimbedOverIsPassed(invoices: Invoices, prefix: string, v: int)
    ensures A.ClimbedOver(A.Series(invoices, prefix), v) <==> Passed(invoices, prefix, v)
  {
    var at := SeriesPositions(invoices, prefix);
    if A.ClimbedOver(A.Series(invoices, prefix), v) {
      var i, j :| A.ClimbsOver(A.Series(invoices, prefix), v, i, j);
      ClimbedIsPassed(invoices, prefix, at, v, i, j);
    }
    if Passed(invoices, prefix, v) {
      var x, y :| Passes(invoices, prefix, v, x, y);
      PassedIsClimbed(invoices, prefix, at, v, x, y);
    }
  }

  // ---- The findings themselves ----

  /** Invoice j is the next of the series after invoice i. */
  ghost predicate Next(invoices: Invoices, prefix: string, i: int, j: int) {
    && 0 <= i < j < |invoices| && InSeries(invoices[i], prefix) && InSeries(invoices[j], prefix)
    && forall k :: i < k < j ==> !InSeries(invoices[k], prefix)
  }

  /** The creation time that is compared: a missing one counts as 1970. */
  predicate CreatedAt(inv: A.Invoice, t: int) {
    (inv.createdOn == None && t == 0) || inv.createdOn == Some(t)
  }

  /** a is what the check finds at an invoice, the one before it in the series being `earlier`. */
  ghost predicate FoundAt(prefix: string, earlier: A.Invoice, inv: A.Invoice, a: A.Anomaly) {
    match a
    case SequenceGap(p, id, expected, actual) =>
      && p == prefix && id == inv.invoiceId && expected < actual
      && Numbered(earlier, prefix, expected - 1) && Numbered(inv, prefix, actual)
    case TimestampInversion(id, current, previous) =>
      id == inv.invoiceId && current < previous && CreatedAt(inv, current) && CreatedAt(earlier, previous)
    case _ => false
  }

  ghost predicate FoundBetween(invoices: Invoices, prefix: string, i: int, j: int, a: A.Anomaly) {
    Next(invoices, prefix, i, j) && FoundAt(prefix, invoices[i], invoices[j], a)
  }

  ghost predicate Found(invoices: Invoices, prefix: string, a: A.Anomaly) {
    exists i, j :: FoundBetween(invoices, prefix, i, j, a)
  }

  lemma {:induction false} NextInSeries(invoices: Invoices, prefix: string, at: seq<nat>, k: nat)
    requires Visited(invoices, prefix, at) && 0 < k < |at|
    ensures Next(invoices, prefix, at[k - 1], at[k])
  {
    assert Member(prefix)(invoices[at[k - 1]]) && Member(prefix)(invoices[at[k]]);
    forall x | at[k - 1] < x < at[k] ensures !InSeries(invoices[x], prefix) {
      Q.NothingBetween(Member(prefix), invoices, at, k, x);
      assert !Member(prefix)(invoices[x]);
    }
  }

  lemma {:induction false} NextIsNeighbour(invoices: Invoices, prefix: string, at: seq<nat>, x: nat, y: nat) returns (k: nat)
    requires Visited(invoices, prefix, at) && Next(invoices, prefix, x, y)
    ensures 0 < k < |at| && at[k - 1] == x && at[k] == y
  {
    assert Member(prefix)(invoices[x]) && Member(prefix)(invoices[y]);
    forall z | x < z < y ensures !Member(prefix)(invoices[z]) {
      assert !InSeries(invoices[z], prefix);
    }
    k := Q.Neighbours(Member(prefix), invoices, at, x, y);
  }

  lemma {:induction false} FindingsHave(prefix: string, earlier: A.Visit, later: A.Visit, a: A.Anomaly)
    ensures a in A.Findings(prefix, earlier, later) <==>
      || (earlier.number + 1 < later.number && a == A.SequenceGap(prefix, later.invoiceId, earlier.number + 1, later.number))
      || (later.createdOn < earlier.createdOn && a == A.TimestampInversion(later.invoiceId, later.createdOn, earlier.createdOn))
  {
  }

  lemma {:induction false} GapsAre(prefix: string, earlier: A.Invoice, inv: A.Invoice, a: A.Anomaly)
    requires InSeries(earlier, prefix) && InSeries(inv, prefix) && a.SequenceGap?
    ensures a in A.Findings(prefix, A.VisitOf(earlier), A.VisitOf(inv)) <==> FoundAt(prefix, earlier, inv, a)
  {
    FindingsHave(prefix, A.VisitOf(earlier), A.VisitOf(inv), a);
    NumberOf(earlier, prefix, a.expected - 1);
    NumberOf(inv, prefix, a.actual);
  }

  lemma {:induction false} InversionsHave(prefix: string, earlier: A.Visit, later: A.Visit, a: A.Anomaly)
    requires a.TimestampInversion?
    ensures a in A.Findings(prefix, earlier, later) <==>
      a.invoiceId == later.invoiceId && a.current == later.createdOn && a.previous == earlier.createdOn && a.current < a.previous
  {
    FindingsHave(prefix, earlier, later, a);
  }

  lemma {:induction false} TimeIs(inv: A.Invoice, t: int)
    ensures CreatedAt(inv, t) <==> A.VisitOf(inv).createdOn == t
    ensures A.VisitOf(inv).invoiceId == inv.invoiceId
  {
  }

  lemma {:induction false} InversionsAre(prefix: string, earlier: A.Invoice, inv: A.Invoice, a: A.Anomaly)
    requires a.TimestampInversion?
    ensures a in A.Findings(prefix, A.VisitOf(earlier), A.VisitOf(inv)) <==> FoundAt(prefix, earlier, inv, a)
  {
    InversionsHave(prefix, A.VisitOf(earlier), A.VisitOf(inv), a);
    TimeIs(inv, a.current);
    TimeIs(earlier, a.previous);
  }

  lemma {:induction false} FindingsAre(prefix: string, earlier: A.Invoice, inv: A.Invoice, a: A.Anomaly)
    requires InSeries(earlier, prefix) && InSeries(inv, prefix)
    ensures a in A.Findings(prefix, A.VisitOf(earlier), A.VisitOf(inv)) <==> FoundAt(prefix, earlier, inv, a)
  {
    if a.SequenceGap? {
      GapsAre(prefix, earlier, inv, a);
    } else if a.TimestampInversion? {
      InversionsAre(prefix, earlier, inv, a);
    } else {
      FindingsHave(prefix, A.VisitOf(earlier), A.VisitOf(inv), a);
    }
  }

  /** The findings between two neighbours of the series. */
  lemma {:induction false} FindingsBetween(invoices: Invoices, prefix: string, at: seq<nat>, k: nat, a: A.Anomaly)
    requires Visited(invoices, prefix, at) && 0 < k < |at|
    ensures A.FoundAt(prefix, A.Series(invoices, prefix), a, k) <==> FoundBetween(invoices, prefix, at[k - 1], at[k], a)
  {
    NextInSeries(invoices, prefix, at, k);
    FindingsAre(prefix, invoices[at[k - 1]], invoices[at[k]], a);
  }

  /** The findings on a series are exactly those between its neighbours. */
  lemma {:induction false} ContinuityIsFound(invoices: Invoices, prefix: string, a: A.Anomaly)
    ensures a in A.Continuity(prefix, A.Series(invoices, prefix)) <==> Found(invoices, prefix, a)
  {
    var at := SeriesPositions(invoices, prefix);
    A.ContinuityHas(prefix, A.Series(invoices, prefix), a);
    if k :| A.FoundAt(prefix, A.Series(invoices, prefix), a, k) {
      FindingsBetween(invoices, prefix, at, k, a);
    }
    if Found(invoices, prefix, a) {
      var i, j :| FoundBetween(invoices, prefix, i, j, a);
      var k := NextIsNeighbour(invoices, prefix, at, i, j);
      FindingsBetween(invoices, prefix, at, k, a);
    }
  }

  // ---- Inversions in fetch order ----

  /** The order the query fetches invoices in: by creation time, those without one last. */
  predicate FetchedBefore(a: A.Invoice, b: A.Invoice) {
    && (a.createdOn.None? ==> b.createdOn.None?)
    && (a.createdOn.Some? && b.createdOn.Some? ==> a.createdOn.value <= b.createdOn.value)
  }

  ghost predicate FetchedByCreation(invoices: Invoices) {
    Q.Ordered(FetchedBefore, invoices)
  }

  /** Of the series, invoice j has no creation time, and invoice i before it was created after 1970. */
  ghost predicate TimelessAfter(invoices: Invoices, prefix: string, i: int, j: int) {
    && 0 <= i < j < |invoices| && InSeries(invoices[i], prefix) && InSeries(invoices[j], prefix)
    && invoices[j].createdOn.None? && invoices[i].createdOn.Some? && invoices[i].createdOn.value > 0
  }

  ghost predicate TimelessAfterTimed(invoices: Invoices, prefix: string) {
    exists i, j :: TimelessAfter(invoices, prefix, i, j)
  }

  lemma {:induction false} OutOfOrderIsTimeless(invoices: Invoices, prefix: string, at: seq<nat>, i: nat, j: nat)
    requires FetchedByCreation(invoices) && Visited(invoices, prefix, at) && i < j < |at|
    ensures A.Series(invoices, prefix)[i].createdOn > A.Series(invoices, prefix)[j].createdOn
       <==> TimelessAfter(invoices, prefix, at[i], at[j])
  {
    assert Member(prefix)(invoices[at[i]]) && Member(prefix)(invoices[at[j]]);
    assert FetchedBefore(invoices[at[i]], invoices[at[j]]);
  }

  /** Fetched in that order, a series is out of order exactly when it has such a pair. */
  lemma {:induction false} UnsortedMeansTimeless(invoices: Invoices, prefix: string)
    requires FetchedByCreation(invoices)
    ensures (forall i, j :: 0 <= i < j < |A.Series(invoices, prefix)| ==>
              A.Series(invoices, prefix)[i].createdOn <= A.Series(invoices, prefix)[j].createdOn)
       <==> !TimelessAfterTimed(invoices, prefix)
  {
    var at := SeriesPositions(invoices, prefix);
    var series := A.Series(invoices, prefix);
    forall i, j | 0 <= i < j < |series|
      ensures series[i].createdOn > series[j].createdOn <==> TimelessAfter(invoices, prefix, at[i], at[j])
    {
      OutOfOrderIsTimeless(invoices, prefix, at, i, j);
    }
    if TimelessAfterTimed(invoices, prefix) {
      var x, y :| TimelessAfter(invoices, prefix, x, y);
      assert Member(prefix)(invoices[x]) && Member(prefix)(invoices[y]);
      var i := Q.PlaceOf(Member(prefix), invoices, at, x);
      var j := Q.PlaceOf(Member(prefix), invoices, at, y);
      assert series[i].createdOn > series[j].createdOn;
    }
  }

  ghost predicate HasInversion(invoices: Invoices, prefix: string) {
    exists a :: a in A.Continuity(prefix, A.Series(invoices, prefix)) && a.TimestampInversion?
  }

  /** So an inversion is found if and only if an invoice without creation time follows one created after 1970. */
  lemma {:induction false} InversionsAreTimeless(invoices: Invoices, prefix: string)
    requires FetchedByCreation(invoices)
    ensures HasInversion(invoices, prefix) <==> TimelessAfterTimed(invoices, prefix)
  {
    UnsortedMeansTimeless(invoices, prefix);
    A.InversionsMeanUnsorted(prefix, A.Series(invoices, prefix));
  }
}
