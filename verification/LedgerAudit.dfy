/**
 The nightly ledger audit: numbering continuity, missing postings, double entry,
 the hash chain and the trial balance.  Each check is the source's loop over the
 fetched rows, proved against what the finding means.

 Amounts are real numbers, as the database's numeric columns hold exact decimals.
 */
module LedgerAudit {
  import opened Wrappers
  import opened JsonText
  import opened Rounding
  import H = LedgerHash
  import Q = Sequences

  // ---- Rows ----

  /** The creation time may be null; `historical` is the verdict of the import filter, which reads only the invoice and the take-on date. */
  datatype Invoice = Invoice(
    invoiceId: string, invoiceNumber: string, stateCode: string, createdOn: Option<int>, historical: bool)

  datatype JournalEntry = JournalEntry(
    journalEntryId: string,
    sequenceNumber: Option<int>,
    entryNumber: string,
    entryDate: string,
    sourceType: string,
    sourceId: Option<string>,
    memo: Option<string>,
    prevHash: Option<string>,
    entryHash: Option<string>)

  datatype JournalLine = JournalLine(journalEntryId: string, line: H.Line)

  datatype Anomaly =
    | SequenceGap(prefix: string, invoiceId: string, expected: int, actual: int)
    | TimestampInversion(invoiceId: string, current: int, previous: int)
    | MissingGlJournal(invoiceId: string)
    | MissingCancellationReversal(invoiceId: string)
    | UnbalancedJournalEntry(journalEntryId: string, totalDebit: real, totalCredit: real)
    | HashChainViolation(broken: H.Break)
    | TrialBalanceUnbalanced(drift: real)

  // ---- Grouping rows in a map, in row order ----

  function HasKey<K(==), V>(key: V -> Option<K>, k: K): (p: V -> bool) {
    v => key(v) == Some(k)
  }

  function Group<K(==), V(!new)>(key: V -> Option<K>, rows: seq<V>, k: K): (r: seq<V>) {
    Q.Filter(HasKey(key, k), rows)
  }

  /** Fills a map of lists: every row with a key joins the list of that key, in order. */
  method GroupBy<K(==), V(!new)>(key: V -> Option<K>, rows: seq<V>) returns (keys: seq<K>, groups: map<K, seq<V>>)
    ensures forall k :: k in keys <==> k in groups
    ensures forall k :: k in groups <==> exists v :: v in rows && key(v) == Some(k)
    ensures forall k :: k in groups ==> groups[k] == Group(key, rows, k)
  {
    keys, groups := [], map[];
    for i := 0 to |rows|
      invariant forall k :: k in keys <==> k in groups
      invariant forall k :: k in groups <==> exists v :: v in rows[..i] && key(v) == Some(k)
      invariant forall k :: k in groups ==> groups[k] == Group(key, rows[..i], k)
    {
      var row := rows[i];
      assert rows[..i + 1] == rows[..i] + [row];
      var was := groups;
      match key(row) {
        case None =>
        case Some(k) =>
          if k !in groups {
            keys := keys + [k];
            EmptyGroup(key, rows[..i], k);
            groups := groups[k := []];
          }
          groups := groups[k := groups[k] + [row]];
      }
      forall k | k in groups ensures groups[k] == Group(key, rows[..i + 1], k) {
        Q.FilterConcat(HasKey(key, k), rows[..i], [row]);
      }
    }
    assert rows[..|rows|] == rows;
  }

  lemma {:induction false} EmptyGroup<K, V(!new)>(key: V -> Option<K>, rows: seq<V>, k: K)
    requires forall v :: v in rows ==> key(v) != Some(k)
    ensures Group(key, rows, k) == []
    decreases rows
  {
    if rows == [] {
    } else {
      EmptyGroup(key, rows[1..], k);
    }
  }

  // ---- A. Numbering ----

  function TrailingDigits(s: string): (n: nat)
    ensures n <= |s| && forall i :: |s| - n <= i < |s| ==> IsDigit(s[i])
    ensures n < |s| ==> !IsDigit(s[|s| - n - 1])
  {
    if s == "" || !IsDigit(s[|s| - 1]) then 0 else 1 + TrailingDigits(s[..|s| - 1])
  }

  predicate IsLineTerminator(c: char) {
    c == '\n' || c == '\r' || c == '\U{2028}' || c == '\U{2029}'
  }

  /** The match of /^(.*?)(\d+)$/: all trailing digits, after a prefix on one line. */
  function SplitNumber(s: string): (r: Option<(string, string)>)
    ensures r.Some? <==>
      && s != "" && IsDigit(s[|s| - 1])
      && forall i :: 0 <= i < |s| ==> s[i] != '\n' && s[i] != '\r' && s[i] != '\U{2028}' && s[i] != '\U{2029}'
    ensures r.Some? ==>
      && s == r.value.0 + r.value.1 && r.value.1 != ""
      && (forall c :: c in r.value.1 ==> IsDigit(c))
      && (r.value.0 != "" ==> !IsDigit(r.value.0[|r.value.0| - 1]))
  {
    var n := TrailingDigits(s);
    var prefix := s[..|s| - n];
    if n == 0 || exists i :: 0 <= i < |prefix| && IsLineTerminator(prefix[i]) then None
    else Some((prefix, s[|s| - n..]))
  }

  function PrefixOf(inv: Invoice): (r: Option<string>) {
    var m := SplitNumber(inv.invoiceNumber);
    if m.Some? then Some(m.value.0) else None
  }

  function Operational(inv: Invoice): (b: bool) { !inv.historical }

  /** What the loop over a series reads of an invoice. */
  datatype Visit = Visit(invoiceId: string, number: int, createdOn: int)

  /** `new Date(inv.createdOn)`: a null counts as 1970. */
  function TimeOf(inv: Invoice): (t: int) {
    if inv.createdOn.Some? then inv.createdOn.value else 0
  }

  function VisitOf(inv: Invoice): (v: Visit) {
    var m := SplitNumber(inv.invoiceNumber);
    Visit(inv.invoiceId, if m.Some? then DigitsValue(m.value.1) else 0, TimeOf(inv))
  }

  /** The invoices a prefix is checked over, in fetch order. */
  function Kept(invoices: seq<Invoice>, prefix: string): (r: seq<Invoice>) {
    Q.Filter(Operational, Group(PrefixOf, invoices, prefix))
  }

  function Series(invoices: seq<Invoice>, prefix: string): (r: seq<Visit>) {
    Q.Map(VisitOf, Kept(invoices, prefix))
  }

  function Findings(prefix: string, earlier: Visit, later: Visit): (r: seq<Anomaly>) {
    var expected := earlier.number + 1;
    (if later.number > expected then [SequenceGap(prefix, later.invoiceId, expected, later.number)] else [])
    + (if later.createdOn < earlier.createdOn then [TimestampInversion(later.invoiceId, later.createdOn, earlier.createdOn)] else [])
  }

  /** The findings on a series: each invoice against the one visited just before it. */
  function Continuity(prefix: string, invs: seq<Visit>): (r: seq<Anomaly>) {
    if |invs| < 2 then []
    else Continuity(prefix, invs[..|invs| - 1]) + Findings(prefix, invs[|invs| - 2], invs[|invs| - 1])
  }

  /** The loop over one series. */
  method CheckSeries(prefix: string, invs: seq<Visit>) returns (anomalies: seq<Anomaly>)
    ensures anomalies == Continuity(prefix, invs)
  {
    anomalies := [];
    var expectedSeq: Option<int> := None;
    var prevCreatedOn: Option<int> := None;
    for i := 0 to |invs|
      invariant anomalies == Continuity(prefix, invs[..i])
      invariant expectedSeq == if i == 0 then None else Some(invs[i - 1].number + 1)
      invariant prevCreatedOn == if i == 0 then None else Some(invs[i - 1].createdOn)
    {
      var inv := invs[i];
      var currentSeq := inv.number;
      assert invs[..i + 1][..i] == invs[..i];
      if expectedSeq.Some? && currentSeq > expectedSeq.value {
        anomalies := anomalies + [SequenceGap(prefix, inv.invoiceId, expectedSeq.value, currentSeq)];
      }
      expectedSeq := Some(currentSeq + 1);
      if prevCreatedOn.Some? && inv.createdOn < prevCreatedOn.value {
        anomalies := anomalies + [TimestampInversion(inv.invoiceId, inv.createdOn, prevCreatedOn.value)];
      }
      prevCreatedOn := Some(inv.createdOn);
    }
    assert invs[..|invs|] == invs;
  }

  function SeriesOf(invoices: seq<Invoice>): (series: string -> seq<Visit>) {
    prefix => Series(invoices, prefix)
  }

  function AllContinuity(series: string -> seq<Visit>, prefixes: seq<string>): (r: seq<Anomaly>) {
    if prefixes == [] then []
    else
      var prefix := prefixes[|prefixes| - 1];
      AllContinuity(series, prefixes[..|prefixes| - 1]) + Continuity(prefix, series(prefix))
  }

  lemma {:induction false} AllContinuityHas(series: string -> seq<Visit>, prefixes: seq<string>, a: Anomaly)
    ensures a in AllContinuity(series, prefixes) <==>
      exists prefix :: prefix in prefixes && a in Continuity(prefix, series(prefix))
    decreases prefixes
  {
    if prefixes == [] {
    } else {
      var init, last := prefixes[..|prefixes| - 1], prefixes[|prefixes| - 1];
      AllContinuityHas(series, init, a);
      assert forall prefix :: prefix in prefixes <==> prefix in init || prefix == last;
    }
  }

  lemma {:induction false} NextPrefix(series: string -> seq<Visit>, prefixes: seq<string>, i: nat)
    requires i < |prefixes|
    ensures AllContinuity(series, prefixes[..i + 1])
         == AllContinuity(series, prefixes[..i]) + Continuity(prefixes[i], series(prefixes[i]))
  {
    assert prefixes[..i + 1][..i] == prefixes[..i];
  }

  lemma {:induction false} SeriesOfGroup(invoices: seq<Invoice>, prefix: string, group: seq<Invoice>)
    requires group == Group(PrefixOf, invoices, prefix)
    ensures SeriesOf(invoices)(prefix) == Q.Map(VisitOf, Q.Filter(Operational, group))
  {
  }

  /** Check A: the findings are those of the series of the prefixes that occur, and no others. */
  method CheckNumbering(invoices: seq<Invoice>) returns (prefixes: seq<string>, anomalies: seq<Anomaly>)
    ensures forall prefix :: prefix in prefixes <==> exists v :: v in invoices && PrefixOf(v) == Some(prefix)
    ensures anomalies == AllContinuity(SeriesOf(invoices), prefixes)
  {
    var byPrefix;
    prefixes, byPrefix := GroupBy(PrefixOf, invoices);
    ghost var series := SeriesOf(invoices);
    anomalies := [];
    for i := 0 to |prefixes|
      invariant anomalies == AllContinuity(series, prefixes[..i])
    {
      var prefix := prefixes[i];
      assert prefix in byPrefix;
      SeriesOfGroup(invoices, prefix, byPrefix[prefix]);
      var more := CheckSeries(prefix, Q.Map(VisitOf, Q.Filter(Operational, byPrefix[prefix])));
      NextPrefix(series, prefixes, i);
      anomalies := anomalies + more;
    }
    assert prefixes[..|prefixes|] == prefixes;
  }

  ghost predicate Covers(a: Anomaly, v: int) {
    a.SequenceGap? && a.expected <= v < a.actual
  }

  /** The finding is made at the k-th visit of the series. */
  ghost predicate FoundAt(prefix: string, invs: seq<Visit>, a: Anomaly, k: int) {
    0 < k < |invs| && a in Findings(prefix, invs[k - 1], invs[k])
  }

  lemma {:induction false} ContinuityHas(prefix: string, invs: seq<Visit>, a: Anomaly)
    ensures a in Continuity(prefix, invs) <==> exists k :: FoundAt(prefix, invs, a, k)
    decreases |invs|
  {
    if |invs| < 2 {
    } else {
      var init := invs[..|invs| - 1];
      ContinuityHas(prefix, init, a);
      forall k ensures FoundAt(prefix, invs, a, k) <==>
        FoundAt(prefix, init, a, k) || (k == |init| && a in Findings(prefix, invs[k - 1], invs[k]))
      {
      }
      assert FoundAt(prefix, invs, a, |init|) <==> a in Findings(prefix, invs[|invs| - 2], invs[|invs| - 1]);
    }
  }

  /** From visit i to visit j the number v is climbed over: passed without being visited in between. */
  ghost predicate ClimbsOver(invs: seq<Visit>, v: int, i: int, j: int) {
    && 0 <= i < j < |invs| && invs[i].number < v < invs[j].number
    && forall k :: i < k < j ==> invs[k].number != v
  }

  ghost predicate ClimbedOver(invs: seq<Visit>, v: int) {
    exists i, j :: ClimbsOver(invs, v, i, j)
  }

  ghost predicate Absent(invs: seq<Visit>, v: int) {
    forall x :: x in invs ==> x.number != v
  }

  /** Some reported gap of the series holds v. */
  ghost predicate ReportedMissing(prefix: string, invs: seq<Visit>, v: int) {
    exists a :: a in Continuity(prefix, invs) && Covers(a, v)
  }

  /** A climb has a single step that crosses the number. */
  lemma {:induction false} SomeStepCrosses(invs: seq<Visit>, v: int, i: nat, j: nat) returns (k: nat)
    requires ClimbsOver(invs, v, i, j)
    ensures ClimbsOver(invs, v, k, k + 1)
    decreases j - i
  {
    if invs[i + 1].number > v {
      k := i;
    } else {
      k := SomeStepCrosses(invs, v, i + 1, j);
    }
  }

  /**
   Gap detection is exact, for any visiting order and any number, present or
   absent: it is reported as missing if and only if it is climbed over.
   */
  lemma {:induction false} GapDetectionIsExact(prefix: string, invs: seq<Visit>, v: int)
    ensures ReportedMissing(prefix, invs, v) <==> ClimbedOver(invs, v)
  {
    if ReportedMissing(prefix, invs, v) {
      var a :| a in Continuity(prefix, invs) && Covers(a, v);
      ContinuityHas(prefix, invs, a);
      var k :| FoundAt(prefix, invs, a, k);
      assert ClimbsOver(invs, v, k - 1, k);
    }
    if ClimbedOver(invs, v) {
      var i, j :| ClimbsOver(invs, v, i, j);
      var k := SomeStepCrosses(invs, v, i, j);
      var a := SequenceGap(prefix, invs[k + 1].invoiceId, invs[k].number + 1, invs[k + 1].number);
      assert FoundAt(prefix, invs, a, k + 1);
      ContinuityHas(prefix, invs, a);
      assert Covers(a, v);
    }
  }

  /** An absent number is reported if and only if some smaller number was visited before some larger one. */
  lemma {:induction false} AbsentNumbersAreFound(prefix: string, invs: seq<Visit>, v: int)
    requires Absent(invs, v)
    ensures ReportedMissing(prefix, invs, v)
       <==> (exists i, j :: 0 <= i < j < |invs| && invs[i].number < v < invs[j].number)
  {
    GapDetectionIsExact(prefix, invs, v);
    if i, j :| 0 <= i < j < |invs| && invs[i].number < v < invs[j].number {
      assert ClimbsOver(invs, v, i, j);
    }
  }

  /** Only absent numbers are reported if and only if no number of the series is climbed over. */
  lemma {:induction false} OnlyAbsentNumbersAreReported(prefix: string, invs: seq<Visit>)
    ensures (forall v :: ReportedMissing(prefix, invs, v) ==> Absent(invs, v))
       <==> (forall x :: x in invs ==> !ClimbedOver(invs, x.number))
  {
    forall v ensures ReportedMissing(prefix, invs, v) <==> ClimbedOver(invs, v) {
      GapDetectionIsExact(prefix, invs, v);
    }
  }

  function MissingCount(anomalies: seq<Anomaly>): (n: int) {
    if anomalies == [] then 0
    else
      var a := anomalies[|anomalies| - 1];
      MissingCount(anomalies[..|anomalies| - 1]) + if a.SequenceGap? then a.actual - a.expected else 0
  }

  lemma {:induction false} MissingCountConcat(a: seq<Anomaly>, b: seq<Anomaly>)
    ensures MissingCount(a + b) == MissingCount(a) + MissingCount(b)
    decreases b
  {
    if b == [] {
      assert a + b == a;
    } else {
      assert (a + b)[..|a + b| - 1] == a + b[..|b| - 1];
      MissingCountConcat(a, b[..|b| - 1]);
    }
  }

  lemma {:induction false} MissingCountOfOne(a: Anomaly)
    ensures MissingCount([a]) == if a.SequenceGap? then a.actual - a.expected else 0
  {
    assert [a][..0] == [];
  }

  ghost predicate Increasing(invs: seq<Visit>) {
    forall i, j :: 0 <= i < j < |invs| ==> invs[i].number < invs[j].number
  }

  /** On an increasing series the reported intervals hold only absent numbers. */
  lemma {:induction false} IncreasingSeriesReportsAbsentOnly(prefix: string, invs: seq<Visit>, v: int)
    requires Increasing(invs) && ReportedMissing(prefix, invs, v)
    ensures Absent(invs, v)
  {
    GapDetectionIsExact(prefix, invs, v);
    var i, j :| ClimbsOver(invs, v, i, j);
    var k := SomeStepCrosses(invs, v, i, j);
    forall x | x in invs ensures x.number != v {
      var m :| 0 <= m < |invs| && invs[m] == x;
      assert m < k || m == k || m == k + 1 || m > k + 1;
    }
  }

  /** ... and the missing counts add up to the numbers that are absent between the first and the last. */
  lemma {:induction false} IncreasingSeriesCountsAbsences(prefix: string, invs: seq<Visit>)
    requires Increasing(invs) && invs != []
    ensures MissingCount(Continuity(prefix, invs)) == invs[|invs| - 1].number - invs[0].number + 1 - |invs|
    decreases |invs|
  {
    if |invs| < 2 {
    } else {
      var init := invs[..|invs| - 1];
      var more := Findings(prefix, invs[|invs| - 2], invs[|invs| - 1]);
      assert init[0] == invs[0] && init[|init| - 1] == invs[|invs| - 2];
      assert Continuity(prefix, invs) == Continuity(prefix, init) + more;
      IncreasingSeriesCountsAbsences(prefix, init);
      MissingCountConcat(Continuity(prefix, init), more);
      FindingsCount(prefix, invs[|invs| - 2], invs[|invs| - 1]);
    }
  }

  lemma {:induction false} FindingsCount(prefix: string, earlier: Visit, later: Visit)
    requires earlier.number < later.number
    ensures MissingCount(Findings(prefix, earlier, later)) == later.number - earlier.number - 1
  {
    var gap := SequenceGap(prefix, later.invoiceId, earlier.number + 1, later.number);
    var late := TimestampInversion(later.invoiceId, later.createdOn, earlier.createdOn);
    var gaps := if later.number > earlier.number + 1 then [gap] else [];
    var lates := if later.createdOn < earlier.createdOn then [late] else [];
    assert Findings(prefix, earlier, later) == gaps + lates;
    MissingCountConcat(gaps, lates);
    MissingCountOfOne(gap);
    MissingCountOfOne(late);
  }

  /**
   Out of order the intervals can hold numbers that exist: visited as 8, 10, 9, as
   when two invoices share a creation time and sort as text, 9 is climbed over.
   */
  lemma {:induction false} OutOfOrderReportsPresent(prefix: string, invs: seq<Visit>)
    requires |invs| == 3 && invs[0].number == 8 && invs[1].number == 10 && invs[2].number == 9
    ensures ReportedMissing(prefix, invs, invs[2].number) && !Absent(invs, invs[2].number)
  {
    assert ClimbsOver(invs, 9, 0, 1) && invs[2] in invs;
    GapDetectionIsExact(prefix, invs, 9);
  }

  /**
   An inversion is reported exactly when the times compared are not in ascending
   order.
   */
  lemma {:induction false} InversionsMeanUnsorted(prefix: string, invs: seq<Visit>)
    ensures (exists a :: a in Continuity(prefix, invs) && a.TimestampInversion?)
       <==> !(forall i, j :: 0 <= i < j < |invs| ==> invs[i].createdOn <= invs[j].createdOn)
  {
    if a :| a in Continuity(prefix, invs) && a.TimestampInversion? {
      ContinuityHas(prefix, invs, a);
      var k :| FoundAt(prefix, invs, a, k);
      assert invs[k - 1].createdOn > invs[k].createdOn;
    } else {
      forall k | 0 < k < |invs| ensures invs[k - 1].createdOn <= invs[k].createdOn {
        if invs[k].createdOn < invs[k - 1].createdOn {
          var a := TimestampInversion(invs[k].invoiceId, invs[k].createdOn, invs[k - 1].createdOn);
          assert FoundAt(prefix, invs, a, k);
          ContinuityHas(prefix, invs, a);
          assert false;
        }
      }
      AdjacentOrderIsOrder(invs);
    }
  }

  lemma {:induction false} AdjacentOrderIsOrder(invs: seq<Visit>)
    requires forall k :: 0 < k < |invs| ==> invs[k - 1].createdOn <= invs[k].createdOn
    ensures forall i, j :: 0 <= i < j < |invs| ==> invs[i].createdOn <= invs[j].createdOn
    decreases |invs|
  {
    if |invs| <= 1 {
    } else {
      var init := invs[..|invs| - 1];
      AdjacentOrderIsOrder(init);
      forall i, j | 0 <= i < j < |invs| ensures invs[i].createdOn <= invs[j].createdOn {
        assert init[i] == invs[i] && init[|init| - 1] == invs[|init| - 1];
        if j < |init| {
          assert init[j] == invs[j];
        } else if i < |init| - 1 {
          assert init[i].createdOn <= init[|init| - 1].createdOn;
        }
      }
    }
  }

  // ---- B. Postings ----

  function SourceKey(je: JournalEntry): (k: Option<string>) { H.OrNull(je.sourceId) }

  /** Some entry names the invoice as its source; an empty id names nothing. */
  ghost predicate HasJournal(entries: seq<JournalEntry>, invoiceId: string, sourceType: string) {
    invoiceId != "" && exists je :: je in entries && je.sourceId == Some(invoiceId) && je.sourceType == sourceType
  }

  /** An invoice that should have been posted and was not. */
  ghost predicate LacksPosting(entries: seq<JournalEntry>, inv: Invoice) {
    inv.stateCode != "draft" && !HasJournal(entries, inv.invoiceId, "sales_invoice")
  }

  ghost predicate LacksReversal(entries: seq<JournalEntry>, inv: Invoice) {
    inv.stateCode == "cancelled" && !HasJournal(entries, inv.invoiceId, "sales_invoice_reversal")
  }

  /** The body of the loop for one invoice, given the entries it is the source of. */
  method CheckPosting(
    inv: Invoice, journals: seq<JournalEntry>, ghost entries: seq<JournalEntry>) returns (anomalies: seq<Anomaly>)
    requires forall je :: je in journals <==> je in entries && SourceKey(je) == Some(inv.invoiceId)
    ensures MissingGlJournal(inv.invoiceId) in anomalies <==> LacksPosting(entries, inv)
    ensures MissingCancellationReversal(inv.invoiceId) in anomalies <==> LacksReversal(entries, inv)
    ensures forall a :: a in anomalies ==> a == MissingGlJournal(inv.invoiceId) || a == MissingCancellationReversal(inv.invoiceId)
  {
    anomalies := [];
    if inv.stateCode != "draft" {
      var hasPosting := exists je :: je in journals && je.sourceType == "sales_invoice";
      if !hasPosting {
        anomalies := anomalies + [MissingGlJournal(inv.invoiceId)];
      }
      if inv.stateCode == "cancelled" {
        var hasReversal := exists je :: je in journals && je.sourceType == "sales_invoice_reversal";
        if !hasReversal {
          anomalies := anomalies + [MissingCancellationReversal(inv.invoiceId)];
        }
      }
    }
  }

  /** The report names an id exactly when it is that of an operational invoice that lacks its posting, or its reversal. */
  ghost predicate NamesMissingOf(report: seq<Anomaly>, invoices: seq<Invoice>, entries: seq<JournalEntry>, id: string) {
    && (MissingGlJournal(id) in report <==>
          exists inv :: inv in invoices && inv.invoiceId == id && !inv.historical && LacksPosting(entries, inv))
    && (MissingCancellationReversal(id) in report <==>
          exists inv :: inv in invoices && inv.invoiceId == id && !inv.historical && LacksReversal(entries, inv))
  }

  ghost predicate NamesMissingPostings(report: seq<Anomaly>, invoices: seq<Invoice>, entries: seq<JournalEntry>) {
    forall id :: NamesMissingOf(report, invoices, entries, id)
  }

  ghost predicate IsPosting(a: Anomaly) {
    a.MissingGlJournal? || a.MissingCancellationReversal?
  }

  /** What the body of the loop finds for one invoice. */
  ghost predicate FoundFor(inv: Invoice, entries: seq<JournalEntry>, found: seq<Anomaly>) {
    && (MissingGlJournal(inv.invoiceId) in found <==> LacksPosting(entries, inv))
    && (MissingCancellationReversal(inv.invoiceId) in found <==> LacksReversal(entries, inv))
    && forall a :: a in found ==> a == MissingGlJournal(inv.invoiceId) || a == MissingCancellationReversal(inv.invoiceId)
  }

  lemma {:induction false} OneMoreInvoice(
    report: seq<Anomaly>, invoices: seq<Invoice>, entries: seq<JournalEntry>, inv: Invoice, found: seq<Anomaly>, id: string)
    requires NamesMissingOf(report, invoices, entries, id) && FoundFor(inv, entries, found) && Operational(inv)
    ensures NamesMissingOf(report + found, invoices + [inv], entries, id)
  {
    assert forall x :: x in invoices + [inv] <==> x in invoices || x == inv;
  }

  lemma {:induction false} OnlyOperationalCount(
    report: seq<Anomaly>, invoices: seq<Invoice>, entries: seq<JournalEntry>, id: string)
    ensures NamesMissingOf(report, Q.Filter(Operational, invoices), entries, id) <==> NamesMissingOf(report, invoices, entries, id)
  {
  }

  /** Check B. */
  method CheckPostings(invoices: seq<Invoice>, entries: seq<JournalEntry>) returns (anomalies: seq<Anomaly>)
    ensures NamesMissingPostings(anomalies, invoices, entries)
    ensures forall a :: a in anomalies ==> IsPosting(a)
  {
    var _, bySource := GroupBy(SourceKey, entries);
    var operational := Q.Filter(Operational, invoices);
    anomalies := [];
    for i := 0 to |operational|
      invariant forall id :: NamesMissingOf(anomalies, operational[..i], entries, id)
      invariant forall a :: a in anomalies ==> IsPosting(a)
    {
      var inv := operational[i];
      ghost var before, some := anomalies, operational[..i + 1];
      assert some == operational[..i] + [inv] && inv in operational;
      var journals := if inv.invoiceId in bySource then bySource[inv.invoiceId] else [];
      var more := CheckPosting(inv, journals, entries);
      anomalies := anomalies + more;
      forall id ensures NamesMissingOf(anomalies, some, entries, id) {
        OneMoreInvoice(before, operational[..i], entries, inv, more, id);
      }
    }
    assert operational[..|operational|] == operational;
    forall id ensures NamesMissingOf(anomalies, invoices, entries, id) {
      OnlyOperationalCount(anomalies, invoices, entries, id);
    }
  }

  // ---- C. Double entry ----

  predicate HasLines(lines: seq<JournalLine>, id: string) {
    exists l :: l in lines && l.journalEntryId == id
  }

  function DebitOf(lines: seq<JournalLine>, id: string): (x: real) {
    if lines == [] then 0.0
    else
      var l := lines[|lines| - 1];
      DebitOf(lines[..|lines| - 1], id) + if l.journalEntryId == id then l.line.debit else 0.0
  }

  function CreditOf(lines: seq<JournalLine>, id: string): (x: real) {
    if lines == [] then 0.0
    else
      var l := lines[|lines| - 1];
      CreditOf(lines[..|lines| - 1], id) + if l.journalEntryId == id then l.line.credit else 0.0
  }

  /** What the map of totals holds for one entry. */
  ghost predicate TotalIs(totals: map<string, (real, real)>, lines: seq<JournalLine>, id: string) {
    && (id in totals <==> HasLines(lines, id))
    && (id in totals ==> totals[id] == (DebitOf(lines, id), CreditOf(lines, id)))
  }

  function AddLine(totals: map<string, (real, real)>, l: JournalLine): (r: map<string, (real, real)>) {
    var current := if l.journalEntryId in totals then totals[l.journalEntryId] else (0.0, 0.0);
    totals[l.journalEntryId := (current.0 + l.line.debit, current.1 + l.line.credit)]
  }

  lemma {:induction false} AddedLineIsInTotals(
    totals: map<string, (real, real)>, lines: seq<JournalLine>, l: JournalLine, id: string)
    requires TotalIs(totals, lines, id)
    ensures TotalIs(AddLine(totals, l), lines + [l], id)
  {
    OneMoreLineCounts(lines, l, id);
    NoLinesNoTotals(lines, id);
  }

  /** Accumulates the totals of all entries in one pass over all lines. */
  method AccumulateTotals(lines: seq<JournalLine>) returns (totals: map<string, (real, real)>)
    ensures forall id :: TotalIs(totals, lines, id)
  {
    totals := map[];
    for i := 0 to |lines|
      invariant forall id :: TotalIs(totals, lines[..i], id)
    {
      var was, line := totals, lines[i];
      var current := if line.journalEntryId in totals then totals[line.journalEntryId] else (0.0, 0.0);
      totals := totals[line.journalEntryId := (current.0 + line.line.debit, current.1 + line.line.credit)];
      ghost var some := lines[..i + 1];
      assert some == lines[..i] + [line];
      forall id ensures TotalIs(totals, some, id) {
        AddedLineIsInTotals(was, lines[..i], line, id);
      }
    }
    assert lines[..|lines|] == lines;
  }

  lemma {:induction false} OneMoreLineCounts(lines: seq<JournalLine>, l: JournalLine, id: string)
    ensures HasLines(lines + [l], id) <==> HasLines(lines, id) || id == l.journalEntryId
    ensures DebitOf(lines + [l], id) == DebitOf(lines, id) + if id == l.journalEntryId then l.line.debit else 0.0
    ensures CreditOf(lines + [l], id) == CreditOf(lines, id) + if id == l.journalEntryId then l.line.credit else 0.0
  {
    assert (lines + [l])[..|lines|] == lines;
    assert l in lines + [l] && forall x :: x in lines ==> x in lines + [l];
  }

  lemma {:induction false} NoLinesNoTotals(lines: seq<JournalLine>, id: string)
    ensures !HasLines(lines, id) ==> DebitOf(lines, id) == CreditOf(lines, id) == 0.0
    decreases lines
  {
    if lines == [] {
    } else {
      var init, last := lines[..|lines| - 1], lines[|lines| - 1];
      assert lines == init + [last];
      NoLinesNoTotals(init, id);
      OneMoreLineCounts(init, last, id);
    }
  }

  function NetOf(lines: seq<JournalLine>, id: string): (x: real) {
    DebitOf(lines, id) - CreditOf(lines, id)
  }

  function Magnitude(x: real): (r: real) {
    if x < 0.0 then -x else x
  }

  /** Has lines, and they are out by more than half a cent. */
  predicate Flagged(lines: seq<JournalLine>, id: string) {
    HasLines(lines, id) && Magnitude(NetOf(lines, id)) > 0.005
  }

  function Unbalanced(entries: seq<JournalEntry>, lines: seq<JournalLine>): (r: seq<Anomaly>) {
    if entries == [] then []
    else
      var id := entries[|entries| - 1].journalEntryId;
      Unbalanced(entries[..|entries| - 1], lines)
        + if Flagged(lines, id) then [UnbalancedJournalEntry(id, DebitOf(lines, id), CreditOf(lines, id))] else []
  }

  /** Check C: the entries whose lines do not balance, in fetch order. */
  method CheckDoubleEntry(entries: seq<JournalEntry>, lines: seq<JournalLine>) returns (anomalies: seq<Anomaly>)
    ensures anomalies == Unbalanced(entries, lines)
  {
    var totalsByEntry := AccumulateTotals(lines);
    anomalies := [];
    for i := 0 to |entries|
      invariant anomalies == Unbalanced(entries[..i], lines)
    {
      var id := entries[i].journalEntryId;
      assert entries[..i + 1][..i] == entries[..i];
      assert TotalIs(totalsByEntry, lines, id);
      if id in totalsByEntry {
        var totals := totalsByEntry[id];
        var drift := Magnitude(totals.0 - totals.1);
        if drift > 0.005 {
          anomalies := anomalies + [UnbalancedJournalEntry(id, totals.0, totals.1)];
        }
      }
    }
    assert entries[..|entries|] == entries;
  }

  lemma {:induction false} UnbalancedIsFlagged(entries: seq<JournalEntry>, lines: seq<JournalLine>, id: string)
    ensures forall a :: a in Unbalanced(entries, lines) ==>
      && a.UnbalancedJournalEntry?
      && a.totalDebit == DebitOf(lines, a.journalEntryId) && a.totalCredit == CreditOf(lines, a.journalEntryId)
    ensures (exists a :: a in Unbalanced(entries, lines) && a.journalEntryId == id)
       <==> (exists je :: je in entries && je.journalEntryId == id) && Flagged(lines, id)
    decreases entries
  {
    if entries == [] {
    } else {
      var init, last := entries[..|entries| - 1], entries[|entries| - 1];
      UnbalancedIsFlagged(init, lines, id);
      assert forall je :: je in entries <==> je in init || je == last;
    }
  }

  ghost predicate CentLines(lines: seq<JournalLine>) {
    forall l :: l in lines ==> WholeCents(l.line.debit) && WholeCents(l.line.credit)
  }

  lemma {:induction false} TotalsAreWholeCents(lines: seq<JournalLine>, id: string)
    requires CentLines(lines)
    ensures WholeCents(DebitOf(lines, id)) && WholeCents(CreditOf(lines, id))
    decreases lines
  {
    if lines == [] {
    } else {
      var init, last := lines[..|lines| - 1], lines[|lines| - 1];
      TotalsAreWholeCents(init, id);
      WholeCentsAdd(DebitOf(init, id), last.line.debit);
      WholeCentsAdd(CreditOf(init, id), last.line.credit);
    }
  }

  /** On whole cents an entry with lines is flagged exactly when debit and credit differ. */
  lemma {:induction false} FlaggedMeansUnequal(lines: seq<JournalLine>, id: string)
    requires CentLines(lines)
    ensures Flagged(lines, id) <==> HasLines(lines, id) && DebitOf(lines, id) != CreditOf(lines, id)
  {
    TotalsAreWholeCents(lines, id);
    WholeCentsAdd(DebitOf(lines, id), CreditOf(lines, id));
    var n := (NetOf(lines, id) * 100.0).Floor;
    assert n != 0 ==> n >= 1 || n <= -1;
  }

  // ---- E. Trial balance ----

  function Net(lines: seq<JournalLine>): (x: real) {
    if lines == [] then 0.0
    else Net(lines[..|lines| - 1]) + lines[|lines| - 1].line.debit - lines[|lines| - 1].line.credit
  }

  /** JavaScript's Math.round: halves go up. */
  function MathRound(x: real): (n: int) { (x + 0.5).Floor }

  function TrialDrift(lines: seq<JournalLine>): (x: real) {
    MathRound(Net(lines) * 100.0) as real / 100.0
  }

  function CheckTrialBalance(lines: seq<JournalLine>): (anomalies: seq<Anomaly>) {
    if Magnitude(TrialDrift(lines)) > 0.005 then [TrialBalanceUnbalanced(TrialDrift(lines))] else []
  }

  function SumOfNets(ids: seq<string>, lines: seq<JournalLine>): (x: real) {
    if ids == [] then 0.0 else SumOfNets(ids[..|ids| - 1], lines) + NetOf(lines, ids[|ids| - 1])
  }

  ghost predicate DistinctIds(ids: seq<string>) {
    forall i, j :: 0 <= i < j < |ids| ==> ids[i] != ids[j]
  }

  lemma {:induction false} OneMoreLine(ids: seq<string>, lines: seq<JournalLine>, l: JournalLine)
    requires DistinctIds(ids)
    ensures SumOfNets(ids, lines + [l]) == SumOfNets(ids, lines)
      + if l.journalEntryId in ids then l.line.debit - l.line.credit else 0.0
    decreases ids
  {
    assert (lines + [l])[..|lines|] == lines;
    if ids == [] {
    } else {
      var init := ids[..|ids| - 1];
      OneMoreLine(init, lines, l);
      assert forall id :: id in ids <==> id in init || id == ids[|ids| - 1];
    }
  }

  /** Regrouping the lines by entry loses nothing when every line's entry is among the distinct ids. */
  lemma {:induction false} NetsAddUp(ids: seq<string>, lines: seq<JournalLine>)
    requires DistinctIds(ids) && forall l :: l in lines ==> l.journalEntryId in ids
    ensures SumOfNets(ids, lines) == Net(lines)
    decreases lines
  {
    if lines == [] {
      NothingAddsUp(ids);
    } else {
      var init, last := lines[..|lines| - 1], lines[|lines| - 1];
      NetsAddUp(ids, init);
      OneMoreLine(ids, init, last);
      assert lines == init + [last];
    }
  }

  lemma {:induction false} NothingAddsUp(ids: seq<string>)
    ensures SumOfNets(ids, []) == 0.0
    decreases ids
  {
    if ids == [] {
    } else {
      NothingAddsUp(ids[..|ids| - 1]);
    }
  }

  ghost function Times(n: nat, x: real): (r: real) {
    if n == 0 then 0.0 else Times(n - 1, x) + x
  }

  lemma {:induction false} TimesIsProduct(n: nat, x: real)
    ensures Times(n, x) == n as real * x
  {
    if n == 0 {
    } else {
      TimesIsProduct(n - 1, x);
      assert n as real == (n - 1) as real + 1.0;
      assert n as real * x == (n - 1) as real * x + x;
    }
  }

  lemma {:induction false} SumOfSmallNets(ids: seq<string>, lines: seq<JournalLine>, bound: real)
    requires forall id :: id in ids ==> -bound <= NetOf(lines, id) <= bound
    ensures -Times(|ids|, bound) <= SumOfNets(ids, lines) <= Times(|ids|, bound)
    decreases ids
  {
    if ids == [] {
    } else {
      SumOfSmallNets(ids[..|ids| - 1], lines, bound);
    }
  }

  /**
   When every line belongs to a fetched entry and no entry is flagged, the ledger
   is out by at most half a cent per entry.
   */
  lemma {:induction false} UnflaggedLedgerIsNearlyBalanced(ids: seq<string>, lines: seq<JournalLine>)
    requires DistinctIds(ids) && (forall l :: l in lines ==> l.journalEntryId in ids)
    requires forall id :: id in ids ==> !Flagged(lines, id)
    ensures -(|ids| as real * 0.005) <= Net(lines) <= |ids| as real * 0.005
  {
    forall id | id in ids ensures -0.005 <= NetOf(lines, id) <= 0.005 {
      NoLinesNoTotals(lines, id);
    }
    SumOfSmallNets(ids, lines, 0.005);
    TimesIsProduct(|ids|, 0.005);
    NetsAddUp(ids, lines);
  }

  /** On whole cents it is exactly balanced, so the trial balance is never reported alone. */
  lemma {:induction false} TrialBalanceNeverFailsAlone(ids: seq<string>, lines: seq<JournalLine>)
    requires DistinctIds(ids) && (forall l :: l in lines ==> l.journalEntryId in ids)
    requires CentLines(lines) && forall id :: id in ids ==> !Flagged(lines, id)
    ensures Net(lines) == 0.0 && CheckTrialBalance(lines) == []
  {
    forall id | id in ids ensures -0.0 <= NetOf(lines, id) <= 0.0 {
      NoLinesNoTotals(lines, id);
      FlaggedMeansUnequal(lines, id);
    }
    SumOfSmallNets(ids, lines, 0.0);
    TimesIsProduct(|ids|, 0.0);
    NetsAddUp(ids, lines);
  }

  /** What the check reports, for any lines: the ends are those of Math.round, which takes -0.005 to zero and 0.005 to a cent. */
  lemma {:induction false} TrialBalanceIsExact(lines: seq<JournalLine>)
    ensures CheckTrialBalance(lines) == [] <==> -0.005 <= Net(lines) < 0.005
  {
    var n := MathRound(Net(lines) * 100.0);
    assert n == 0 <==> -0.005 <= Net(lines) < 0.005;
    assert n != 0 ==> n >= 1 || n <= -1;
  }

  /** The drift it reports is the nearest cent, halves up. */
  lemma {:induction false} ReportedDriftIsNearest(lines: seq<JournalLine>) returns (cents: int)
    requires CheckTrialBalance(lines) != []
    ensures CheckTrialBalance(lines) == [TrialBalanceUnbalanced(Amount(cents))]
    ensures -0.5 < cents as real - Net(lines) * 100.0 <= 0.5
  {
    cents := MathRound(Net(lines) * 100.0);
  }

  /**
   Exactly when the trial balance is reported alone: no entry is out by more than
   half a cent, and together they are out by at least half a cent.
   */
  lemma {:induction false} TrialBalanceAloneExactly(ids: seq<string>, lines: seq<JournalLine>)
    requires DistinctIds(ids) && forall l :: l in lines ==> l.journalEntryId in ids
    ensures CheckTrialBalance(lines) != [] && (forall id :: id in ids ==> !Flagged(lines, id))
       <==> && (forall id :: id in ids ==> -0.005 <= NetOf(lines, id) <= 0.005)
            && !(-0.005 <= SumOfNets(ids, lines) < 0.005)
  {
    forall id ensures Flagged(lines, id) <==> !(-0.005 <= NetOf(lines, id) <= 0.005) {
      NoLinesNoTotals(lines, id);
    }
    TrialBalanceIsExact(lines);
    NetsAddUp(ids, lines);
  }

  /** With a single entry that leaves one case: it is out by exactly half a cent on the debit side. */
  lemma {:induction false} SingleEntryTrialBalance(id: string, lines: seq<JournalLine>)
    requires forall l :: l in lines ==> l.journalEntryId == id
    ensures CheckTrialBalance(lines) != [] && !Flagged(lines, id) <==> NetOf(lines, id) == 0.005
  {
    TrialBalanceAloneExactly([id], lines);
    assert [id][..0] == [] && SumOfNets([id], lines) == NetOf(lines, id);
  }
}
