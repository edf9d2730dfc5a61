/** The audit as a whole: the checks one after the other into one report, and what the report means. */
module LedgerIntegrity {
  import opened Wrappers
  import H = LedgerHash
  import A = LedgerAudit
  import P = PostedLedger
  import Q = Sequences
  import V = InvoiceSeries

  type Report = seq<A.Anomaly>

  /** Some reported gap of the series holds the number. */
  ghost predicate ReportsMissing(report: Report, prefix: string, v: int) {
    exists a :: a in report && A.Covers(a, v) && a.prefix == prefix
  }

  ghost predicate ReportsUnbalanced(report: Report, id: string) {
    exists a :: a in report && a.UnbalancedJournalEntry? && a.journalEntryId == id
  }

  ghost predicate ReportsBrokenChain(report: Report) {
    exists a :: a in report && a.HashChainViolation?
  }

  ghost predicate ReportsInversion(report: Report) {
    exists a :: a in report && a.TimestampInversion?
  }

  ghost predicate ReportsTrialBalance(report: Report) {
    exists a :: a in report && a.TrialBalanceUnbalanced?
  }

  ghost predicate HasEntry(entries: seq<A.JournalEntry>, id: string) {
    exists je :: je in entries && je.journalEntryId == id
  }

  function EntryId(je: A.JournalEntry): (id: string) { je.journalEntryId }

  /** Entry ids are unique and every line belongs to an entry, as the schema demands. */
  ghost predicate OwnedRows(entries: seq<A.JournalEntry>, lines: seq<A.JournalLine>) {
    && A.DistinctIds(Q.Map(EntryId, entries))
    && forall l :: l in lines ==> HasEntry(entries, l.journalEntryId)
  }

  // ---- The kinds of findings of each check ----

  ghost predicate IsNumbering(a: A.Anomaly) { a.SequenceGap? || a.TimestampInversion? }

  lemma {:induction false} UnusedPrefixHasNoSeries(invoices: seq<A.Invoice>, prefix: string)
    requires forall v :: v in invoices ==> A.PrefixOf(v) != Some(prefix)
    ensures A.Series(invoices, prefix) == []
  {
    A.EmptyGroup(A.PrefixOf, invoices, prefix);
  }

  ghost predicate Occurring(invoices: seq<A.Invoice>, prefixes: seq<string>) {
    forall prefix :: prefix in prefixes <==> exists v :: v in invoices && A.PrefixOf(v) == Some(prefix)
  }

  lemma {:induction false} ContinuityIsOfPrefix(prefix: string, invs: seq<A.Visit>, a: A.Anomaly)
    requires a in A.Continuity(prefix, invs)
    ensures IsNumbering(a) && (a.SequenceGap? ==> a.prefix == prefix)
  {
    A.ContinuityHas(prefix, invs, a);
    var k :| A.FoundAt(prefix, invs, a, k);
  }

  /** Whatever the prefixes that occur, the findings are those of some series. */
  lemma {:induction false} NumberingIsOfSeries(invoices: seq<A.Invoice>, prefixes: seq<string>, a: A.Anomaly)
    requires Occurring(invoices, prefixes)
    ensures a in A.AllContinuity(A.SeriesOf(invoices), prefixes)
       <==> exists prefix :: a in A.Continuity(prefix, A.Series(invoices, prefix))
  {
    A.AllContinuityHas(A.SeriesOf(invoices), prefixes, a);
    if prefix :| a in A.Continuity(prefix, A.Series(invoices, prefix)) {
      if prefix !in prefixes {
        UnusedPrefixHasNoSeries(invoices, prefix);
      }
      assert A.SeriesOf(invoices)(prefix) == A.Series(invoices, prefix);
    }
  }

  /** Of gaps and inversions the report holds exactly those of the series. */
  ghost predicate HoldsNumbering(report: Report, invoices: seq<A.Invoice>) {
    forall a :: IsNumbering(a) ==> (a in report <==> exists prefix :: a in A.Continuity(prefix, A.Series(invoices, prefix)))
  }

  /** Of gaps and inversions the report holds exactly those between neighbours of a series. */
  ghost predicate NamesNumbering(report: Report, invoices: seq<A.Invoice>) {
    forall a :: IsNumbering(a) ==> (a in report <==> exists prefix :: V.Found(invoices, prefix, a))
  }

  lemma {:induction false} NumberingIsFound(invoices: seq<A.Invoice>, a: A.Anomaly)
    ensures (exists prefix :: a in A.Continuity(prefix, A.Series(invoices, prefix))) <==> exists prefix :: V.Found(invoices, prefix, a)
  {
    if prefix :| a in A.Continuity(prefix, A.Series(invoices, prefix)) {
      V.ContinuityIsFound(invoices, prefix, a);
    }
    if prefix :| V.Found(invoices, prefix, a) {
      V.ContinuityIsFound(invoices, prefix, a);
    }
  }

  lemma {:induction false} HeldNumberingIsNamed(report: Report, invoices: seq<A.Invoice>)
    requires HoldsNumbering(report, invoices)
    ensures NamesNumbering(report, invoices)
  {
    forall a | IsNumbering(a) ensures a in report <==> exists prefix :: V.Found(invoices, prefix, a) {
      NumberingIsFound(invoices, a);
    }
  }

  /** In the whole report a number is missing from a series if and only if the invoices pass it. */
  lemma {:induction false} MissingNumbersAreReported(invoices: seq<A.Invoice>, report: Report, prefix: string, v: int)
    requires HoldsNumbering(report, invoices)
    ensures ReportsMissing(report, prefix, v) <==> V.Passed(invoices, prefix, v)
  {
    var series := A.Series(invoices, prefix);
    V.ClimbedOverIsPassed(invoices, prefix, v);
    A.GapDetectionIsExact(prefix, series, v);
    if ReportsMissing(report, prefix, v) {
      var a :| a in report && A.Covers(a, v) && a.prefix == prefix;
      var p :| a in A.Continuity(p, A.Series(invoices, p));
      ContinuityIsOfPrefix(p, A.Series(invoices, p), a);
    }
    if A.ReportedMissing(prefix, series, v) {
      var a :| a in A.Continuity(prefix, series) && A.Covers(a, v);
      ContinuityIsOfPrefix(prefix, series, a);
    }
  }

  lemma {:induction false} InversionIsReported(report: Report, invoices: seq<A.Invoice>, prefix: string)
    requires HoldsNumbering(report, invoices) && V.HasInversion(invoices, prefix)
    ensures ReportsInversion(report)
  {
    var a :| a in A.Continuity(prefix, A.Series(invoices, prefix)) && a.TimestampInversion?;
    assert IsNumbering(a) && a in report;
  }

  lemma {:induction false} ReportedInversionIsOfSeries(report: Report, invoices: seq<A.Invoice>) returns (prefix: string)
    requires HoldsNumbering(report, invoices) && ReportsInversion(report)
    ensures V.HasInversion(invoices, prefix)
  {
    var a :| a in report && a.TimestampInversion?;
    assert IsNumbering(a);
    prefix :| a in A.Continuity(prefix, A.Series(invoices, prefix));
  }

  /**
   On invoices in the order they are fetched, there is an inversion exactly when in
   some series one without creation time follows one created after 1970.
   */
  lemma {:induction false} InversionsNeedMissingTimes(report: Report, invoices: seq<A.Invoice>)
    requires HoldsNumbering(report, invoices) && V.FetchedByCreation(invoices)
    ensures ReportsInversion(report) <==> exists prefix :: V.TimelessAfterTimed(invoices, prefix)
  {
    if ReportsInversion(report) {
      var prefix := ReportedInversionIsOfSeries(report, invoices);
      V.InversionsAreTimeless(invoices, prefix);
    }
    if prefix :| V.TimelessAfterTimed(invoices, prefix) {
      V.InversionsAreTimeless(invoices, prefix);
      InversionIsReported(report, invoices, prefix);
    }
  }

  lemma {:induction false} UnbalancedAreReported(
    entries: seq<A.JournalEntry>, lines: seq<A.JournalLine>, report: Report, id: string)
    requires forall a: A.Anomaly :: a.UnbalancedJournalEntry? ==> (a in report <==> a in A.Unbalanced(entries, lines))
    ensures ReportsUnbalanced(report, id) <==> HasEntry(entries, id) && A.Flagged(lines, id)
  {
    A.UnbalancedIsFlagged(entries, lines, id);
  }

  lemma {:induction false} OwnersAreIds(entries: seq<A.JournalEntry>, lines: seq<A.JournalLine>)
    requires OwnedRows(entries, lines)
    ensures forall l :: l in lines ==> l.journalEntryId in Q.Map(EntryId, entries)
    ensures forall id :: id in Q.Map(EntryId, entries) <==> HasEntry(entries, id)
  {
    var ids := Q.Map(EntryId, entries);
    forall id | id in ids ensures HasEntry(entries, id) {
      var i :| 0 <= i < |ids| && ids[i] == id;
      assert entries[i] in entries;
    }
    forall id | HasEntry(entries, id) ensures id in ids {
      var je :| je in entries && je.journalEntryId == id;
      var i :| 0 <= i < |entries| && entries[i] == je;
      assert ids[i] == id;
    }
  }

  /** On whole cents the trial balance is never the only thing wrong: some entry is reported as well. */
  lemma {:induction false} TrialBalanceIsNeverAlone(entries: seq<A.JournalEntry>, lines: seq<A.JournalLine>) returns (id: string)
    requires OwnedRows(entries, lines) && A.CentLines(lines) && A.CheckTrialBalance(lines) != []
    ensures HasEntry(entries, id) && A.Flagged(lines, id)
  {
    var ids := Q.Map(EntryId, entries);
    OwnersAreIds(entries, lines);
    if forall x :: x in ids ==> !A.Flagged(lines, x) {
      A.TrialBalanceNeverFailsAlone(ids, lines);
      assert false;
    }
    id :| id in ids && A.Flagged(lines, id);
  }

  /** What the entries are out by together, none of them by more than half a cent. */
  ghost predicate SmallDriftsAddUp(entries: seq<A.JournalEntry>, lines: seq<A.JournalLine>) {
    && (forall id :: HasEntry(entries, id) ==> -0.005 <= A.NetOf(lines, id) <= 0.005)
    && !(-0.005 <= A.SumOfNets(Q.Map(EntryId, entries), lines) < 0.005)
  }

  lemma {:induction false} TrialBalanceIsAloneExactly(entries: seq<A.JournalEntry>, lines: seq<A.JournalLine>)
    requires OwnedRows(entries, lines)
    ensures A.CheckTrialBalance(lines) != [] && (forall id :: HasEntry(entries, id) ==> !A.Flagged(lines, id))
       <==> SmallDriftsAddUp(entries, lines)
  {
    OwnersAreIds(entries, lines);
    A.TrialBalanceAloneExactly(Q.Map(EntryId, entries), lines);
  }

  // ---- The audit ----

  /** Exactly the numbers that the invoices pass are reported as missing. */
  ghost predicate NamesMissingNumbers(report: Report, invoices: seq<A.Invoice>) {
    forall prefix, v :: ReportsMissing(report, prefix, v) <==> V.Passed(invoices, prefix, v)
  }

  /** There is an inversion exactly when in some series an invoice without creation time follows one created after 1970. */
  ghost predicate NamesInversions(report: Report, invoices: seq<A.Invoice>) {
    ReportsInversion(report) <==> exists prefix :: V.TimelessAfterTimed(invoices, prefix)
  }

  /** Exactly the entries with lines that are out by more than half a cent are reported. */
  ghost predicate NamesUnbalanced(report: Report, entries: seq<A.JournalEntry>, lines: seq<A.JournalLine>) {
    forall id :: ReportsUnbalanced(report, id) <==> HasEntry(entries, id) && A.Flagged(lines, id)
  }

  ghost predicate ChainFindings(chain: Report) {
    forall a :: a in chain ==> a.HashChainViolation?
  }

  ghost predicate PostingFindings(postings: Report) {
    forall a :: a in postings ==> A.IsPosting(a)
  }

  lemma {:induction false} NumberingIsRight(invoices: seq<A.Invoice>, prefixes: seq<string>, report: Report)
    requires Occurring(invoices, prefixes)
    requires forall a :: IsNumbering(a) ==> (a in report <==> a in A.AllContinuity(A.SeriesOf(invoices), prefixes))
    ensures NamesNumbering(report, invoices) && NamesMissingNumbers(report, invoices)
    ensures V.FetchedByCreation(invoices) ==> NamesInversions(report, invoices)
  {
    forall a | IsNumbering(a) ensures a in report <==> exists prefix :: a in A.Continuity(prefix, A.Series(invoices, prefix)) {
      NumberingIsOfSeries(invoices, prefixes, a);
    }
    HeldNumberingIsNamed(report, invoices);
    forall prefix, v ensures ReportsMissing(report, prefix, v) <==> V.Passed(invoices, prefix, v) {
      MissingNumbersAreReported(invoices, report, prefix, v);
    }
    if V.FetchedByCreation(invoices) {
      InversionsNeedMissingTimes(report, invoices);
    }
  }

  lemma {:induction false} PostingsAreRight(
    invoices: seq<A.Invoice>, entries: seq<A.JournalEntry>, postings: Report, report: Report)
    requires A.NamesMissingPostings(postings, invoices, entries)
    requires forall a :: A.IsPosting(a) ==> (a in report <==> a in postings)
    ensures A.NamesMissingPostings(report, invoices, entries)
  {
    forall id ensures A.NamesMissingOf(report, invoices, entries, id) {
      assert A.NamesMissingOf(postings, invoices, entries, id);
    }
  }

  lemma {:induction false} BalancesAreRight(entries: seq<A.JournalEntry>, lines: seq<A.JournalLine>, report: Report)
    requires forall a: A.Anomaly :: a.UnbalancedJournalEntry? ==> (a in report <==> a in A.Unbalanced(entries, lines))
    ensures NamesUnbalanced(report, entries, lines)
  {
    forall id ensures ReportsUnbalanced(report, id) <==> HasEntry(entries, id) && A.Flagged(lines, id) {
      UnbalancedAreReported(entries, lines, report, id);
    }
  }

  lemma {:induction false} ReportIsRight(
    invoices: seq<A.Invoice>, prefixes: seq<string>, entries: seq<A.JournalEntry>, lines: seq<A.JournalLine>,
    postings: Report, chain: Report, report: Report)
    requires Occurring(invoices, prefixes) && A.NamesMissingPostings(postings, invoices, entries)
    requires PostingFindings(postings) && ChainFindings(chain)
    requires report == A.AllContinuity(A.SeriesOf(invoices), prefixes) + postings
                     + A.Unbalanced(entries, lines) + chain + A.CheckTrialBalance(lines)
    ensures NamesNumbering(report, invoices) && NamesMissingNumbers(report, invoices)
    ensures V.FetchedByCreation(invoices) ==> NamesInversions(report, invoices)
    ensures A.NamesMissingPostings(report, invoices, entries) && NamesUnbalanced(report, entries, lines)
    ensures ReportsBrokenChain(report) <==> chain != []
    ensures ReportsTrialBalance(report) <==> A.CheckTrialBalance(lines) != []
  {
    var numbering, balances := A.AllContinuity(A.SeriesOf(invoices), prefixes), A.Unbalanced(entries, lines);
    forall a | a in numbering ensures IsNumbering(a) {
      NumberingIsOfSeries(invoices, prefixes, a);
      var prefix :| a in A.Continuity(prefix, A.Series(invoices, prefix));
      ContinuityIsOfPrefix(prefix, A.Series(invoices, prefix), a);
    }
    A.UnbalancedIsFlagged(entries, lines, "");
    SplitReport(report, numbering, postings, balances, chain, A.CheckTrialBalance(lines));
    NumberingIsRight(invoices, prefixes, report);
    PostingsAreRight(invoices, entries, postings, report);
    BalancesAreRight(entries, lines, report);
  }

  /** Each kind of finding comes from one check only. */
  lemma {:induction false} SplitReport(
    report: Report, numbering: Report, postings: Report, balances: Report, chain: Report, trial: Report)
    requires report == numbering + postings + balances + chain + trial
    requires forall a :: a in numbering ==> IsNumbering(a)
    requires forall a :: a in postings ==> A.IsPosting(a)
    requires forall a :: a in balances ==> a.UnbalancedJournalEntry?
    requires forall a :: a in chain ==> a.HashChainViolation?
    requires forall a :: a in trial ==> a.TrialBalanceUnbalanced?
    ensures forall a :: IsNumbering(a) ==> (a in report <==> a in numbering)
    ensures forall a :: A.IsPosting(a) ==> (a in report <==> a in postings)
    ensures forall a: A.Anomaly :: a.UnbalancedJournalEntry? ==> (a in report <==> a in balances)
    ensures ReportsBrokenChain(report) <==> chain != []
    ensures ReportsTrialBalance(report) <==> trial != []
  {
    assert forall a :: a in report <==> a in numbering || a in postings || a in balances || a in chain || a in trial;
    if chain != [] {
      assert chain[0] in chain;
    }
    if trial != [] {
      assert trial[0] in trial;
    }
  }

  /** The trial balance is reported and no entry is. */
  ghost predicate TrialBalanceAlone(report: Report) {
    ReportsTrialBalance(report) && forall id :: !ReportsUnbalanced(report, id)
  }

  lemma {:induction false} AloneExactly(report: Report, entries: seq<A.JournalEntry>, lines: seq<A.JournalLine>)
    requires OwnedRows(entries, lines) && NamesUnbalanced(report, entries, lines)
    requires ReportsTrialBalance(report) <==> A.CheckTrialBalance(lines) != []
    ensures TrialBalanceAlone(report) <==> SmallDriftsAddUp(entries, lines)
    ensures A.CentLines(lines) ==> !TrialBalanceAlone(report)
  {
    TrialBalanceIsAloneExactly(entries, lines);
    if A.CentLines(lines) && ReportsTrialBalance(report) {
      var id := TrialBalanceIsNeverAlone(entries, lines);
      assert ReportsUnbalanced(report, id);
    }
  }

  method VerifyLedgerIntegrity(env: H.Env, invoices: seq<A.Invoice>, entries: seq<A.JournalEntry>, lines: seq<A.JournalLine>)
    returns (report: Report)
    ensures NamesNumbering(report, invoices) && NamesMissingNumbers(report, invoices)
    ensures V.FetchedByCreation(invoices) ==> NamesInversions(report, invoices)
    ensures A.NamesMissingPostings(report, invoices, entries)
    ensures NamesUnbalanced(report, entries, lines)
    ensures ReportsBrokenChain(report) <==> !H.ChainHolds(env, P.ChainEntries(entries, lines))
    ensures ReportsTrialBalance(report) <==> !(-0.005 <= A.Net(lines) < 0.005)
    ensures OwnedRows(entries, lines) ==>
      && (TrialBalanceAlone(report) <==> SmallDriftsAddUp(entries, lines))
      && (A.CentLines(lines) ==> !TrialBalanceAlone(report))
  {
    var prefixes, numbering := A.CheckNumbering(invoices);
    var postings := A.CheckPostings(invoices, entries);
    var balances := A.CheckDoubleEntry(entries, lines);
    var chain := P.CheckChain(env, entries, lines);
    var trial := A.CheckTrialBalance(lines);
    report := numbering + postings + balances + chain + trial;
    ReportIsRight(invoices, prefixes, entries, lines, postings, chain, report);
    A.TrialBalanceIsExact(lines);
    if OwnedRows(entries, lines) {
      AloneExactly(report, entries, lines);
    }
  }
}
