/**
 A ledger that invoicing alone has written: every entry is the journal of a
 sales invoice at a whole rate, or the reversal of one.  The audit finds nothing.
 */
module InvoicedLedger {
  import H = LedgerHash
  import A = LedgerAudit
  import I = InvoiceAccounting
  import N = LedgerNets
  import P = PostedLedger
  import Q = Sequences

  /** The stored line: the base amounts in units, everything else as the posting routine resolves it. */
  function Posted(resolve: I.JournalLine -> H.Line): (post: I.JournalLine -> H.Line) {
    j => resolve(j).(debit := j.debit as real / 100.0, credit := j.credit as real / 100.0)
  }

  /** An invoice whose taxes can all be posted, at a rate where base amounts do not drift. */
  ghost predicate Sound(inv: I.Invoice) {
    I.IsWholeRate(inv) && I.TaxesArePostable(inv.lines)
  }

  /**
   The journal of an invoice, or the reversal of that journal, with the accounts and
   default cost centres as they were resolved when it was posted.
   */
  datatype Origin = Origin(inv: I.Invoice, prefix: string, reversed: bool, resolve: I.JournalLine -> H.Line)

  ghost function Lines(o: Origin): (js: seq<I.JournalLine>) {
    if o.reversed then I.BuildReversal(I.Journal(o.inv), o.prefix) else I.Journal(o.inv)
  }

  ghost predicate ComesFrom(posting: P.Posting, o: Origin) {
    Sound(o.inv) && posting.payload.lines == Q.Map(Posted(o.resolve), Lines(o))
  }

  /** Every posting has an origin. */
  ghost predicate GrownByInvoicing(postings: seq<P.Posting>, origins: seq<Origin>) {
    |origins| == |postings| && forall k :: 0 <= k < |postings| ==> ComesFrom(postings[k], origins[k])
  }

  lemma {:induction false} SoundLinesBalance(o: Origin)
    requires Sound(o.inv)
    ensures I.Sum(I.BaseNet, Lines(o)) == 0
  {
    I.SoundInvoicesBalance(o.inv);
    I.ReversalNegatesSum(I.Journal(o.inv), o.prefix);
  }

  lemma {:induction false} CentsAdd(a: int, b: int)
    ensures (a + b) as real / 100.0 == a as real / 100.0 + b as real / 100.0
  {
  }

  lemma {:induction false} PostedNet(resolve: I.JournalLine -> H.Line, js: seq<I.JournalLine>)
    ensures N.PayloadNet(Q.Map(Posted(resolve), js)) == I.Sum(I.BaseNet, js) as real / 100.0
    decreases js
  {
    if js == [] {
    } else {
      var init, last := js[..|js| - 1], js[|js| - 1];
      PostedNet(resolve, init);
      CentsAdd(I.Sum(I.BaseNet, init), I.BaseNet(last));
      assert Q.Map(Posted(resolve), js)[..|js| - 1] == Q.Map(Posted(resolve), init);
    }
  }

  lemma {:induction false} PostingsBalance(postings: seq<P.Posting>, origins: seq<Origin>)
    requires GrownByInvoicing(postings, origins)
    ensures N.AllBalance(postings)
  {
    forall k | 0 <= k < |postings| ensures N.PayloadNet(postings[k].payload.lines) == 0.0 {
      assert ComesFrom(postings[k], origins[k]);
      SoundLinesBalance(origins[k]);
      PostedNet(origins[k].resolve, Lines(origins[k]));
    }
  }

  ghost predicate FreeOfAmbiguousLines(env: H.Env, postings: seq<P.Posting>) {
    forall k :: 0 <= k < |postings| ==> H.NoAmbiguousLines(env, postings[k].payload.lines)
  }

  /**
   Invoicing and cancelling at whole rates, the base currency's own among them,
   with the tax condition, leaves a ledger the audit passes in every fetch order:
   no unbalanced entry, a zero trial balance and, without ambiguous lines, an
   unbroken chain.
   */
  lemma {:induction false} InvoicedLedgerIsClean(env: H.Env, postings: seq<P.Posting>, origins: seq<Origin>,
                              entries: seq<A.JournalEntry>, lines: seq<A.JournalLine>)
    requires env.Valid() && P.DistinctPostings(postings) && P.Fetched(env, postings, entries, lines)
    requires GrownByInvoicing(postings, origins)
    ensures A.Unbalanced(entries, lines) == [] && A.CheckTrialBalance(lines) == []
    ensures FreeOfAmbiguousLines(env, postings) ==> H.ChainHolds(env, P.ChainEntries(entries, lines))
  {
    PostingsBalance(postings, origins);
    N.BalancedLedgerIsClean(env, postings, entries, lines);
    if FreeOfAmbiguousLines(env, postings) {
      P.PostedLedgerPasses(env, postings, entries, lines);
    }
  }
}
