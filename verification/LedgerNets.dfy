/** What the audit's balance checks say of a ledger the posting routine has written, in any fetch order. */
module LedgerNets {
  import H = LedgerHash
  import A = LedgerAudit
  import P = PostedLedger
  import Q = Sequences

  /** What an entry is out by. */
  function PayloadNet(ls: seq<H.Line>): (x: real) {
    if ls == [] then 0.0 else PayloadNet(ls[..|ls| - 1]) + ls[|ls| - 1].debit - ls[|ls| - 1].credit
  }

  function PostingIds(postings: seq<P.Posting>): (ids: seq<string>)
    ensures |ids| == |postings| && forall k :: 0 <= k < |ids| ==> ids[k] == postings[k].journalEntryId
  {
    seq(|postings|, k requires 0 <= k < |postings| => postings[k].journalEntryId)
  }

  /** What the entries of a ledger are out by together. */
  function LedgerNet(postings: seq<P.Posting>): (x: real) {
    if postings == [] then 0.0
    else LedgerNet(postings[..|postings| - 1]) + PayloadNet(postings[|postings| - 1].payload.lines)
  }

  lemma {:induction false} NetConcat(a: seq<A.JournalLine>, b: seq<A.JournalLine>, id: string)
    ensures A.NetOf(a + b, id) == A.NetOf(a, id) + A.NetOf(b, id)
    decreases b
  {
    if b == [] {
      assert a + b == a;
    } else {
      var init, last := b[..|b| - 1], b[|b| - 1];
      NetConcat(a, init, id);
      A.OneMoreLineCounts(a + init, last, id);
      A.OneMoreLineCounts(init, last, id);
      assert a + b == (a + init) + [last] && b == init + [last];
    }
  }

  /** The net of an entry does not depend on the fetch order. */
  lemma {:induction false} NetPermutes(a: seq<A.JournalLine>, b: seq<A.JournalLine>, id: string)
    requires multiset(a) == multiset(b)
    ensures A.NetOf(a, id) == A.NetOf(b, id)
    decreases |a|
  {
    assert |a| == |multiset(a)| == |multiset(b)| == |b|;
    if a == [] {
    } else {
      var j := Q.FindInPermutation(a, b);
      NetPermutes(a[1..], Q.Without(b, j), id);
      NetWithoutOne(a, 0, id);
      NetWithoutOne(b, j, id);
      assert Q.Without(a, 0) == a[1..];
    }
  }

  lemma {:induction false} NetWithoutOne(s: seq<A.JournalLine>, j: nat, id: string)
    requires j < |s|
    ensures A.NetOf(s, id) == A.NetOf(Q.Without(s, j), id) + A.NetOf([s[j]], id)
  {
    var before, one, after := s[..j], [s[j]], s[j + 1..];
    assert s == before + (one + after) && Q.Without(s, j) == before + after;
    NetConcat(before, one + after, id);
    NetConcat(one, after, id);
    NetConcat(before, after, id);
  }

  lemma {:induction false} TaggedNet(owner: string, ls: seq<H.Line>, id: string)
    ensures A.NetOf(P.TaggedLines(owner, ls), id) == if owner == id then PayloadNet(ls) else 0.0
    decreases ls
  {
    if ls == [] {
    } else {
      var init, last := ls[..|ls| - 1], ls[|ls| - 1];
      TaggedNet(owner, init, id);
      A.OneMoreLineCounts(P.TaggedLines(owner, init), A.JournalLine(owner, last), id);
      assert P.TaggedLines(owner, ls) == P.TaggedLines(owner, init) + [A.JournalLine(owner, last)];
    }
  }

  lemma {:induction false} StrangersHaveNoNet(postings: seq<P.Posting>, id: string)
    requires forall i :: 0 <= i < |postings| ==> postings[i].journalEntryId != id
    ensures A.NetOf(P.StoredLines(postings), id) == 0.0
    decreases postings
  {
    if postings == [] {
    } else {
      var init, last := postings[..|postings| - 1], postings[|postings| - 1];
      StrangersHaveNoNet(init, id);
      TaggedNet(last.journalEntryId, last.payload.lines, id);
      NetConcat(P.StoredLines(init), P.TaggedLines(last.journalEntryId, last.payload.lines), id);
    }
  }

  lemma {:induction false} StoredNet(postings: seq<P.Posting>, k: nat)
    requires P.DistinctPostings(postings) && k < |postings|
    ensures A.NetOf(P.StoredLines(postings), postings[k].journalEntryId) == PayloadNet(postings[k].payload.lines)
    decreases postings
  {
    var n, id := |postings| - 1, postings[k].journalEntryId;
    var init, last := postings[..n], postings[n];
    TaggedNet(last.journalEntryId, last.payload.lines, id);
    NetConcat(P.StoredLines(init), P.TaggedLines(last.journalEntryId, last.payload.lines), id);
    if k == n {
      StrangersHaveNoNet(init, id);
    } else {
      StoredNet(init, k);
    }
  }

  /** In every fetch order the audit finds each entry out by exactly what it was posted with. */
  lemma {:induction false} FetchedNet(postings: seq<P.Posting>, lines: seq<A.JournalLine>, k: nat)
    requires P.DistinctPostings(postings) && k < |postings| && multiset(lines) == multiset(P.StoredLines(postings))
    ensures A.NetOf(lines, postings[k].journalEntryId) == PayloadNet(postings[k].payload.lines)
  {
    NetPermutes(lines, P.StoredLines(postings), postings[k].journalEntryId);
    StoredNet(postings, k);
  }

  /** ... and flags it exactly when that is more than half a cent. */
  lemma {:induction false} FlaggedExactly(postings: seq<P.Posting>, lines: seq<A.JournalLine>, k: nat)
    requires P.DistinctPostings(postings) && k < |postings| && multiset(lines) == multiset(P.StoredLines(postings))
    ensures A.Flagged(lines, postings[k].journalEntryId) <==> A.Magnitude(PayloadNet(postings[k].payload.lines)) > 0.005
  {
    FetchedNet(postings, lines, k);
    A.NoLinesNoTotals(lines, postings[k].journalEntryId);
  }

  lemma {:induction false} StoredLinesAreOwned(postings: seq<P.Posting>)
    ensures forall l :: l in P.StoredLines(postings) ==> l.journalEntryId in PostingIds(postings)
    decreases postings
  {
    if postings == [] {
    } else {
      var init, last := postings[..|postings| - 1], postings[|postings| - 1];
      StoredLinesAreOwned(init);
      assert PostingIds(postings) == PostingIds(init) + [last.journalEntryId];
    }
  }

  lemma {:induction false} NetsOfPostings(postings: seq<P.Posting>, lines: seq<A.JournalLine>, n: nat)
    requires n <= |postings|
    requires forall k :: 0 <= k < n ==> A.NetOf(lines, postings[k].journalEntryId) == PayloadNet(postings[k].payload.lines)
    ensures A.SumOfNets(PostingIds(postings)[..n], lines) == LedgerNet(postings[..n])
    decreases n
  {
    if n == 0 {
    } else {
      NetsOfPostings(postings, lines, n - 1);
      assert PostingIds(postings)[..n][..n - 1] == PostingIds(postings)[..n - 1];
      assert postings[..n][..n - 1] == postings[..n - 1];
    }
  }

  /** The trial balance of the fetched lines is what all entries are out by together. */
  lemma {:induction false} FetchedTrialBalance(postings: seq<P.Posting>, lines: seq<A.JournalLine>)
    requires P.DistinctPostings(postings) && multiset(lines) == multiset(P.StoredLines(postings))
    ensures A.Net(lines) == LedgerNet(postings)
  {
    var ids, n := PostingIds(postings), |postings|;
    forall k | 0 <= k < n ensures A.NetOf(lines, postings[k].journalEntryId) == PayloadNet(postings[k].payload.lines) {
      FetchedNet(postings, lines, k);
    }
    NetsOfPostings(postings, lines, n);
    assert ids[..n] == ids && postings[..n] == postings;
    StoredLinesAreOwned(postings);
    forall l | l in lines ensures l.journalEntryId in ids {
      assert l in multiset(lines);
      assert l in P.StoredLines(postings);
    }
    A.NetsAddUp(ids, lines);
  }

  lemma {:induction false} NoneFlagged(entries: seq<A.JournalEntry>, lines: seq<A.JournalLine>)
    requires forall je :: je in entries ==> !A.Flagged(lines, je.journalEntryId)
    ensures A.Unbalanced(entries, lines) == []
    decreases entries
  {
    if entries == [] {
    } else {
      NoneFlagged(entries[..|entries| - 1], lines);
    }
  }

  lemma {:induction false} FetchedEntriesArePosted(
    env: H.Env, postings: seq<P.Posting>, entries: seq<A.JournalEntry>, je: A.JournalEntry)
    returns (k: nat)
    requires multiset(entries) == multiset(P.StoredEntries(env, postings)) && je in entries
    ensures k < |postings| && je.journalEntryId == postings[k].journalEntryId
  {
    assert je in multiset(entries);
    assert je in P.StoredEntries(env, postings);
    k :| 0 <= k < |postings| && P.StoredEntries(env, postings)[k] == je;
  }

  ghost predicate AllBalance(postings: seq<P.Posting>) {
    forall k :: 0 <= k < |postings| ==> PayloadNet(postings[k].payload.lines) == 0.0
  }

  lemma {:induction false} BalancedLedgerNet(postings: seq<P.Posting>)
    requires AllBalance(postings)
    ensures LedgerNet(postings) == 0.0
    decreases postings
  {
    if postings == [] {
    } else {
      BalancedLedgerNet(postings[..|postings| - 1]);
    }
  }

  /** A ledger whose entries all balance passes both balance checks in every fetch order. */
  lemma {:induction false} BalancedLedgerIsClean(
    env: H.Env, postings: seq<P.Posting>, entries: seq<A.JournalEntry>, lines: seq<A.JournalLine>)
    requires P.DistinctPostings(postings) && P.Fetched(env, postings, entries, lines) && AllBalance(postings)
    ensures A.Unbalanced(entries, lines) == [] && A.CheckTrialBalance(lines) == []
  {
    forall je | je in entries ensures !A.Flagged(lines, je.journalEntryId) {
      var k := FetchedEntriesArePosted(env, postings, entries, je);
      FlaggedExactly(postings, lines, k);
    }
    NoneFlagged(entries, lines);
    FetchedTrialBalance(postings, lines);
    BalancedLedgerNet(postings);
    A.TrialBalanceIsExact(lines);
  }
}
