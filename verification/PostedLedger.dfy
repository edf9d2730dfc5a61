/**
 The audit of the hash chain, and what it says about a ledger that only the
 posting routine has written: entries sealed one after the other, read back in
 whatever order the database returns entries and lines.
 */
module PostedLedger {
  import opened Wrappers
  import H = LedgerHash
  import A = LedgerAudit
  import Q = Sequences
  import S = StableSort

  // ---- D. The chain check ----

  function Sequenced(je: A.JournalEntry): (b: bool) { je.sequenceNumber.Some? }

  function SequenceOrder(): (leq: (A.JournalEntry, A.JournalEntry) -> bool) {
    (a, b) => Number(a) <= Number(b)
  }

  function Number(je: A.JournalEntry): (n: int) {
    if je.sequenceNumber.Some? then je.sequenceNumber.value else 0
  }

  function EntryKey(l: A.JournalLine): (k: Option<string>) { Some(l.journalEntryId) }

  function LineOf(l: A.JournalLine): (r: H.Line) {
    l.line.(costCenterId := H.OrNull(l.line.costCenterId), activityId := H.OrNull(l.line.activityId),
            partyType := H.OrNull(l.line.partyType), partyId := H.OrNull(l.line.partyId))
  }

  /** The lines of one entry, in fetch order. */
  function LinesOf(lines: seq<A.JournalLine>, id: string): (r: seq<H.Line>) {
    Q.Map(LineOf, A.Group(EntryKey, lines, id))
  }

  function ChainEntry(je: A.JournalEntry, lines: seq<H.Line>): (e: H.Entry) {
    H.Entry(
      H.Payload(Number(je), je.entryNumber, je.entryDate, je.sourceType, H.OrNull(je.sourceId), H.OrNull(je.memo), lines),
      H.OrEmpty(je.prevHash), H.OrEmpty(je.entryHash))
  }

  /** The journal the verifier is given: the sequenced entries by number, each with its lines. */
  function ChainEntries(entries: seq<A.JournalEntry>, lines: seq<A.JournalLine>): (r: seq<H.Entry>)
    ensures var sorted := S.Sort(SequenceOrder(), Q.Filter(Sequenced, entries));
      |r| == |sorted| && forall i :: 0 <= i < |r| ==> r[i] == ChainEntry(sorted[i], LinesOf(lines, sorted[i].journalEntryId))
  {
    Q.Map((je: A.JournalEntry) => ChainEntry(je, LinesOf(lines, je.journalEntryId)),
          S.Sort(SequenceOrder(), Q.Filter(Sequenced, entries)))
  }

  /** Assembles the journal from the rows. */
  method BuildChain(sequenced: seq<A.JournalEntry>, lines: seq<A.JournalLine>) returns (chain: seq<H.Entry>)
    ensures |chain| == |sequenced|
    ensures forall i :: 0 <= i < |chain| ==> chain[i] == ChainEntry(sequenced[i], LinesOf(lines, sequenced[i].journalEntryId))
  {
    var _, linesByEntry := A.GroupBy(EntryKey, lines);
    chain := [];
    for i := 0 to |sequenced|
      invariant |chain| == i
      invariant forall j :: 0 <= j < i ==> chain[j] == ChainEntry(sequenced[j], LinesOf(lines, sequenced[j].journalEntryId))
    {
      var e := sequenced[i];
      MissingGroup(lines, e.journalEntryId);
      var group := if e.journalEntryId in linesByEntry then linesByEntry[e.journalEntryId] else [];
      chain := chain + [ChainEntry(e, Q.Map(LineOf, group))];
    }
  }

  /** b says where the chain breaks and why. */
  ghost predicate Explains(env: H.Env, chain: seq<H.Entry>, b: H.Break) {
    exists i: nat :: i < |chain| && H.PrefixHolds(env, chain, i) && H.Diagnoses(env, chain, i, b)
  }

  /** Check D: a violation is reported exactly when the chain does not hold, and says where it breaks. */
  method CheckChain(env: H.Env, entries: seq<A.JournalEntry>, lines: seq<A.JournalLine>) returns (anomalies: seq<A.Anomaly>)
    ensures anomalies == [] <==> H.ChainHolds(env, ChainEntries(entries, lines))
    ensures anomalies != [] ==>
      exists b :: anomalies == [A.HashChainViolation(b)] && Explains(env, ChainEntries(entries, lines), b)
  {
    anomalies := [];
    var sequenced := S.Sort(SequenceOrder(), Q.Filter(Sequenced, entries));
    if |sequenced| > 0 {
      var chain := BuildChain(sequenced, lines);
      assert chain == ChainEntries(entries, lines);
      var result := H.VerifyJournalChain(env, chain);
      if !result.isValid {
        assert Explains(env, chain, result.broken.value);
        anomalies := [A.HashChainViolation(result.broken.value)];
      }
    }
  }

  lemma {:induction false} MissingGroup(lines: seq<A.JournalLine>, id: string)
    ensures !(exists l :: l in lines && EntryKey(l) == Some(id)) ==> A.Group(EntryKey, lines, id) == []
  {
    if !(exists l :: l in lines && EntryKey(l) == Some(id)) {
      A.EmptyGroup(EntryKey, lines, id);
    }
  }

  // ---- The ledger as it is posted ----

  /** One call of the posting routine; the sequence number is assigned when it is sealed. */
  datatype Posting = Posting(journalEntryId: string, payload: H.Payload)

  function Sealed(env: H.Env, postings: seq<Posting>): (r: seq<H.Entry>)
    ensures |r| == |postings|
  {
    if postings == [] then []
    else
      var before := Sealed(env, postings[..|postings| - 1]);
      before + [H.Seal(env, before, postings[|postings| - 1].payload)]
  }

  lemma {:induction false} SealedHolds(env: H.Env, postings: seq<Posting>)
    ensures H.ChainHolds(env, Sealed(env, postings))
    ensures forall i :: 0 <= i < |postings| ==>
      Sealed(env, postings)[i].payload == postings[i].payload.(sequenceNumber := i + 1)
    decreases postings
  {
    if postings == [] {
    } else {
      var init := postings[..|postings| - 1];
      SealedHolds(env, init);
      var e := H.Seal(env, Sealed(env, init), postings[|postings| - 1].payload);
      H.AppendingKeepsTheChain(env, Sealed(env, init), e);
    }
  }

  /** The row written for a sealed entry. */
  function StoredEntry(id: string, e: H.Entry): (je: A.JournalEntry) {
    A.JournalEntry(id, Some(e.payload.sequenceNumber), e.payload.entryNumber, e.payload.entryDate,
      e.payload.sourceType, e.payload.sourceId, e.payload.memo, Some(e.prevHash), Some(e.entryHash))
  }

  function StoredEntries(env: H.Env, postings: seq<Posting>): (r: seq<A.JournalEntry>)
    ensures |r| == |postings|
  {
    seq(|postings|, i requires 0 <= i < |postings| => StoredEntry(postings[i].journalEntryId, Sealed(env, postings)[i]))
  }

  function Tag(id: string): (f: H.Line -> A.JournalLine) {
    l => A.JournalLine(id, l)
  }

  function TaggedLines(id: string, ls: seq<H.Line>): (r: seq<A.JournalLine>)
    ensures |r| == |ls| && forall i :: 0 <= i < |ls| ==> r[i] == A.JournalLine(id, ls[i])
  {
    Q.Map(Tag(id), ls)
  }

  function StoredLines(postings: seq<Posting>): (r: seq<A.JournalLine>) {
    if postings == [] then []
    else
      var last := postings[|postings| - 1];
      StoredLines(postings[..|postings| - 1]) + TaggedLines(last.journalEntryId, last.payload.lines)
  }

  ghost predicate DistinctPostings(postings: seq<Posting>) {
    forall i, j :: 0 <= i < j < |postings| ==> postings[i].journalEntryId != postings[j].journalEntryId
  }

  /** Exactly the stored rows, in any order. */
  ghost predicate Fetched(env: H.Env, postings: seq<Posting>, entries: seq<A.JournalEntry>, lines: seq<A.JournalLine>) {
    && multiset(entries) == multiset(StoredEntries(env, postings))
    && multiset(lines) == multiset(StoredLines(postings))
  }

  lemma {:induction false} SequenceOrderIsPreorder()
    ensures S.TotalPreorder(SequenceOrder())
  {
  }

  lemma {:induction false} StoredEntriesAreSorted(env: H.Env, postings: seq<Posting>)
    ensures var stored := StoredEntries(env, postings);
      S.Sorted(SequenceOrder(), stored) && S.TiesAreEqual(SequenceOrder(), stored)
  {
    StoredEntriesAreNumbered(env, postings);
    NumberedIsSorted(StoredEntries(env, postings));
  }

  lemma {:induction false} StoredEntriesAreNumbered(env: H.Env, postings: seq<Posting>)
    ensures var stored := StoredEntries(env, postings);
      forall i :: 0 <= i < |stored| ==> Number(stored[i]) == i + 1
  {
    SealedHolds(env, postings);
  }

  lemma {:induction false} NumberedIsSorted(stored: seq<A.JournalEntry>)
    requires forall i :: 0 <= i < |stored| ==> Number(stored[i]) == i + 1
    ensures S.Sorted(SequenceOrder(), stored) && S.TiesAreEqual(SequenceOrder(), stored)
  {
    forall x, y | x in stored && y in stored && S.Tied(SequenceOrder(), x, y) ensures x == y {
      var i :| 0 <= i < |stored| && stored[i] == x;
      var j :| 0 <= j < |stored| && stored[j] == y;
    }
  }

  lemma {:induction false} StoredEntriesAreSequenced(env: H.Env, postings: seq<Posting>, entries: seq<A.JournalEntry>)
    requires multiset(entries) == multiset(StoredEntries(env, postings))
    ensures Q.Filter(Sequenced, entries) == entries
  {
    var stored := StoredEntries(env, postings);
    forall je | je in entries ensures Sequenced(je) {
      assert je in multiset(stored);
      assert je in stored;
    }
    KeepAll(Sequenced, entries);
  }

  /** Sorting by number undoes whatever order the entries were fetched in. */
  lemma {:induction false} SortingRecoversEntries(env: H.Env, postings: seq<Posting>, entries: seq<A.JournalEntry>)
    requires multiset(entries) == multiset(StoredEntries(env, postings))
    ensures S.Sort(SequenceOrder(), Q.Filter(Sequenced, entries)) == StoredEntries(env, postings)
  {
    SequenceOrderIsPreorder();
    StoredEntriesAreSorted(env, postings);
    StoredEntriesAreSequenced(env, postings, entries);
    S.SortSorts(SequenceOrder(), entries);
    S.SortKeepsElements(SequenceOrder(), entries);
    S.SortedIsUnique(SequenceOrder(), StoredEntries(env, postings), S.Sort(SequenceOrder(), entries));
  }

  lemma {:induction false} KeepAll<T(!new)>(p: T -> bool, s: seq<T>)
    requires forall x :: x in s ==> p(x)
    ensures Q.Filter(p, s) == s
    decreases s
  {
    if s == [] {
    } else {
      assert s[0] in s && forall x :: x in s[1..] ==> x in s;
      KeepAll(p, s[1..]);
      assert s == [s[0]] + s[1..];
    }
  }

  lemma {:induction false} StoredLinesOf(postings: seq<Posting>, k: nat)
    requires DistinctPostings(postings) && k < |postings|
    ensures A.Group(EntryKey, StoredLines(postings), postings[k].journalEntryId)
         == TaggedLines(postings[k].journalEntryId, postings[k].payload.lines)
    decreases postings
  {
    var id := postings[k].journalEntryId;
    var init, last := postings[..|postings| - 1], postings[|postings| - 1];
    var mine := TaggedLines(last.journalEntryId, last.payload.lines);
    Q.FilterConcat(A.HasKey(EntryKey, id), StoredLines(init), mine);
    if k == |postings| - 1 {
      forall l | l in mine ensures A.HasKey(EntryKey, id)(l) {
        assert EntryKey(l) == Some(id);
      }
      KeepAll(A.HasKey(EntryKey, id), mine);
      OthersHaveNone(init, id);
    } else {
      StoredLinesOf(init, k);
      A.EmptyGroup(EntryKey, mine, id);
    }
  }

  lemma {:induction false} OthersHaveNone(postings: seq<Posting>, id: string)
    requires forall i :: 0 <= i < |postings| ==> postings[i].journalEntryId != id
    ensures A.Group(EntryKey, StoredLines(postings), id) == []
    decreases postings
  {
    if postings == [] {
    } else {
      var init, last := postings[..|postings| - 1], postings[|postings| - 1];
      var mine := TaggedLines(last.journalEntryId, last.payload.lines);
      OthersHaveNone(init, id);
      A.EmptyGroup(EntryKey, mine, id);
      Q.FilterConcat(A.HasKey(EntryKey, id), StoredLines(init), mine);
    }
  }

  /** The lines of an entry come back with the same elements they were posted with. */
  lemma {:induction false} FetchedLinesAreThePosted(postings: seq<Posting>, lines: seq<A.JournalLine>, k: nat)
    requires DistinctPostings(postings) && k < |postings|
    requires multiset(lines) == multiset(StoredLines(postings))
    ensures multiset(LinesOf(lines, postings[k].journalEntryId)) == multiset(Q.Map(Normal, postings[k].payload.lines))
  {
    var id := postings[k].journalEntryId;
    Q.FilterKeepsElements(A.HasKey(EntryKey, id), lines, StoredLines(postings));
    StoredLinesOf(postings, k);
    var tagged := TaggedLines(id, postings[k].payload.lines);
    Q.MapKeepsElements(LineOf, A.Group(EntryKey, lines, id), tagged);
    assert Q.Map(LineOf, tagged) == Q.Map(Normal, postings[k].payload.lines);
  }

  /** A line with its empty texts as nulls; it has the same canonical form. */
  function Normal(l: H.Line): (r: H.Line) {
    l.(costCenterId := H.OrNull(l.costCenterId), activityId := H.OrNull(l.activityId),
       partyType := H.OrNull(l.partyType), partyId := H.OrNull(l.partyId))
  }

  /** The payload the verifier sees for posting k. */
  function Reread(postings: seq<Posting>, lines: seq<A.JournalLine>, k: nat): (p: H.Payload)
    requires k < |postings|
  {
    var p := postings[k].payload;
    H.Payload(k + 1, p.entryNumber, p.entryDate, p.sourceType, H.OrNull(p.sourceId), H.OrNull(p.memo),
              LinesOf(lines, postings[k].journalEntryId))
  }

  lemma {:induction false} ChainEntriesOfFetched(
    env: H.Env, postings: seq<Posting>, entries: seq<A.JournalEntry>, lines: seq<A.JournalLine>)
    requires multiset(entries) == multiset(StoredEntries(env, postings))
    ensures var chain, sealed := ChainEntries(entries, lines), Sealed(env, postings);
      |chain| == |postings| && forall k :: 0 <= k < |postings| ==>
        chain[k] == H.Entry(Reread(postings, lines, k), sealed[k].prevHash, sealed[k].entryHash)
  {
    SortingRecoversEntries(env, postings, entries);
    SealedHolds(env, postings);
  }

  /** The text hashed for the reread payload is the text that was sealed. */
  ghost predicate RereadsAlike(env: H.Env, postings: seq<Posting>, lines: seq<A.JournalLine>, k: nat)
    requires k < |postings|
  {
    H.PayloadText(env, Reread(postings, lines, k)) == H.PayloadText(env, Sealed(env, postings)[k].payload)
  }

  /** chain has the payloads of the reread postings and the hashes of the sealed ones. */
  ghost predicate IsReread(env: H.Env, postings: seq<Posting>, lines: seq<A.JournalLine>, chain: seq<H.Entry>, sealed: seq<H.Entry>) {
    && |chain| == |sealed| == |postings| && sealed == Sealed(env, postings)
    && forall k :: 0 <= k < |postings| ==>
         chain[k] == H.Entry(Reread(postings, lines, k), sealed[k].prevHash, sealed[k].entryHash)
  }

  lemma {:induction false} RereadLinkHolds(
    env: H.Env, postings: seq<Posting>, lines: seq<A.JournalLine>, chain: seq<H.Entry>, sealed: seq<H.Entry>, k: nat)
    requires IsReread(env, postings, lines, chain, sealed) && k < |postings|
    requires RereadsAlike(env, postings, lines, k) && H.LinkHolds(env, sealed, k)
    requires sealed[k].payload.sequenceNumber == k + 1
    ensures H.LinkHolds(env, chain, k)
  {
    assert H.PrevHash(chain, k) == H.PrevHash(sealed, k);
  }

  lemma {:induction false} RereadChainHolds(
    env: H.Env, postings: seq<Posting>, entries: seq<A.JournalEntry>, lines: seq<A.JournalLine>)
    requires multiset(entries) == multiset(StoredEntries(env, postings))
    requires forall k: nat :: k < |postings| ==> RereadsAlike(env, postings, lines, k)
    ensures H.ChainHolds(env, ChainEntries(entries, lines))
  {
    var chain, sealed := ChainEntries(entries, lines), Sealed(env, postings);
    ChainEntriesOfFetched(env, postings, entries, lines);
    assert IsReread(env, postings, lines, chain, sealed);
    SealedHolds(env, postings);
    forall k: nat | k < |chain| ensures H.LinkHolds(env, chain, k) {
      assert H.LinkHolds(env, sealed, k) && RereadsAlike(env, postings, lines, k);
      RereadLinkHolds(env, postings, lines, chain, sealed, k);
    }
  }

  lemma {:induction false} NormalIsCanonical(env: H.Env, p: H.Payload)
    ensures H.PayloadText(env, H.Payload(p.sequenceNumber, p.entryNumber, p.entryDate, p.sourceType,
                                         H.OrNull(p.sourceId), H.OrNull(p.memo), Q.Map(Normal, p.lines)))
         == H.PayloadText(env, p)
    ensures H.CanonLines(Q.Map(Normal, p.lines)) == H.CanonLines(p.lines)
  {
    assert H.CanonLines(Q.Map(Normal, p.lines)) == H.CanonLines(p.lines);
  }

  lemma {:induction false} NormalLinesAreUnambiguous(env: H.Env, p: H.Payload)
    requires env.Valid() && H.NoAmbiguousLines(env, p.lines)
    ensures H.NoAmbiguousLines(env, Q.Map(Normal, p.lines))
  {
    NormalIsCanonical(env, p);
    H.AmbiguityIsATie(env, p.lines);
    H.AmbiguityIsATie(env, Q.Map(Normal, p.lines));
  }

  lemma {:induction false} UnambiguousRereadsAlike(env: H.Env, postings: seq<Posting>, lines: seq<A.JournalLine>, k: nat)
    requires env.Valid() && DistinctPostings(postings) && multiset(lines) == multiset(StoredLines(postings))
    requires k < |postings| && H.NoAmbiguousLines(env, postings[k].payload.lines)
    ensures RereadsAlike(env, postings, lines, k)
  {
    SealedHolds(env, postings);
    var p := Sealed(env, postings)[k].payload;
    var q := H.Payload(p.sequenceNumber, p.entryNumber, p.entryDate, p.sourceType,
                       H.OrNull(p.sourceId), H.OrNull(p.memo), Q.Map(Normal, p.lines));
    NormalIsCanonical(env, p);
    NormalLinesAreUnambiguous(env, p);
    FetchedLinesAreThePosted(postings, lines, k);
    H.ReorderedLinesHashAlike(env, q, LinesOf(lines, postings[k].journalEntryId));
    assert q.(lines := LinesOf(lines, postings[k].journalEntryId)) == Reread(postings, lines, k);
  }

  /**
   A ledger written only by the posting routine passes the chain check in every
   fetch order, provided no entry has ambiguous lines.
   */
  lemma {:induction false} PostedLedgerPasses(
    env: H.Env, postings: seq<Posting>, entries: seq<A.JournalEntry>, lines: seq<A.JournalLine>)
    requires env.Valid() && DistinctPostings(postings) && Fetched(env, postings, entries, lines)
    requires forall k :: 0 <= k < |postings| ==> H.NoAmbiguousLines(env, postings[k].payload.lines)
    ensures H.ChainHolds(env, ChainEntries(entries, lines))
  {
    forall k: nat | k < |postings| ensures RereadsAlike(env, postings, lines, k) {
      UnambiguousRereadsAlike(env, postings, lines, k);
    }
    RereadChainHolds(env, postings, entries, lines);
  }

  // ---- The condition is needed ----

  lemma {:induction false} StoredLinesPermute(postings: seq<Posting>, k: nat, ls: seq<H.Line>)
    requires k < |postings| && multiset(ls) == multiset(postings[k].payload.lines)
    ensures var p := postings[k];
      multiset(StoredLines(postings[k := p.(payload := p.payload.(lines := ls))])) == multiset(StoredLines(postings))
    decreases postings
  {
    var p := postings[k];
    var other := postings[k := p.(payload := p.payload.(lines := ls))];
    var n := |postings| - 1;
    if k == n {
      assert other[..n] == postings[..n];
      Q.MapKeepsElements(Tag(p.journalEntryId), ls, p.payload.lines);
    } else {
      StoredLinesPermute(postings[..n], k, ls);
      assert other[..n] == postings[..n][k := p.(payload := p.payload.(lines := ls))];
    }
  }

  /**
   If some entry has ambiguous lines, there is a fetch order of the untouched
   rows that the audit reports as tampering (or the hash has a collision).
   */
  lemma {:induction false} AmbiguousLinesRaiseFalseAlarms(env: H.Env, postings: seq<Posting>, k: nat)
    returns (lines: seq<A.JournalLine>, x: string, y: string)
    requires env.Valid() && DistinctPostings(postings) && k < |postings|
    requires !H.NoAmbiguousLines(env, postings[k].payload.lines)
    ensures Fetched(env, postings, StoredEntries(env, postings), lines)
    ensures env.Collide(x, y) || !H.ChainHolds(env, ChainEntries(StoredEntries(env, postings), lines))
  {
    SealedHolds(env, postings);
    assert Sealed(env, postings)[k].payload.lines == postings[k].payload.lines;
    var ls := H.AmbiguityShows(env, Sealed(env, postings)[k].payload);
    lines := ReorderedFetch(postings, k, ls);
    x, y := RereadMismatch(env, postings, StoredEntries(env, postings), lines, k, ls);
  }

  /** The stored lines, with those of posting k in another order. */
  lemma {:induction false} ReorderedFetch(postings: seq<Posting>, k: nat, ls: seq<H.Line>) returns (lines: seq<A.JournalLine>)
    requires DistinctPostings(postings) && k < |postings| && multiset(ls) == multiset(postings[k].payload.lines)
    ensures multiset(lines) == multiset(StoredLines(postings))
    ensures LinesOf(lines, postings[k].journalEntryId) == Q.Map(Normal, ls)
  {
    var p := postings[k];
    var other := postings[k := p.(payload := p.payload.(lines := ls))];
    lines := StoredLines(other);
    StoredLinesPermute(postings, k, ls);
    StoredLinesOf(other, k);
    assert Q.Map(LineOf, TaggedLines(p.journalEntryId, ls)) == Q.Map(Normal, ls);
  }

  lemma {:induction false} HashesOfOneText(env: H.Env, a: H.Entry, b: H.Entry) returns (x: string, y: string)
    requires env.Valid() && a.entryHash == b.entryHash
    requires a.entryHash == H.EntryHash(env, a.prevHash, H.PayloadHash(env, a.payload))
    requires b.entryHash == H.EntryHash(env, b.prevHash, H.PayloadHash(env, b.payload))
    ensures env.Collide(x, y) || H.PayloadText(env, a.payload) == H.PayloadText(env, b.payload)
  {
    x, y := H.EqualHashesAgree(env, a, b);
    H.TextsAgreeExactly(env, a.payload, b.payload);
  }

  lemma {:induction false} RereadHashesAs(env: H.Env, postings: seq<Posting>, lines: seq<A.JournalLine>, k: nat, ls: seq<H.Line>)
    requires k < |postings| && LinesOf(lines, postings[k].journalEntryId) == Q.Map(Normal, ls)
    ensures H.PayloadText(env, Reread(postings, lines, k)) == H.PayloadText(env, Sealed(env, postings)[k].payload.(lines := ls))
  {
    SealedHolds(env, postings);
    NormalIsCanonical(env, Sealed(env, postings)[k].payload.(lines := ls));
  }

  lemma {:induction false} RereadMismatch(
    env: H.Env, postings: seq<Posting>, entries: seq<A.JournalEntry>, lines: seq<A.JournalLine>, k: nat, ls: seq<H.Line>)
    returns (x: string, y: string)
    requires env.Valid() && k < |postings| && multiset(entries) == multiset(StoredEntries(env, postings))
    requires LinesOf(lines, postings[k].journalEntryId) == Q.Map(Normal, ls)
    requires var p := Sealed(env, postings)[k].payload; H.PayloadText(env, p.(lines := ls)) != H.PayloadText(env, p)
    ensures env.Collide(x, y) || !H.ChainHolds(env, ChainEntries(entries, lines))
  {
    var chain, sealed := ChainEntries(entries, lines), Sealed(env, postings);
    ChainEntriesOfFetched(env, postings, entries, lines);
    SealedHolds(env, postings);
    RereadHashesAs(env, postings, lines, k, ls);
    x, y := "", "";
    if H.ChainHolds(env, chain) {
      assert H.LinkHolds(env, chain, k) && H.LinkHolds(env, sealed, k);
      x, y := HashesOfOneText(env, chain[k], sealed[k]);
    }
  }

  // ---- Tampering with the stored rows ----

  lemma {:induction false} FetchedLinesAreNormal(lines: seq<A.JournalLine>, id: string)
    ensures Q.Map(Normal, LinesOf(lines, id)) == LinesOf(lines, id)
  {
  }

  lemma {:induction false} EditedLinesHashApart(env: H.Env, p: H.Payload, j: nat, line: H.Line, ls: seq<H.Line>)
    requires j < |p.lines| && H.EditedInEarnest(p.lines[j], line)
    requires multiset(ls) == multiset(Q.Map(Normal, p.lines[j := line]))
    ensures H.PayloadText(env, p.(lines := ls)) != H.PayloadText(env, p)
  {
    var edited := p.lines[j := line];
    NormalIsCanonical(env, p.(lines := edited));
    Q.MapKeepsElements(H.CanonLine, ls, Q.Map(Normal, edited));
    H.EditsInEarnestDiffer(p.lines[j], line);
    H.LineEditShows(env, p, j, line, ls);
    H.TextsAgreeExactly(env, p.(lines := ls), p);
  }

  /**
   Editing a stored line in earnest, the account or another text or an amount by a cent
   or more, is reported in every fetch order, or the hash has a collision.
   */
  lemma {:induction false} EditedLineIsReported(
    env: H.Env, postings: seq<Posting>, k: nat, j: nat, line: H.Line, entries: seq<A.JournalEntry>, lines: seq<A.JournalLine>)
    returns (x: string, y: string)
    requires env.Valid() && DistinctPostings(postings) && k < |postings| && j < |postings[k].payload.lines|
    requires H.EditedInEarnest(postings[k].payload.lines[j], line)
    requires multiset(entries) == multiset(StoredEntries(env, postings))
    requires var p := postings[k].payload;
      multiset(lines) == multiset(StoredLines(postings[k := postings[k].(payload := p.(lines := p.lines[j := line]))]))
    ensures env.Collide(x, y) || !H.ChainHolds(env, ChainEntries(entries, lines))
  {
    var p := postings[k].payload;
    var edited := postings[k := postings[k].(payload := p.(lines := p.lines[j := line]))];
    var ls := LinesOf(lines, postings[k].journalEntryId);
    SealedHolds(env, postings);
    FetchedLinesAreThePosted(edited, lines, k);
    FetchedLinesAreNormal(lines, postings[k].journalEntryId);
    EditedLinesHashApart(env, Sealed(env, postings)[k].payload, j, line, ls);
    x, y := RereadMismatch(env, postings, entries, lines, k, ls);
  }
}
