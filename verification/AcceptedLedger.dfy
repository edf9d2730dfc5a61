/**
 What the posting routine accepts, and what the audit says of it.  The routine
 compares debit and credit after rounding every line to cents, but stores the
 amounts unrounded; the audit adds up what is stored.
 */
module AcceptedLedger {
  import opened Rounding
  import opened Wrappers
  import H = LedgerHash
  import A = LedgerAudit
  import N = LedgerNets
  import P = PostedLedger

  /** A debit or a credit, and not both. */
  predicate OneSided(l: H.Line) {
    (l.debit > 0.0 && l.credit == 0.0) || (l.debit == 0.0 && l.credit > 0.0)
  }

  function DebitCents(ls: seq<H.Line>): (c: int) {
    if ls == [] then 0 else DebitCents(ls[..|ls| - 1]) + Cents(ls[|ls| - 1].debit)
  }

  function CreditCents(ls: seq<H.Line>): (c: int) {
    if ls == [] then 0 else CreditCents(ls[..|ls| - 1]) + Cents(ls[|ls| - 1].credit)
  }

  /** A line as it is requested, with its amounts in foreign currency where given. */
  datatype Request = Request(line: H.Line, foreignDebit: Option<real>, foreignCredit: Option<real>)

  datatype Refusal =
    | TooFewLines
    | Negative(index: nat)
    | NegativeForeign(index: nat)
    | BothSides(index: nat)
    | NoAmount(index: nat)
    | Unbalanced(debit: int, credit: int)

  datatype Verdict = Accepted | Refused(reason: Refusal)

  /** No amount in foreign currency is below zero. */
  predicate NoneNegative(q: Request) {
    && !(q.foreignDebit.Some? && q.foreignDebit.value < 0.0)
    && !(q.foreignCredit.Some? && q.foreignCredit.value < 0.0)
  }

  function LinesOf(qs: seq<Request>): (ls: seq<H.Line>)
    ensures |ls| == |qs| && forall i :: 0 <= i < |qs| ==> ls[i] == qs[i].line
  {
    seq(|qs|, i requires 0 <= i < |qs| => qs[i].line)
  }

  predicate Accepts(ls: seq<H.Line>) {
    |ls| >= 2 && (forall l :: l in ls ==> OneSided(l)) && DebitCents(ls) == CreditCents(ls)
  }

  ghost predicate FirstFault(qs: seq<Request>, i: nat) {
    i < |qs| && forall k :: 0 <= k < i ==> OneSided(qs[k].line) && NoneNegative(qs[k])
  }

  /** The line the reason names is the first that is not accepted, and the reason is the first check it fails. */
  ghost predicate Names(reason: Refusal, qs: seq<Request>) {
    match reason
    case TooFewLines => |qs| < 2
    case Negative(i) => FirstFault(qs, i) && (qs[i].line.debit < 0.0 || qs[i].line.credit < 0.0)
    case NegativeForeign(i) =>
      FirstFault(qs, i) && qs[i].line.debit >= 0.0 && qs[i].line.credit >= 0.0 && !NoneNegative(qs[i])
    case BothSides(i) => FirstFault(qs, i) && NoneNegative(qs[i]) && qs[i].line.debit > 0.0 && qs[i].line.credit > 0.0
    case NoAmount(i) => FirstFault(qs, i) && NoneNegative(qs[i]) && qs[i].line.debit == 0.0 && qs[i].line.credit == 0.0
    case Unbalanced(d, c) =>
      && (forall k :: 0 <= k < |qs| ==> OneSided(qs[k].line) && NoneNegative(qs[k]))
      && d == DebitCents(LinesOf(qs)) && c == CreditCents(LinesOf(qs)) && d != c
  }

  /** The validation at the head of postJournalEntry. */
  method Validate(qs: seq<Request>) returns (v: Verdict)
    ensures v.Accepted? <==>
      && |qs| >= 2 && DebitCents(LinesOf(qs)) == CreditCents(LinesOf(qs))
      && forall i :: 0 <= i < |qs| ==> OneSided(qs[i].line) && NoneNegative(qs[i])
    ensures v.Accepted? ==> Accepts(LinesOf(qs))
    ensures v.Refused? ==> Names(v.reason, qs)
  {
    if |qs| < 2 {
      return Refused(TooFewLines);
    }
    ghost var ls := LinesOf(qs);
    for i := 0 to |qs|
      invariant forall k :: 0 <= k < i ==> OneSided(qs[k].line) && NoneNegative(qs[k])
    {
      var line := qs[i].line;
      assert qs[i] in qs && ls[i] == line && line in ls;
      if line.debit < 0.0 || line.credit < 0.0 {
        return Refused(Negative(i));
      }
      if (qs[i].foreignDebit.Some? && qs[i].foreignDebit.value < 0.0) || (qs[i].foreignCredit.Some? && qs[i].foreignCredit.value < 0.0) {
        return Refused(NegativeForeign(i));
      }
      if line.debit > 0.0 && line.credit > 0.0 {
        return Refused(BothSides(i));
      }
      if line.debit == 0.0 && line.credit == 0.0 {
        return Refused(NoAmount(i));
      }
    }
    var totalDebit, totalCredit := 0, 0;
    for i := 0 to |qs|
      invariant totalDebit == DebitCents(ls[..i]) && totalCredit == CreditCents(ls[..i])
    {
      assert ls[..i + 1][..i] == ls[..i];
      totalDebit := totalDebit + Cents(qs[i].line.debit);
      totalCredit := totalCredit + Cents(qs[i].line.credit);
    }
    assert ls[..|ls|] == ls;
    if totalDebit != totalCredit {
      return Refused(Unbalanced(totalDebit, totalCredit));
    }
    v := Accepted;
  }

  /** What rounding the line to cents leaves behind, debit less credit. */
  function Fraction(l: H.Line): (x: real) {
    (l.debit - Amount(Cents(l.debit))) - (l.credit - Amount(Cents(l.credit)))
  }

  function Fractions(ls: seq<H.Line>): (x: real) {
    if ls == [] then 0.0 else Fractions(ls[..|ls| - 1]) + Fraction(ls[|ls| - 1])
  }

  lemma {:induction false} NetIsCentsAndFractions(ls: seq<H.Line>)
    ensures N.PayloadNet(ls) == Amount(DebitCents(ls) - CreditCents(ls)) + Fractions(ls)
    decreases ls
  {
    if ls == [] {
    } else {
      NetIsCentsAndFractions(ls[..|ls| - 1]);
    }
  }

  /** An accepted entry is out by exactly the fractions its rounding dropped. */
  lemma {:induction false} AcceptedNet(ls: seq<H.Line>)
    requires Accepts(ls)
    ensures N.PayloadNet(ls) == Fractions(ls)
  {
    NetIsCentsAndFractions(ls);
  }

  ghost predicate AllAccepted(postings: seq<P.Posting>) {
    forall k :: 0 <= k < |postings| ==> Accepts(postings[k].payload.lines)
  }

  function TotalFractions(postings: seq<P.Posting>): (x: real) {
    if postings == [] then 0.0
    else TotalFractions(postings[..|postings| - 1]) + Fractions(postings[|postings| - 1].payload.lines)
  }

  lemma {:induction false} AcceptedLedgerNet(postings: seq<P.Posting>)
    requires AllAccepted(postings)
    ensures N.LedgerNet(postings) == TotalFractions(postings)
    decreases postings
  {
    if postings == [] {
    } else {
      AcceptedLedgerNet(postings[..|postings| - 1]);
      AcceptedNet(postings[|postings| - 1].payload.lines);
    }
  }

  /**
   Which accepted entries the audit reports, in every fetch order: exactly those
   whose dropped fractions come to more than half a cent; and the trial balance
   exactly when those of the whole ledger do not round to zero.
   */
  lemma {:induction false} AcceptedLedgerIsReportedExactly(postings: seq<P.Posting>, lines: seq<A.JournalLine>)
    requires P.DistinctPostings(postings) && AllAccepted(postings)
    requires multiset(lines) == multiset(P.StoredLines(postings))
    ensures forall k :: 0 <= k < |postings| ==>
      (A.Flagged(lines, postings[k].journalEntryId) <==> A.Magnitude(Fractions(postings[k].payload.lines)) > 0.005)
    ensures A.CheckTrialBalance(lines) == [] <==> -0.005 <= TotalFractions(postings) < 0.005
  {
    forall k | 0 <= k < |postings|
      ensures A.Flagged(lines, postings[k].journalEntryId) <==> A.Magnitude(Fractions(postings[k].payload.lines)) > 0.005
    {
      AcceptedNet(postings[k].payload.lines);
      N.FlaggedExactly(postings, lines, k);
    }
    AcceptedLedgerNet(postings);
    N.FetchedTrialBalance(postings, lines);
    A.TrialBalanceIsExact(lines);
  }

  ghost predicate CentPayload(ls: seq<H.Line>) {
    forall l :: l in ls ==> WholeCents(l.debit) && WholeCents(l.credit)
  }

  lemma {:induction false} CentsLeaveNoFraction(ls: seq<H.Line>)
    requires CentPayload(ls)
    ensures Fractions(ls) == 0.0
    decreases ls
  {
    if ls == [] {
    } else {
      var last := ls[|ls| - 1];
      assert last in ls;
      CentsLeaveNoFraction(ls[..|ls| - 1]);
      CentsAreExactly(last.debit);
      CentsAreExactly(last.credit);
    }
  }

  /** On whole cents every ledger of accepted postings passes both balance checks, in every fetch order. */
  lemma {:induction false} AcceptedCentLedgerIsClean(
    env: H.Env, postings: seq<P.Posting>, entries: seq<A.JournalEntry>, lines: seq<A.JournalLine>)
    requires P.DistinctPostings(postings) && P.Fetched(env, postings, entries, lines) && AllAccepted(postings)
    requires forall k :: 0 <= k < |postings| ==> CentPayload(postings[k].payload.lines)
    ensures A.Unbalanced(entries, lines) == [] && A.CheckTrialBalance(lines) == []
  {
    forall k | 0 <= k < |postings| ensures N.PayloadNet(postings[k].payload.lines) == 0.0 {
      CentsLeaveNoFraction(postings[k].payload.lines);
      AcceptedNet(postings[k].payload.lines);
    }
    N.BalancedLedgerIsClean(env, postings, entries, lines);
  }

  /**
   An accepted ledger whose trial balance is reported alone: two entries of 1.004
   against 1.00, each four tenths of a cent out.
   */
  lemma {:induction false} FractionsCanFailAlone(postings: seq<P.Posting>, lines: seq<A.JournalLine>, d: H.Line, c: H.Line)
    requires P.DistinctPostings(postings) && multiset(lines) == multiset(P.StoredLines(postings))
    requires |postings| == 2 && postings[0].payload.lines == [d, c] && postings[1].payload.lines == [d, c]
    requires d.debit == 1.004 && d.credit == 0.0 && c.debit == 0.0 && c.credit == 1.0
    ensures AllAccepted(postings) && A.CheckTrialBalance(lines) != []
    ensures forall k :: 0 <= k < 2 ==> !A.Flagged(lines, postings[k].journalEntryId)
  {
    FractionsOfPair(d, c);
    assert postings[..1] == [postings[0]] && [postings[0]][..0] == [];
    assert TotalFractions([postings[0]]) == 0.004;
    assert TotalFractions(postings) == 0.008;
    AcceptedLedgerIsReportedExactly(postings, lines);
  }

  lemma {:induction false} FractionsOfPair(d: H.Line, c: H.Line)
    requires d.debit == 1.004 && d.credit == 0.0 && c.debit == 0.0 && c.credit == 1.0
    ensures Accepts([d, c]) && Fractions([d, c]) == 0.004
  {
    NearestIsUnique(100.4, 100);
    NearestIsUnique(100.0, 100);
    NearestIsUnique(0.0, 0);
    assert Cents(d.debit) == 100 && Cents(d.credit) == 0 && Cents(c.debit) == 0 && Cents(c.credit) == 100;
    assert [d, c][..1] == [d] && [d][..0] == [];
    assert DebitCents([d]) == 100 && CreditCents([d]) == 0;
    assert Fractions([d]) == 0.004;
  }
}
