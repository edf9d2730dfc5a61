/**
 The tamper-evident journal: canonical payloads, their JSON text, and the hash
 chain over them.

 Two foreign functions are parameters, gathered in an Env: SHA-256 (as text to
 64 hexadecimal characters, FIPS 180-4) and String.localeCompare.  Nothing is
 assumed of the hash but the length of its result; where two different texts
 would have to share a hash, the lemmas hand out that collision.
 */
module LedgerHash {
  import opened Wrappers
  import opened Rounding
  import opened JsonText
  import Q = Sequences
  import S = StableSort

  const GENESIS_HASH := "0000000000000000000000000000000000000000000000000000000000000000"

  datatype Env = Env(sha256: string -> string, compare: (string, string) -> int) {

    ghost predicate Valid() {
      && (forall text :: |sha256(text)| == 64)
      && (forall a, b :: compare(a, b) < 0 <==> compare(b, a) > 0)
      && (forall a, b, c :: compare(a, b) <= 0 && compare(b, c) <= 0 ==> compare(a, c) <= 0)
    }

    ghost predicate Collide(x: string, y: string) {
      x != y && sha256(x) == sha256(y)
    }
  }

  // ---- Payloads ----

  /** A journal line; an amount stands for the number its decimal text denotes. */
  datatype Line = Line(
    glAccountId: string,
    debit: real,
    credit: real,
    costCenterId: Option<string>,
    activityId: Option<string>,
    partyType: Option<string>,
    partyId: Option<string>)

  datatype Payload = Payload(
    sequenceNumber: int,
    entryNumber: string,
    entryDate: string,
    sourceType: string,
    sourceId: Option<string>,
    memo: Option<string>,
    lines: seq<Line>)

  /** An amount to two decimals.  The sign is that of the unrounded number, so -0.001 is "-0.00". */
  datatype Fixed = Fixed(negative: bool, cents: nat)

  datatype CanonicalLine = CanonicalLine(
    glAccountId: string,
    debit: Fixed,
    credit: Fixed,
    costCenterId: Option<string>,
    activityId: Option<string>,
    partyType: Option<string>,
    partyId: Option<string>)

  datatype CanonicalPayload = CanonicalPayload(
    sequenceNumber: int,
    entryNumber: string,
    entryDate: string,
    sourceType: string,
    sourceId: Option<string>,
    memo: Option<string>,
    lines: seq<CanonicalLine>)

  function ToFixed(x: real): (f: Fixed) {
    Fixed(x < 0.0, RoundHalfAway((if x < 0.0 then -x else x) * 100.0))
  }

  function FixedText(f: Fixed): (r: string) {
    (if f.negative then "-" else "") + Digits(f.cents / 100) + CentsText(f.cents % 100)
  }

  function CentsText(c: nat): (r: string)
    requires c < 100
  {
    ['.', '0' + (c / 10) as char, '0' + (c % 10) as char]
  }

  /** JavaScript's `s || null`. */
  function OrNull(s: Option<string>): (r: Option<string>) {
    if s == Some("") then None else s
  }

  function OrEmpty(s: Option<string>): (r: string) {
    if s.Some? then s.value else ""
  }

  /** The text before the first 'T'. */
  function DatePart(s: string): (r: string)
    ensures r <= s && 'T' !in r
    ensures r != s ==> s[|r|] == 'T'
  {
    if s == "" || s[0] == 'T' then "" else [s[0]] + DatePart(s[1..])
  }

  function CanonLine(l: Line): (r: CanonicalLine) {
    CanonicalLine(l.glAccountId, ToFixed(l.debit), ToFixed(l.credit),
      OrNull(l.costCenterId), OrNull(l.activityId), OrNull(l.partyType), OrNull(l.partyId))
  }

  function CanonLines(ls: seq<Line>): (r: seq<CanonicalLine>)
    ensures |r| == |ls| && forall i :: 0 <= i < |ls| ==> r[i] == CanonLine(ls[i])
  {
    Q.Map(CanonLine, ls)
  }

  function CompareLines(compare: (string, string) -> int, a: CanonicalLine, b: CanonicalLine): (r: int) {
    var account := compare(a.glAccountId, b.glAccountId);
    if account != 0 then account
    else
      var debit := compare(FixedText(a.debit), FixedText(b.debit));
      if debit != 0 then debit
      else
        var credit := compare(FixedText(a.credit), FixedText(b.credit));
        if credit != 0 then credit
        else compare(OrEmpty(a.partyId), OrEmpty(b.partyId))
  }

  function LineOrder(compare: (string, string) -> int): (leq: (CanonicalLine, CanonicalLine) -> bool) {
    (a, b) => CompareLines(compare, a, b) <= 0
  }

  function Canonical(env: Env, p: Payload): (c: CanonicalPayload) {
    CanonicalPayload(p.sequenceNumber, p.entryNumber, DatePart(p.entryDate), p.sourceType,
      OrNull(p.sourceId), OrNull(p.memo), S.Sort(LineOrder(env.compare), CanonLines(p.lines)))
  }

  // ---- JSON text ----

  function Nullable(o: Option<string>): (v: Json) {
    if o.Some? then Str(o.value) else Null
  }

  function LineJson(l: CanonicalLine): (v: Json) {
    Obj([Field("glAccountId", Str(l.glAccountId)),
         Field("debit", Str(FixedText(l.debit))),
         Field("credit", Str(FixedText(l.credit))),
         Field("costCenterId", Nullable(l.costCenterId)),
         Field("activityId", Nullable(l.activityId)),
         Field("partyType", Nullable(l.partyType)),
         Field("partyId", Nullable(l.partyId))])
  }

  function PayloadJson(c: CanonicalPayload): (v: Json) {
    Obj([Field("sequenceNumber", Num(c.sequenceNumber)),
         Field("entryNumber", Str(c.entryNumber)),
         Field("entryDate", Str(c.entryDate)),
         Field("sourceType", Str(c.sourceType)),
         Field("sourceId", Nullable(c.sourceId)),
         Field("memo", Nullable(c.memo)),
         Field("lines", Arr(Q.Map(LineJson, c.lines)))])
  }

  /** The text that is hashed for a payload. */
  function PayloadText(env: Env, p: Payload): (r: string) {
    Stringify(PayloadJson(Canonical(env, p)))
  }

  function PayloadHash(env: Env, p: Payload): (r: string) {
    env.sha256(PayloadText(env, p))
  }

  function EntryHash(env: Env, prevHash: string, payloadHash: string): (r: string) {
    env.sha256(prevHash + ":" + payloadHash)
  }

  // ---- Canonical text is faithful ----

  lemma {:induction false} FixedTextIsInjective(f: Fixed, g: Fixed)
    requires FixedText(f) == FixedText(g)
    ensures f == g
  {
    var x, y := FixedText(f), FixedText(g);
    assert x[0] == y[0];
    assert f.negative == g.negative;
    var sign := if f.negative then "-" else "";
    var d, e := Digits(f.cents / 100), Digits(g.cents / 100);
    assert x == sign + (d + CentsText(f.cents % 100)) && y == sign + (e + CentsText(g.cents % 100));
    CancelPrefix(sign, d + CentsText(f.cents % 100), e + CentsText(g.cents % 100));
    assert d == (d + CentsText(f.cents % 100))[..|d|] == e;
    CancelPrefix(d, CentsText(f.cents % 100), CentsText(g.cents % 100));
    assert CentsText(f.cents % 100)[1] == CentsText(g.cents % 100)[1];
    assert CentsText(f.cents % 100)[2] == CentsText(g.cents % 100)[2];
    IntTextIsInjective(f.cents / 100, g.cents / 100);
  }

  lemma {:induction false} LineJsonIsInjective(a: CanonicalLine, b: CanonicalLine)
    requires LineJson(a) == LineJson(b)
    ensures a == b
  {
    var f, g := LineJson(a).fields, LineJson(b).fields;
    assert f[0] == g[0] && f[1] == g[1] && f[2] == g[2] && f[3] == g[3]
        && f[4] == g[4] && f[5] == g[5] && f[6] == g[6];
    FixedTextIsInjective(a.debit, b.debit);
    FixedTextIsInjective(a.credit, b.credit);
  }

  lemma {:induction false} LinesJsonIsInjective(a: seq<CanonicalLine>, b: seq<CanonicalLine>)
    requires Q.Map(LineJson, a) == Q.Map(LineJson, b)
    ensures a == b
  {
    assert |a| == |Q.Map(LineJson, a)| == |b|;
    forall i | 0 <= i < |a| ensures a[i] == b[i] {
      assert Q.Map(LineJson, a)[i] == Q.Map(LineJson, b)[i];
      LineJsonIsInjective(a[i], b[i]);
    }
  }

  lemma {:induction false} PayloadJsonIsInjective(a: CanonicalPayload, b: CanonicalPayload)
    requires PayloadJson(a) == PayloadJson(b)
    ensures a == b
  {
    var f, g := PayloadJson(a).fields, PayloadJson(b).fields;
    assert f[0] == g[0] && f[1] == g[1] && f[2] == g[2] && f[3] == g[3]
        && f[4] == g[4] && f[5] == g[5] && f[6] == g[6];
    LinesJsonIsInjective(a.lines, b.lines);
  }

  /** Payloads with the same hashed text have the same canonical payload, field for field. */
  lemma {:induction false} CanonicalTextIsFaithful(env: Env, p: Payload, q: Payload)
    ensures PayloadText(env, p) == PayloadText(env, q) <==> Canonical(env, p) == Canonical(env, q)
  {
    if PayloadText(env, p) == PayloadText(env, q) {
      StringifyIsInjective(PayloadJson(Canonical(env, p)), PayloadJson(Canonical(env, q)));
      PayloadJsonIsInjective(Canonical(env, p), Canonical(env, q));
    }
  }

  // ---- What the hashed text keeps of a payload ----

  /** n is 100 times the magnitude of x to the nearest integer, halves up. */
  ghost predicate NearestCents(n: int, x: real) {
    -0.5 < n as real - 100.0 * Abs(x) <= 0.5
  }

  predicate AllDigits(s: string) {
    forall i :: 0 <= i < |s| ==> IsDigit(s[i])
  }

  /** The parts of a decimal text: a minus for negative numbers, digits without a leading zero, a point and two digits. */
  ghost predicate DecimalParts(t: string, x: real, whole: string, fraction: string) {
    && t == (if x < 0.0 then "-" else "") + whole + "." + fraction
    && AllDigits(whole) && whole != "" && (|whole| > 1 ==> whole[0] != '0')
    && AllDigits(fraction) && |fraction| == 2
    && NearestCents(100 * DigitsValue(whole) + DigitsValue(fraction), x)
  }

  /** t is x to two decimals. */
  ghost predicate IsAmountText(t: string, x: real) {
    exists whole, fraction :: DecimalParts(t, x, whole, fraction)
  }

  /** The text an amount is hashed and sorted by. */
  function AmountText(x: real): (t: string) {
    FixedText(ToFixed(x))
  }

  lemma {:induction false} CentsAreNearest(x: real)
    ensures NearestCents(ToFixed(x).cents, x) && (ToFixed(x).negative <==> x < 0.0)
  {
  }

  lemma {:induction false} NearestCentsIsUnique(m: int, n: int, x: real)
    requires NearestCents(m, x) && NearestCents(n, x)
    ensures m == n
  {
    assert m > n ==> m as real - n as real >= 1.0;
    assert m < n ==> n as real - m as real >= 1.0;
  }

  lemma {:induction false} CentsTextReads(c: nat)
    requires c < 100
    ensures var f := CentsText(c)[1..]; |f| == 2 && AllDigits(f) && DigitsValue(f) == c
  {
    var f := CentsText(c)[1..];
    assert f[..1][..0] == "" && f == ['0' + (c / 10) as char, '0' + (c % 10) as char];
    assert f[..1] == ['0' + (c / 10) as char];
    assert DigitsValue(f[..1]) == c / 10;
  }

  /** The digits before and after the point read as the cents. */
  lemma {:induction false} FixedTextReads(f: Fixed) returns (whole: string, fraction: string)
    ensures FixedText(f) == (if f.negative then "-" else "") + whole + "." + fraction
    ensures AllDigits(whole) && whole != "" && (|whole| > 1 ==> whole[0] != '0')
    ensures AllDigits(fraction) && |fraction| == 2
    ensures 100 * DigitsValue(whole) + DigitsValue(fraction) == f.cents
  {
    var point := CentsText(f.cents % 100);
    whole, fraction := Digits(f.cents / 100), point[1..];
    DigitsRoundTrip(f.cents / 100);
    NoLeadingZero(f.cents / 100);
    CentsTextReads(f.cents % 100);
    assert point == "." + fraction;
    PointInside((if f.negative then "-" else "") + whole, fraction);
  }

  lemma {:induction false} PointInside(a: string, b: string)
    ensures a + ("." + b) == a + "." + b
  {
  }

  /** Amounts are hashed and sorted as texts with two decimals. */
  lemma {:induction false} AmountTextIsAmountText(x: real)
    ensures IsAmountText(AmountText(x), x)
  {
    CentsAreNearest(x);
    var whole, fraction := FixedTextReads(ToFixed(x));
    assert DecimalParts(AmountText(x), x, whole, fraction);
  }

  /** The same sign and the same nearest cent. */
  ghost predicate SameAmount(x: real, y: real) {
    (x < 0.0 <==> y < 0.0) && exists n :: NearestCents(n, x) && NearestCents(n, y)
  }

  /** The same text, no text and the empty text being one. */
  predicate SameText(s: Option<string>, t: Option<string>) {
    s == t || (s in {None, Some("")} && t in {None, Some("")})
  }

  ghost predicate IsDatePart(d: string, s: string) {
    d <= s && 'T' !in d && (d != s ==> s[|d|] == 'T')
  }

  /** The same text before the first T. */
  ghost predicate SameDate(s: string, t: string) {
    exists d :: IsDatePart(d, s) && IsDatePart(d, t)
  }

  ghost predicate SameLine(a: Line, b: Line) {
    && a.glAccountId == b.glAccountId && SameAmount(a.debit, b.debit) && SameAmount(a.credit, b.credit)
    && SameText(a.costCenterId, b.costCenterId) && SameText(a.activityId, b.activityId)
    && SameText(a.partyType, b.partyType) && SameText(a.partyId, b.partyId)
  }

  /** What lines are sorted by: account, debit and credit as texts, and party. */
  function SortKeys(l: Line): (keys: seq<string>) {
    [l.glAccountId, AmountText(l.debit), AmountText(l.credit), OrEmpty(l.partyId)]
  }

  /** The first keys that compare differently decide. */
  function CompareKeys(compare: (string, string) -> int, a: seq<string>, b: seq<string>): (r: int)
    requires |a| == |b|
  {
    if a == [] then 0
    else if compare(a[0], b[0]) != 0 then compare(a[0], b[0])
    else CompareKeys(compare, a[1..], b[1..])
  }

  function KeyOrder(compare: (string, string) -> int): (leq: (Line, Line) -> bool) {
    (a, b) => CompareKeys(compare, SortKeys(a), SortKeys(b)) <= 0
  }

  /** The lines as they are given, stably sorted by their keys. */
  function SortedLines(env: Env, lines: seq<Line>): (r: seq<Line>) {
    S.Sort(KeyOrder(env.compare), lines)
  }

  ghost predicate SameLines(a: seq<Line>, b: seq<Line>) {
    |a| == |b| && forall i :: 0 <= i < |a| ==> SameLine(a[i], b[i])
  }

  /** Field by field, and line by line in sorted order. */
  ghost predicate SamePayload(env: Env, p: Payload, q: Payload) {
    && p.sequenceNumber == q.sequenceNumber && p.entryNumber == q.entryNumber && SameDate(p.entryDate, q.entryDate)
    && p.sourceType == q.sourceType && SameText(p.sourceId, q.sourceId) && SameText(p.memo, q.memo)
    && SameLines(SortedLines(env, p.lines), SortedLines(env, q.lines))
  }

  lemma {:induction false} SameAmountExactly(x: real, y: real)
    ensures ToFixed(x) == ToFixed(y) <==> SameAmount(x, y)
  {
    CentsAreNearest(x);
    CentsAreNearest(y);
    if SameAmount(x, y) {
      var n :| NearestCents(n, x) && NearestCents(n, y);
      NearestCentsIsUnique(n, ToFixed(x).cents, x);
      NearestCentsIsUnique(n, ToFixed(y).cents, y);
    }
    if ToFixed(x) == ToFixed(y) {
      assert NearestCents(ToFixed(x).cents, x) && NearestCents(ToFixed(x).cents, y);
    }
  }

  lemma {:induction false} SameDateExactly(s: string, t: string)
    ensures DatePart(s) == DatePart(t) <==> SameDate(s, t)
  {
    if SameDate(s, t) {
      var d :| IsDatePart(d, s) && IsDatePart(d, t);
      DatePartIsUnique(d, s);
      DatePartIsUnique(d, t);
    }
    if DatePart(s) == DatePart(t) {
      assert IsDatePart(DatePart(s), s) && IsDatePart(DatePart(s), t);
    }
  }

  lemma {:induction false} DatePartIsUnique(d: string, s: string)
    requires IsDatePart(d, s)
    ensures d == DatePart(s)
  {
    var e := DatePart(s);
    assert forall i :: 0 <= i < |d| ==> d[i] == s[i] && d[i] != 'T';
    assert forall i :: 0 <= i < |e| ==> e[i] == s[i] && e[i] != 'T';
    assert d == s[..|d|] == e;
  }

  lemma {:induction false} SameTextExactly(s: Option<string>, t: Option<string>)
    ensures OrNull(s) == OrNull(t) <==> SameText(s, t)
  {
  }

  lemma {:induction false} SameLineExactly(a: Line, b: Line)
    ensures CanonLine(a) == CanonLine(b) <==> SameLine(a, b)
  {
    SameAmountExactly(a.debit, b.debit);
    SameAmountExactly(a.credit, b.credit);
    SameTextExactly(a.costCenterId, b.costCenterId);
    SameTextExactly(a.activityId, b.activityId);
    SameTextExactly(a.partyType, b.partyType);
    SameTextExactly(a.partyId, b.partyId);
  }

  lemma {:induction false} KeysDecide(compare: (string, string) -> int, a: Line, b: Line)
    ensures CompareLines(compare, CanonLine(a), CanonLine(b)) == CompareKeys(compare, SortKeys(a), SortKeys(b))
  {
    CompareFourKeys(compare, SortKeys(a), SortKeys(b));
    assert OrEmpty(OrNull(a.partyId)) == OrEmpty(a.partyId) && OrEmpty(OrNull(b.partyId)) == OrEmpty(b.partyId);
  }

  lemma {:induction false} CompareFourKeys(compare: (string, string) -> int, x: seq<string>, y: seq<string>)
    requires |x| == |y| == 4
    ensures CompareKeys(compare, x, y) ==
      if compare(x[0], y[0]) != 0 then compare(x[0], y[0])
      else if compare(x[1], y[1]) != 0 then compare(x[1], y[1])
      else if compare(x[2], y[2]) != 0 then compare(x[2], y[2])
      else compare(x[3], y[3])
  {
    var x1, y1 := x[1..], y[1..];
    var x2, y2 := x1[1..], y1[1..];
    var x3, y3 := x2[1..], y2[1..];
    assert CompareKeys(compare, x3[1..], y3[1..]) == 0;
    assert CompareKeys(compare, x3, y3) == compare(x[3], y[3]);
    assert CompareKeys(compare, x2, y2) == if compare(x[2], y[2]) != 0 then compare(x[2], y[2]) else compare(x[3], y[3]);
  }

  /** Canonical lines come in the order of the lines they stand for. */
  lemma {:induction false} CanonicalLinesAreSorted(env: Env, lines: seq<Line>)
    ensures S.Sort(LineOrder(env.compare), CanonLines(lines)) == CanonLines(SortedLines(env, lines))
  {
    forall a, b ensures LineOrder(env.compare)(CanonLine(a), CanonLine(b)) == KeyOrder(env.compare)(a, b) {
      KeysDecide(env.compare, a, b);
    }
    S.SortOfImages(KeyOrder(env.compare), LineOrder(env.compare), CanonLine, lines);
  }

  lemma {:induction false} SameLinesExactly(a: seq<Line>, b: seq<Line>)
    ensures CanonLines(a) == CanonLines(b) <==> SameLines(a, b)
  {
    if SameLines(a, b) {
      forall i | 0 <= i < |a| ensures CanonLines(a)[i] == CanonLines(b)[i] {
        SameLineExactly(a[i], b[i]);
      }
    }
    if CanonLines(a) == CanonLines(b) {
      assert |a| == |CanonLines(a)| == |b|;
      forall i | 0 <= i < |a| ensures SameLine(a[i], b[i]) {
        assert CanonLine(a[i]) == CanonLines(a)[i] == CanonLines(b)[i] == CanonLine(b[i]);
        SameLineExactly(a[i], b[i]);
      }
    }
  }

  /** Two payloads have the same canonical form exactly when they agree field by field. */
  lemma {:induction false} SamePayloadExactly(env: Env, p: Payload, q: Payload)
    ensures Canonical(env, p) == Canonical(env, q) <==> SamePayload(env, p, q)
  {
    SameDateExactly(p.entryDate, q.entryDate);
    SameTextExactly(p.sourceId, q.sourceId);
    SameTextExactly(p.memo, q.memo);
    CanonicalLinesAreSorted(env, p.lines);
    CanonicalLinesAreSorted(env, q.lines);
    SameLinesExactly(SortedLines(env, p.lines), SortedLines(env, q.lines));
  }

  /**
   What the hashed text tells apart, read off the payloads: two of them share it
   exactly when they agree in every field, amounts to the cent, and in every line.
   */
  lemma {:induction false} TextsAgreeExactly(env: Env, p: Payload, q: Payload)
    ensures PayloadText(env, p) == PayloadText(env, q) <==> SamePayload(env, p, q)
  {
    CanonicalTextIsFaithful(env, p, q);
    SamePayloadExactly(env, p, q);
  }

  /** Amounts that count as the same are less than a cent apart. */
  lemma {:induction false} SameAmountIsNear(x: real, y: real)
    requires SameAmount(x, y)
    ensures Abs(x - y) < 0.01
  {
    var n :| NearestCents(n, x) && NearestCents(n, y);
    assert Abs(x - y) == Abs(Abs(x) - Abs(y));
  }

  /** The account or another text differs, or an amount does by a cent or more. */
  ghost predicate EditedInEarnest(was: Line, line: Line) {
    || was.glAccountId != line.glAccountId || Abs(was.debit - line.debit) >= 0.01 || Abs(was.credit - line.credit) >= 0.01
    || !SameText(was.costCenterId, line.costCenterId) || !SameText(was.activityId, line.activityId)
    || !SameText(was.partyType, line.partyType) || !SameText(was.partyId, line.partyId)
  }

  lemma {:induction false} EditsInEarnestDiffer(was: Line, line: Line)
    requires EditedInEarnest(was, line)
    ensures !SameLine(was, line)
  {
    if SameLine(was, line) {
      SameAmountIsNear(was.debit, line.debit);
      SameAmountIsNear(was.credit, line.credit);
    }
  }

  /** Changing one line in any field shows, wherever the sort puts it and whatever order the lines come in. */
  lemma {:induction false} LineEditShows(env: Env, p: Payload, j: nat, line: Line, ls: seq<Line>)
    requires j < |p.lines| && !SameLine(p.lines[j], line)
    requires multiset(CanonLines(ls)) == multiset(CanonLines(p.lines[j := line]))
    ensures !SamePayload(env, p.(lines := ls), p)
  {
    var a, b := CanonLines(ls), CanonLines(p.lines);
    SameLineExactly(p.lines[j], line);
    assert CanonLines(p.lines[j := line]) == b[j := CanonLine(line)];
    Q.ReplacedElementShows(b, j, CanonLine(line));
    S.SortKeepsElements(LineOrder(env.compare), a);
    S.SortKeepsElements(LineOrder(env.compare), b);
    SamePayloadExactly(env, p.(lines := ls), p);
  }

  // ---- The hashed text, read as JSON ----

  /** The value under a key, the first one if there are several. */
  function Lookup(fields: seq<Field>, key: string): (v: Option<Json>) {
    if fields == [] then None
    else if fields[0].key == key then Some(fields[0].value)
    else Lookup(fields[1..], key)
  }

  function At(v: Json, key: string): (r: Option<Json>) {
    if v.Obj? then Lookup(v.fields, key) else None
  }

  /** The text as a string, no text and the empty text as null. */
  function TextOrNull(s: Option<string>): (v: Json) {
    if s in {None, Some("")} then Null else Str(s.value)
  }

  ghost predicate ReadsAmount(v: Json, key: string, x: real) {
    exists t :: At(v, key) == Some(Str(t)) && IsAmountText(t, x)
  }

  /** The object names every field of the line. */
  ghost predicate ReadsLine(v: Json, l: Line) {
    && At(v, "glAccountId") == Some(Str(l.glAccountId))
    && ReadsAmount(v, "debit", l.debit) && ReadsAmount(v, "credit", l.credit)
    && At(v, "costCenterId") == Some(TextOrNull(l.costCenterId)) && At(v, "activityId") == Some(TextOrNull(l.activityId))
    && At(v, "partyType") == Some(TextOrNull(l.partyType)) && At(v, "partyId") == Some(TextOrNull(l.partyId))
  }

  /** The object names every field of the payload, and its lines in sorted order. */
  ghost predicate ReadsPayload(env: Env, v: Json, p: Payload) {
    && At(v, "sequenceNumber") == Some(Num(p.sequenceNumber)) && At(v, "entryNumber") == Some(Str(p.entryNumber))
    && (exists d :: At(v, "entryDate") == Some(Str(d)) && IsDatePart(d, p.entryDate))
    && At(v, "sourceType") == Some(Str(p.sourceType))
    && At(v, "sourceId") == Some(TextOrNull(p.sourceId)) && At(v, "memo") == Some(TextOrNull(p.memo))
    && exists items :: At(v, "lines") == Some(Arr(items)) && ReadsLines(items, SortedLines(env, p.lines))
  }

  ghost predicate ReadsLines(items: seq<Json>, lines: seq<Line>) {
    |items| == |lines| && forall i :: 0 <= i < |lines| ==> ReadsLine(items[i], lines[i])
  }

  /** The values of an object with different keys are found under them. */
  ghost predicate DistinctKeys(fields: seq<Field>) {
    forall i, j :: 0 <= i < j < |fields| ==> fields[i].key != fields[j].key
  }

  lemma {:induction false} LookupFinds(fields: seq<Field>, i: nat)
    requires DistinctKeys(fields) && i < |fields|
    ensures Lookup(fields, fields[i].key) == Some(fields[i].value)
    decreases i
  {
    if i == 0 {
    } else {
      assert fields[0].key != fields[i].key;
      LookupFinds(fields[1..], i - 1);
    }
  }

  lemma {:induction false} LookupSeven(fields: seq<Field>)
    requires DistinctKeys(fields) && |fields| == 7
    ensures Lookup(fields, fields[0].key) == Some(fields[0].value) && Lookup(fields, fields[1].key) == Some(fields[1].value)
    ensures Lookup(fields, fields[2].key) == Some(fields[2].value) && Lookup(fields, fields[3].key) == Some(fields[3].value)
    ensures Lookup(fields, fields[4].key) == Some(fields[4].value) && Lookup(fields, fields[5].key) == Some(fields[5].value)
    ensures Lookup(fields, fields[6].key) == Some(fields[6].value)
  {
    forall i: nat | i < 7 ensures Lookup(fields, fields[i].key) == Some(fields[i].value) {
      LookupFinds(fields, i);
    }
  }

  lemma {:induction false} TextOrNullIsNullable(s: Option<string>)
    ensures Nullable(OrNull(s)) == TextOrNull(s)
  {
  }

  lemma {:induction false} LineKeysDiffer(l: CanonicalLine)
    ensures DistinctKeys(LineJson(l).fields)
  {
    assert "debit"[0] != "credit"[0] && "costCenterId"[1] != "credit"[1] && |"partyType"| != |"partyId"|;
    assert "glAccountId"[0] == 'g' && "debit"[0] == 'd' && "activityId"[0] == 'a' && "partyType"[0] == "partyId"[0] == 'p';
    assert "costCenterId"[0] == "credit"[0] == 'c';
  }

  lemma {:induction false} LineIsRead(l: Line)
    ensures ReadsLine(LineJson(CanonLine(l)), l)
  {
    LineKeysDiffer(CanonLine(l));
    LookupSeven(LineJson(CanonLine(l)).fields);
    AmountTextIsAmountText(l.debit);
    AmountTextIsAmountText(l.credit);
    TextOrNullIsNullable(l.costCenterId);
    TextOrNullIsNullable(l.activityId);
    TextOrNullIsNullable(l.partyType);
    TextOrNullIsNullable(l.partyId);
  }

  lemma {:induction false} PayloadKeysDiffer(c: CanonicalPayload)
    ensures DistinctKeys(PayloadJson(c).fields)
  {
    assert "sequenceNumber"[1] == 'e' && "sourceType"[1] == "sourceId"[1] == 'o' && |"sourceType"| != |"sourceId"|;
    assert "entryNumber"[0] == "entryDate"[0] == 'e' && |"entryNumber"| != |"entryDate"|;
    assert "sequenceNumber"[0] == "sourceType"[0] == "sourceId"[0] == 's' && "memo"[0] == 'm' && "lines"[0] == 'l';
  }

  lemma {:induction false} PayloadObjectIsRead(env: Env, p: Payload)
    ensures ReadsPayload(env, PayloadJson(Canonical(env, p)), p)
  {
    var c, sorted := Canonical(env, p), SortedLines(env, p.lines);
    var v := PayloadJson(c);
    PayloadKeysDiffer(c);
    LookupSeven(v.fields);
    TextOrNullIsNullable(p.sourceId);
    TextOrNullIsNullable(p.memo);
    CanonicalLinesAreSorted(env, p.lines);
    forall i | 0 <= i < |sorted| ensures ReadsLine(Q.Map(LineJson, c.lines)[i], sorted[i]) {
      LineIsRead(sorted[i]);
    }
    assert ReadsLines(Q.Map(LineJson, c.lines), sorted);
    assert IsDatePart(c.entryDate, p.entryDate);
  }

  /**
   The text that is hashed is a JSON object that names every field of the payload and
   of its sorted lines, amounts with two decimals, absent and empty texts as null.
   */
  lemma {:induction false} HashedTextReads(env: Env, p: Payload)
    ensures Read(PayloadText(env, p)).Some? && ReadsPayload(env, Read(PayloadText(env, p)).value, p)
  {
    StringifyReadsBack(PayloadJson(Canonical(env, p)));
    PayloadObjectIsRead(env, p);
  }

  // ---- When the order of the lines does not matter ----

  lemma {:induction false} LineOrderIsPreorder(env: Env)
    requires env.Valid()
    ensures S.TotalPreorder(LineOrder(env.compare))
  {
    var leq := LineOrder(env.compare);
    forall a, b, c | leq(a, b) && leq(b, c) ensures leq(a, c) {
      CompareIsTransitive(env, a, b, c);
    }
  }

  lemma {:induction false} CompareIsTransitive(env: Env, a: CanonicalLine, b: CanonicalLine, c: CanonicalLine)
    requires env.Valid()
    requires CompareLines(env.compare, a, b) <= 0 && CompareLines(env.compare, b, c) <= 0
    ensures CompareLines(env.compare, a, c) <= 0
  {
    TransitiveTexts(env, a.glAccountId, b.glAccountId, c.glAccountId);
    TransitiveTexts(env, FixedText(a.debit), FixedText(b.debit), FixedText(c.debit));
    TransitiveTexts(env, FixedText(a.credit), FixedText(b.credit), FixedText(c.credit));
    TransitiveTexts(env, OrEmpty(a.partyId), OrEmpty(b.partyId), OrEmpty(c.partyId));
  }

  lemma {:induction false} TransitiveTexts(env: Env, a: string, b: string, c: string)
    requires env.Valid()
    ensures env.compare(a, b) <= 0 && env.compare(b, c) <= 0 ==>
      && env.compare(a, c) <= 0
      && (env.compare(a, c) == 0 <==> env.compare(a, b) == 0 && env.compare(b, c) == 0)
  {
  }

  /** Whatever order the lines are given in, the hashed text is the same. */
  ghost predicate IgnoresLineOrder(env: Env, p: Payload) {
    forall ls: seq<Line> :: multiset(ls) == multiset(p.lines) ==>
      PayloadText(env, p.(lines := ls)) == PayloadText(env, p)
  }

  /** Lines the sort cannot tell apart agree in every field. */
  ghost predicate NoAmbiguousLines(env: Env, lines: seq<Line>) {
    forall a, b :: a in lines && b in lines && CompareKeys(env.compare, SortKeys(a), SortKeys(b)) == 0 ==> SameLine(a, b)
  }

  lemma {:induction false} TiesCompareEqual(env: Env, a: CanonicalLine, b: CanonicalLine)
    requires env.Valid()
    ensures S.Tied(LineOrder(env.compare), a, b) <==> CompareLines(env.compare, a, b) == 0
  {
  }

  lemma {:induction false} LinesTieAlike(env: Env, a: Line, b: Line)
    requires env.Valid()
    ensures CompareKeys(env.compare, SortKeys(a), SortKeys(b)) == 0 <==> S.Tied(LineOrder(env.compare), CanonLine(a), CanonLine(b))
    ensures SameLine(a, b) <==> CanonLine(a) == CanonLine(b)
  {
    KeysDecide(env.compare, a, b);
    TiesCompareEqual(env, CanonLine(a), CanonLine(b));
    SameLineExactly(a, b);
  }

  lemma {:induction false} UnambiguousLinesDoNotTie(env: Env, lines: seq<Line>)
    requires env.Valid() && NoAmbiguousLines(env, lines)
    ensures S.TiesAreEqual(LineOrder(env.compare), CanonLines(lines))
  {
    if !S.TiesAreEqual(LineOrder(env.compare), CanonLines(lines)) {
      var i, j := S.FindTie(LineOrder(env.compare), CanonLines(lines));
      LinesTieAlike(env, lines[i], lines[j]);
    }
  }

  lemma {:induction false} LinesInTies(env: Env, lines: seq<Line>, a: Line, b: Line)
    requires env.Valid() && S.TiesAreEqual(LineOrder(env.compare), CanonLines(lines)) && a in lines && b in lines
    ensures CompareKeys(env.compare, SortKeys(a), SortKeys(b)) == 0 ==> SameLine(a, b)
  {
    var i :| 0 <= i < |lines| && lines[i] == a;
    var j :| 0 <= j < |lines| && lines[j] == b;
    LinesTieAlike(env, a, b);
    assert CanonLines(lines)[i] in CanonLines(lines) && CanonLines(lines)[j] in CanonLines(lines);
  }

  lemma {:induction false} AmbiguityIsATie(env: Env, lines: seq<Line>)
    requires env.Valid()
    ensures NoAmbiguousLines(env, lines) <==> S.TiesAreEqual(LineOrder(env.compare), CanonLines(lines))
  {
    if NoAmbiguousLines(env, lines) {
      UnambiguousLinesDoNotTie(env, lines);
    }
    if S.TiesAreEqual(LineOrder(env.compare), CanonLines(lines)) {
      forall a, b | a in lines && b in lines
        ensures CompareKeys(env.compare, SortKeys(a), SortKeys(b)) == 0 ==> SameLine(a, b)
      {
        LinesInTies(env, lines, a, b);
      }
    }
  }

  lemma {:induction false} ReorderedLinesHashAlike(env: Env, p: Payload, ls: seq<Line>)
    requires env.Valid() && NoAmbiguousLines(env, p.lines) && multiset(ls) == multiset(p.lines)
    ensures PayloadText(env, p.(lines := ls)) == PayloadText(env, p)
  {
    LineOrderIsPreorder(env);
    AmbiguityIsATie(env, p.lines);
    Q.MapKeepsElements(CanonLine, ls, p.lines);
    S.SortForgetsOrder(LineOrder(env.compare), CanonLines(p.lines), CanonLines(ls));
  }

  lemma {:induction false} AmbiguousLinesHashApart(env: Env, p: Payload, i: nat, j: nat)
    requires env.Valid() && i < j < |p.lines|
    requires CompareKeys(env.compare, SortKeys(p.lines[i]), SortKeys(p.lines[j])) == 0
    requires !SameLine(p.lines[i], p.lines[j])
    ensures PayloadText(env, p.(lines := p.lines[i := p.lines[j]][j := p.lines[i]])) != PayloadText(env, p)
  {
    var ls := p.lines[i := p.lines[j]][j := p.lines[i]];
    var cs := CanonLines(p.lines);
    assert CanonLines(ls) == cs[i := cs[j]][j := cs[i]];
    LineOrderIsPreorder(env);
    LinesTieAlike(env, p.lines[i], p.lines[j]);
    S.SwapOfTiesShows(LineOrder(env.compare), cs, i, j);
    CanonicalTextIsFaithful(env, p.(lines := ls), p);
  }

  /**
   The header comment promises that sorting makes identical transactions hash
   alike.  That holds exactly for entries without ambiguous lines: the sort key
   is account, debit, credit and party, while cost centre, activity and party
   type are hashed but never compared.
   */
  lemma {:induction false} OrderIndependence(env: Env, p: Payload)
    requires env.Valid()
    ensures IgnoresLineOrder(env, p) <==> NoAmbiguousLines(env, p.lines)
  {
    if NoAmbiguousLines(env, p.lines) {
      forall ls: seq<Line> | multiset(ls) == multiset(p.lines)
        ensures PayloadText(env, p.(lines := ls)) == PayloadText(env, p)
      {
        ReorderedLinesHashAlike(env, p, ls);
      }
    } else {
      var ls := AmbiguityShows(env, p);
    }
  }

  lemma {:induction false} AmbiguityShows(env: Env, p: Payload) returns (ls: seq<Line>)
    requires env.Valid() && !NoAmbiguousLines(env, p.lines)
    ensures multiset(ls) == multiset(p.lines)
    ensures PayloadText(env, p.(lines := ls)) != PayloadText(env, p)
  {
    AmbiguityIsATie(env, p.lines);
    var i, j := S.FindTie(LineOrder(env.compare), CanonLines(p.lines));
    LinesTieAlike(env, p.lines[i], p.lines[j]);
    AmbiguousLinesHashApart(env, p, i, j);
    Q.SwapKeepsElements(p.lines, i, j);
    ls := p.lines[i := p.lines[j]][j := p.lines[i]];
  }

  /** Two revenue lines that differ only in their cost centre: the hash depends on their order. */
  lemma {:induction false} CostCentresDefeatTheSort(env: Env, p: Payload, line: Line)
    requires env.Valid()
    requires p.lines == [line.(costCenterId := Some("north")), line.(costCenterId := Some("south"))]
    ensures PayloadText(env, p.(lines := [p.lines[1], p.lines[0]])) != PayloadText(env, p)
  {
    var a, b := p.lines[0], p.lines[1];
    assert "north"[0] != "south"[0];
    assert !SameText(a.costCenterId, b.costCenterId);
    KeysDecide(env.compare, a, b);
    assert [p.lines[1], p.lines[0]] == p.lines[0 := p.lines[1]][1 := p.lines[0]];
    AmbiguousLinesHashApart(env, p, 0, 1);
  }

  // ---- The chain ----

  datatype Entry = Entry(payload: Payload, prevHash: string, entryHash: string)

  /** The hash entry i must name as its predecessor's. */
  function PrevHash(entries: seq<Entry>, i: nat): (h: string)
    requires i <= |entries|
  {
    if i == 0 then GENESIS_HASH else entries[i - 1].entryHash
  }

  ghost predicate LinkHolds(env: Env, entries: seq<Entry>, i: nat)
    requires i < |entries|
  {
    && entries[i].payload.sequenceNumber == i + 1
    && entries[i].prevHash == PrevHash(entries, i)
    && entries[i].entryHash == EntryHash(env, entries[i].prevHash, PayloadHash(env, entries[i].payload))
  }

  ghost predicate PrefixHolds(env: Env, entries: seq<Entry>, n: nat)
    requires n <= |entries|
  {
    forall i: nat :: i < n ==> LinkHolds(env, entries, i)
  }

  ghost predicate ChainHolds(env: Env, entries: seq<Entry>) {
    PrefixHolds(env, entries, |entries|)
  }

  datatype ChainError =
    | SequenceGap(expectedNumber: int, foundNumber: int)
    | BrokenLink(expectedHash: string, foundHash: string)
    | Tampered(expectedHash: string, foundHash: string)

  datatype Break = Break(sequenceNumber: int, entryNumber: string, error: ChainError)

  datatype ChainResult = ChainResult(isValid: bool, verifiedCount: nat, broken: Option<Break>)

  /** What is wrong with entry i, the first failing check deciding. */
  ghost predicate Diagnoses(env: Env, entries: seq<Entry>, i: nat, b: Break)
    requires i < |entries|
  {
    var e := entries[i];
    && b.sequenceNumber == e.payload.sequenceNumber
    && b.entryNumber == e.payload.entryNumber
    && match b.error
       case SequenceGap(want, found) =>
         want == i + 1 && found == e.payload.sequenceNumber && want != found
       case BrokenLink(want, found) =>
         && e.payload.sequenceNumber == i + 1
         && want == PrevHash(entries, i) && found == e.prevHash && want != found
       case Tampered(want, found) =>
         && e.payload.sequenceNumber == i + 1 && e.prevHash == PrevHash(entries, i)
         && want == EntryHash(env, e.prevHash, PayloadHash(env, e.payload))
         && found == e.entryHash && want != found
  }

  /** Finds the longest prefix of the journal that holds, and what breaks it. */
  method VerifyJournalChain(env: Env, entries: seq<Entry>) returns (r: ChainResult)
    ensures r.verifiedCount <= |entries| && PrefixHolds(env, entries, r.verifiedCount)
    ensures forall n: nat :: n <= |entries| && PrefixHolds(env, entries, n) ==> n <= r.verifiedCount
    ensures r.isValid <==> ChainHolds(env, entries)
    ensures r.isValid <==> r.broken.None?
    ensures !r.isValid ==>
      r.verifiedCount < |entries| && Diagnoses(env, entries, r.verifiedCount, r.broken.value)
  {
    var expectedPrevHash := GENESIS_HASH;
    for i := 0 to |entries|
      invariant PrefixHolds(env, entries, i)
      invariant expectedPrevHash == PrevHash(entries, i)
    {
      var entry := entries[i];
      var expectedSeq := i + 1;
      var error: Option<ChainError> := None;
      if entry.payload.sequenceNumber != expectedSeq {
        error := Some(SequenceGap(expectedSeq, entry.payload.sequenceNumber));
      } else if entry.prevHash != expectedPrevHash {
        error := Some(BrokenLink(expectedPrevHash, entry.prevHash));
      } else {
        var computed := EntryHash(env, entry.prevHash, PayloadHash(env, entry.payload));
        if entry.entryHash != computed {
          error := Some(Tampered(computed, entry.entryHash));
        }
      }
      if error.Some? {
        assert !LinkHolds(env, entries, i);
        return ChainResult(false, i, Some(Break(entry.payload.sequenceNumber, entry.payload.entryNumber, error.value)));
      }
      expectedPrevHash := entry.entryHash;
    }
    return ChainResult(true, |entries|, None);
  }

  /** An entry sealed onto a journal, as the posting routine does it. */
  function Seal(env: Env, entries: seq<Entry>, p: Payload): (e: Entry) {
    var numbered := p.(sequenceNumber := |entries| + 1);
    var prev := PrevHash(entries, |entries|);
    Entry(numbered, prev, EntryHash(env, prev, PayloadHash(env, numbered)))
  }

  /** Appending keeps a chain exactly when the new entry is sealed. */
  lemma {:induction false} AppendingKeepsTheChain(env: Env, entries: seq<Entry>, e: Entry)
    requires ChainHolds(env, entries)
    ensures ChainHolds(env, entries + [e]) <==> e == Seal(env, entries, e.payload)
  {
    var longer := entries + [e];
    assert forall i: nat :: i < |entries| ==> longer[i] == entries[i];
    forall i: nat | i < |entries| ensures LinkHolds(env, longer, i) {
      assert LinkHolds(env, entries, i);
      assert PrevHash(longer, i) == PrevHash(entries, i);
    }
    assert PrevHash(longer, |entries|) == PrevHash(entries, |entries|);
    if ChainHolds(env, longer) {
      assert LinkHolds(env, longer, |entries|);
    }
  }

  /** The same hash, and payloads that agree in every field. */
  ghost predicate SameRecord(env: Env, a: Entry, b: Entry) {
    a.entryHash == b.entryHash && SamePayload(env, a.payload, b.payload)
  }

  /** Two entries with the same correct hash agree, or exhibit a collision. */
  lemma {:induction false} EqualHashesAgree(env: Env, a: Entry, b: Entry) returns (x: string, y: string)
    requires env.Valid() && a.entryHash == b.entryHash
    requires a.entryHash == EntryHash(env, a.prevHash, PayloadHash(env, a.payload))
    requires b.entryHash == EntryHash(env, b.prevHash, PayloadHash(env, b.payload))
    ensures env.Collide(x, y) || (a.prevHash == b.prevHash && SameRecord(env, a, b))
  {
    var h, k := PayloadHash(env, a.payload), PayloadHash(env, b.payload);
    x, y := a.prevHash + ":" + h, b.prevHash + ":" + k;
    if x == y {
      assert |h| == |k| == 64;
      assert h == x[|x| - 64..] == k;
      assert a.prevHash == x[..|x| - 65] == b.prevHash;
      x, y := PayloadText(env, a.payload), PayloadText(env, b.payload);
      TextsAgreeExactly(env, a.payload, b.payload);
    }
  }

  /**
   The head hash commits to the whole history: two journals that hold and end in
   the same hash have the same length and agree in every field of every entry,
   amounts to the cent, or the lemma returns two texts with one hash.
   */
  lemma {:induction false} HeadCommitsToHistory(env: Env, a: seq<Entry>, b: seq<Entry>) returns (x: string, y: string)
    requires env.Valid() && ChainHolds(env, a) && ChainHolds(env, b)
    requires a != [] && b != [] && a[|a| - 1].entryHash == b[|b| - 1].entryHash
    ensures env.Collide(x, y)
         || (|a| == |b| && forall i :: 0 <= i < |a| ==> SameRecord(env, a[i], b[i]))
    decreases |a|
  {
    x, y := LastEntriesAgree(env, a, b);
    if !env.Collide(x, y) && |a| > 1 {
      var m := |a| - 1;
      PrefixIsChain(env, a, m);
      PrefixIsChain(env, b, m);
      x, y := HeadCommitsToHistory(env, a[..m], b[..m]);
      assert forall i :: 0 <= i < m ==> a[..m][i] == a[i] && b[..m][i] == b[i];
    }
  }

  lemma {:induction false} LastEntriesAgree(env: Env, a: seq<Entry>, b: seq<Entry>) returns (x: string, y: string)
    requires env.Valid() && ChainHolds(env, a) && ChainHolds(env, b)
    requires a != [] && b != [] && a[|a| - 1].entryHash == b[|b| - 1].entryHash
    ensures env.Collide(x, y)
         || (|a| == |b| && SameRecord(env, a[|a| - 1], b[|b| - 1])
             && (|a| > 1 ==> a[|a| - 2].entryHash == b[|b| - 2].entryHash))
  {
    assert LinkHolds(env, a, |a| - 1) && LinkHolds(env, b, |b| - 1);
    x, y := EqualHashesAgree(env, a[|a| - 1], b[|b| - 1]);
  }

  lemma {:induction false} PrefixIsChain(env: Env, entries: seq<Entry>, n: nat)
    requires n <= |entries| && PrefixHolds(env, entries, n)
    ensures ChainHolds(env, entries[..n])
  {
    forall i: nat | i < n ensures LinkHolds(env, entries[..n], i) {
      assert LinkHolds(env, entries, i);
    }
  }

  /**
   Editing the payload of one stored entry in any field while leaving the hashes alone
   is pinpointed: the verified prefix ends right before it (or there is a collision).
   */
  lemma {:induction false} EditIsPinpointed(env: Env, entries: seq<Entry>, k: nat, edited: Payload) returns (x: string, y: string)
    requires env.Valid() && ChainHolds(env, entries) && k < |entries|
    requires !SamePayload(env, edited, entries[k].payload)
    ensures var stored := entries[k := entries[k].(payload := edited)];
      env.Collide(x, y) || (PrefixHolds(env, stored, k) && !LinkHolds(env, stored, k))
  {
    var stored := entries[k := entries[k].(payload := edited)];
    forall i: nat | i < k ensures LinkHolds(env, stored, i) {
      assert LinkHolds(env, entries, i);
    }
    assert LinkHolds(env, entries, k);
    x, y := "", "";
    if LinkHolds(env, stored, k) {
      x, y := EqualHashesAgree(env, stored[k], entries[k]);
    }
  }

  /** So is editing one line: an amount by a cent or more, or any of its texts. */
  lemma {:induction false} LineEditIsPinpointed(env: Env, entries: seq<Entry>, k: nat, j: nat, line: Line)
    returns (x: string, y: string)
    requires env.Valid() && ChainHolds(env, entries) && k < |entries| && j < |entries[k].payload.lines|
    requires EditedInEarnest(entries[k].payload.lines[j], line)
    ensures var p := entries[k].payload;
      var stored := entries[k := entries[k].(payload := p.(lines := p.lines[j := line]))];
      env.Collide(x, y) || (PrefixHolds(env, stored, k) && !LinkHolds(env, stored, k))
  {
    var p := entries[k].payload;
    EditsInEarnestDiffer(p.lines[j], line);
    LineEditShows(env, p, j, line, p.lines[j := line]);
    x, y := EditIsPinpointed(env, entries, k, p.(lines := p.lines[j := line]));
  }
}
