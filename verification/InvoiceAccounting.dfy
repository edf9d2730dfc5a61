/**
 Sales invoice totals and journal lines from one pipeline, and the reversal of
 journal lines.  Posted amounts are whole cents; amounts and rates that come in
 are real numbers, rounded where the source rounds.
 */
module InvoiceAccounting {
  import opened Wrappers
  import opened Rounding

  datatype JournalLine = JournalLine(
    accountId: Option<string>,
    accountCode: Option<string>,
    debit: int,
    credit: int,
    foreignDebit: Option<int>,
    foreignCredit: Option<int>,
    foreignCurrencyCode: Option<string>,
    exchangeRate: Option<real>,
    memo: Option<string>,
    partyId: Option<string>,
    partyType: Option<string>,
    costCenterId: Option<string>,
    activityId: Option<string>)

  datatype InvoiceLine = InvoiceLine(
    revenueAccountCode: string,
    netAmount: real,
    taxAmount: real,
    salesTaxAccountCode: Option<string>,
    description: Option<string>,
    costCenterId: Option<string>,
    activityId: Option<string>)

  datatype Invoice = Invoice(
    invoiceNumber: string,
    arAccountCode: string,
    customerId: string,
    currencyCode: string,
    exchangeRate: real,
    lines: seq<InvoiceLine>,
    costCenterId: Option<string>,
    activityId: Option<string>)

  datatype Financials = Financials(
    subtotal: int, taxTotal: int, grandTotal: int, baseGrandTotal: int, journalLines: seq<JournalLine>)

  predicate Truthy(s: Option<string>) {
    s.Some? && s.value != ""
  }

  /** JavaScript's `a || b`. */
  function OrElse(a: Option<string>, b: Option<string>): (r: Option<string>) {
    if Truthy(a) then a else b
  }

  function Rate(inv: Invoice): (r: real)
    ensures r > 0.0
  {
    if inv.exchangeRate > 0.0 then inv.exchangeRate else 1.0
  }

  /** The amount at a rate, to the nearest cent, halves away from zero. */
  function ToBase(cents: int, rate: real): (c: int)
    ensures -0.5 <= c as real - cents as real * rate <= 0.5
    ensures c as real - cents as real * rate == 0.5 ==> cents as real * rate > 0.0
    ensures c as real - cents as real * rate == -0.5 ==> cents as real * rate < 0.0
  {
    RoundHalfAway(cents as real * rate)
  }

  predicate PostsTax(line: InvoiceLine) {
    Cents(line.taxAmount) > 0 && Truthy(line.salesTaxAccountCode)
  }

  function CreditLine(inv: Invoice, line: InvoiceLine, account: string, cents: int, memo: string): (j: JournalLine) {
    JournalLine(None, Some(account), 0, ToBase(cents, Rate(inv)), Some(0), Some(cents), Some(inv.currencyCode),
      Some(Rate(inv)), Some(memo), None, None,
      OrElse(line.costCenterId, inv.costCenterId), OrElse(line.activityId, inv.activityId))
  }

  function RevenueLine(inv: Invoice, line: InvoiceLine): (j: JournalLine) {
    CreditLine(inv, line, line.revenueAccountCode, Cents(line.netAmount),
      if Truthy(line.description) then line.description.value else "Revenue: " + inv.invoiceNumber)
  }

  function TaxLine(inv: Invoice, line: InvoiceLine): (j: JournalLine)
    requires PostsTax(line)
  {
    CreditLine(inv, line, line.salesTaxAccountCode.value, Cents(line.taxAmount), "Sales Tax: " + inv.invoiceNumber)
  }

  function ReceivableLine(inv: Invoice, grandTotal: int): (j: JournalLine) {
    JournalLine(None, Some(inv.arAccountCode), ToBase(grandTotal, Rate(inv)), 0, Some(grandTotal), Some(0),
      Some(inv.currencyCode), Some(Rate(inv)), Some("Accounts Receivable: " + inv.invoiceNumber),
      Some(inv.customerId), Some("customer"), inv.costCenterId, inv.activityId)
  }

  function NetTotal(lines: seq<InvoiceLine>): (c: int) {
    if lines == [] then 0 else NetTotal(lines[..|lines| - 1]) + Cents(lines[|lines| - 1].netAmount)
  }

  function TaxTotal(lines: seq<InvoiceLine>): (c: int) {
    if lines == [] then 0 else TaxTotal(lines[..|lines| - 1]) + Cents(lines[|lines| - 1].taxAmount)
  }

  function CreditLines(inv: Invoice, lines: seq<InvoiceLine>): (js: seq<JournalLine>) {
    if lines == [] then []
    else
      var line := lines[|lines| - 1];
      CreditLines(inv, lines[..|lines| - 1]) + [RevenueLine(inv, line)]
        + if PostsTax(line) then [TaxLine(inv, line)] else []
  }

  /** The journal an invoice is meant to post: the receivable first, then the credits line by line. */
  function Journal(inv: Invoice): (js: seq<JournalLine>) {
    [ReceivableLine(inv, NetTotal(inv.lines) + TaxTotal(inv.lines))] + CreditLines(inv, inv.lines)
  }

  // ---- What each account gets ----

  /** What an amount of a line counts as in document currency when it is posted. */
  function ForeignDebit(j: JournalLine): (c: int) {
    if j.foreignDebit.Some? then j.foreignDebit.value else j.debit
  }

  function ForeignCredit(j: JournalLine): (c: int) {
    if j.foreignCredit.Some? then j.foreignCredit.value else j.credit
  }

  function Sum(amount: JournalLine -> int, js: seq<JournalLine>): (c: int) {
    if js == [] then 0 else Sum(amount, js[..|js| - 1]) + amount(js[|js| - 1])
  }

  function BaseNet(j: JournalLine): (c: int) { j.debit - j.credit }

  function ForeignNet(j: JournalLine): (c: int) { ForeignDebit(j) - ForeignCredit(j) }

  /** The balance of one account over some lines. */
  function AccountNet(amount: JournalLine -> int, js: seq<JournalLine>, id: Option<string>, code: Option<string>): (c: int) {
    if js == [] then 0
    else
      var j := js[|js| - 1];
      AccountNet(amount, js[..|js| - 1], id, code)
        + if j.accountId == id && j.accountCode == code then amount(j) else 0
  }

  /** What the lines credit to an account as revenue, each amount converted on its own. */
  function RevenueTo(convert: int -> int, lines: seq<InvoiceLine>, account: string): (c: int) {
    if lines == [] then 0
    else
      var line := lines[|lines| - 1];
      RevenueTo(convert, lines[..|lines| - 1], account)
        + if line.revenueAccountCode == account then convert(Cents(line.netAmount)) else 0
  }

  /** What they credit to it as tax: the positive taxes of the lines whose tax account it is. */
  function TaxTo(convert: int -> int, lines: seq<InvoiceLine>, account: string): (c: int) {
    if lines == [] then 0
    else
      var line := lines[|lines| - 1];
      TaxTo(convert, lines[..|lines| - 1], account)
        + if account != "" && line.salesTaxAccountCode == Some(account) && Cents(line.taxAmount) > 0
          then convert(Cents(line.taxAmount)) else 0
  }

  function InDocument(): (f: int -> int) { cents => cents }

  /** Each amount at the invoice's rate, or at 1 when that is not positive, rounded to cents. */
  function InBase(inv: Invoice): (f: int -> int) {
    cents => ToBase(cents, if inv.exchangeRate > 0.0 then inv.exchangeRate else 1.0)
  }

  /** The account gets the total if it is the receivable account, less its revenue and its tax. */
  ghost predicate AccountGets(
    amount: JournalLine -> int, convert: int -> int, inv: Invoice, js: seq<JournalLine>, total: int, account: string)
  {
    AccountNet(amount, js, None, Some(account))
      == (if account == inv.arAccountCode then convert(total) else 0)
         - RevenueTo(convert, inv.lines, account) - TaxTo(convert, inv.lines, account)
  }

  lemma {:induction false} AccountNetAppend(amount: JournalLine -> int, js: seq<JournalLine>, j: JournalLine, account: string)
    ensures AccountNet(amount, js + [j], None, Some(account))
         == AccountNet(amount, js, None, Some(account)) + if j.accountId == None && j.accountCode == Some(account) then amount(j) else 0
  {
    assert (js + [j])[..|js|] == js;
  }

  lemma {:induction false} AccountNetOfOne(amount: JournalLine -> int, j: JournalLine, account: string)
    ensures AccountNet(amount, [j], None, Some(account)) == if j.accountId == None && j.accountCode == Some(account) then amount(j) else 0
  {
    AccountNetAppend(amount, [], j, account);
    assert [] + [j] == [j];
  }

  /** A journal line is worth what it was converted from. */
  ghost predicate Worth(amount: JournalLine -> int, convert: int -> int, inv: Invoice) {
    && (forall line, account, cents, memo :: amount(CreditLine(inv, line, account, cents, memo)) == -convert(cents))
    && forall total :: amount(ReceivableLine(inv, total)) == convert(total)
  }

  lemma {:induction false} CreditsGoTo(
    amount: JournalLine -> int, convert: int -> int, inv: Invoice, lines: seq<InvoiceLine>, account: string)
    requires Worth(amount, convert, inv)
    ensures AccountNet(amount, CreditLines(inv, lines), None, Some(account))
         == -RevenueTo(convert, lines, account) - TaxTo(convert, lines, account)
    decreases lines
  {
    if lines == [] {
    } else {
      var line, init := lines[|lines| - 1], lines[..|lines| - 1];
      var before := CreditLines(inv, init);
      CreditsGoTo(amount, convert, inv, init, account);
      AccountNetAppend(amount, before, RevenueLine(inv, line), account);
      if PostsTax(line) {
        AccountNetAppend(amount, before + [RevenueLine(inv, line)], TaxLine(inv, line), account);
      } else {
        assert before + [RevenueLine(inv, line)] + [] == before + [RevenueLine(inv, line)];
      }
    }
  }

  lemma {:induction false} JournalGoesTo(amount: JournalLine -> int, convert: int -> int, inv: Invoice, account: string)
    requires Worth(amount, convert, inv)
    ensures AccountGets(amount, convert, inv, Journal(inv), NetTotal(inv.lines) + TaxTotal(inv.lines), account)
  {
    var ar := ReceivableLine(inv, NetTotal(inv.lines) + TaxTotal(inv.lines));
    AccountNetConcat(amount, [ar], CreditLines(inv, inv.lines), None, Some(account));
    AccountNetOfOne(amount, ar, account);
    CreditsGoTo(amount, convert, inv, inv.lines, account);
  }

  lemma {:induction false} ForeignAmountsAreWorth(inv: Invoice)
    ensures Worth(ForeignNet, InDocument(), inv)
  {
  }

  lemma {:induction false} InBaseIsToBase(inv: Invoice, cents: int)
    ensures InBase(inv)(cents) == ToBase(cents, Rate(inv))
  {
    assert InBase(inv)(cents) == ToBase(cents, if inv.exchangeRate > 0.0 then inv.exchangeRate else 1.0);
  }

  lemma {:induction false} BaseAmountsAreWorth(inv: Invoice)
    ensures Worth(BaseNet, InBase(inv), inv)
  {
    forall line, account, cents, memo ensures BaseNet(CreditLine(inv, line, account, cents, memo)) == -InBase(inv)(cents) {
      InBaseIsToBase(inv, cents);
    }
    forall total ensures BaseNet(ReceivableLine(inv, total)) == InBase(inv)(total) {
      InBaseIsToBase(inv, total);
    }
  }

  /** Every account gets what the invoice says it should. */
  ghost predicate AccountsGet(amount: JournalLine -> int, convert: int -> int, inv: Invoice, js: seq<JournalLine>, total: int) {
    forall account: string :: AccountGets(amount, convert, inv, js, total, account)
  }

  lemma {:induction false} JournalGoesToAll(amount: JournalLine -> int, convert: int -> int, inv: Invoice)
    requires Worth(amount, convert, inv)
    ensures AccountsGet(amount, convert, inv, Journal(inv), NetTotal(inv.lines) + TaxTotal(inv.lines))
  {
    var total := NetTotal(inv.lines) + TaxTotal(inv.lines);
    forall account: string ensures AccountGets(amount, convert, inv, Journal(inv), total, account) {
      JournalGoesTo(amount, convert, inv, account);
    }
  }

  /** The invoice line's own value, or else the header's. */
  predicate OwnOrHeaders(value: Option<string>, own: Option<string>, header: Option<string>) {
    value == if own.Some? && own.value != "" then own else header
  }

  /** The journal line is the credit of the invoice line's revenue, or of its tax. */
  predicate CreditsLine(j: JournalLine, inv: Invoice, line: InvoiceLine) {
    && j.debit == 0 && j.foreignDebit == Some(0)
    && OwnOrHeaders(j.costCenterId, line.costCenterId, inv.costCenterId)
    && OwnOrHeaders(j.activityId, line.activityId, inv.activityId)
    && ((j.accountCode == Some(line.revenueAccountCode)
           && j.memo == Some(if line.description.Some? && line.description.value != "" then line.description.value
                             else "Revenue: " + inv.invoiceNumber))
        || (j.accountCode == line.salesTaxAccountCode && j.memo == Some("Sales Tax: " + inv.invoiceNumber)))
  }

  ghost predicate CreditsSomeLine(j: JournalLine, inv: Invoice, lines: seq<InvoiceLine>) {
    exists line :: line in lines && CreditsLine(j, inv, line)
  }

  /** The first line is the receivable's, and it alone carries the customer. */
  ghost predicate CarriesParty(inv: Invoice, js: seq<JournalLine>) {
    forall i :: 0 <= i < |js| ==>
      && js[i].partyId == (if i == 0 then Some(inv.customerId) else None)
      && js[i].partyType == (if i == 0 then Some("customer") else None)
  }

  /** All lines carry the currency and the rate. */
  ghost predicate CarriesRate(inv: Invoice, js: seq<JournalLine>) {
    forall i :: 0 <= i < |js| ==>
      && js[i].foreignCurrencyCode == Some(inv.currencyCode)
      && js[i].exchangeRate == Some(if inv.exchangeRate > 0.0 then inv.exchangeRate else 1.0)
  }

  lemma {:induction false} CreditsFollowTheirLines(inv: Invoice, lines: seq<InvoiceLine>)
    ensures forall j :: j in CreditLines(inv, lines) ==> CreditsSomeLine(j, inv, lines)
    ensures forall j :: j in CreditLines(inv, lines) ==> j.partyId == None && j.partyType == None
    ensures CarriesRate(inv, CreditLines(inv, lines))
    decreases lines
  {
    if lines == [] {
    } else {
      var line, init := lines[|lines| - 1], lines[..|lines| - 1];
      CreditsFollowTheirLines(inv, init);
      forall j | j in CreditLines(inv, lines) ensures CreditsSomeLine(j, inv, lines) {
        if j in CreditLines(inv, init) {
          var l :| l in init && CreditsLine(j, inv, l);
          assert l in lines;
        } else {
          assert CreditsLine(j, inv, line) && line in lines;
        }
      }
    }
  }

  /** Every line after the first credits some line of the invoice and takes its memo and dimensions from it. */
  ghost predicate CreditsFollow(inv: Invoice, js: seq<JournalLine>) {
    js != [] && forall j :: j in js[1..] ==> CreditsSomeLine(j, inv, inv.lines)
  }

  lemma {:induction false} JournalFollowsTheInvoice(inv: Invoice)
    ensures CarriesParty(inv, Journal(inv)) && CarriesRate(inv, Journal(inv))
    ensures CreditsFollow(inv, Journal(inv))
  {
    CreditsFollowTheirLines(inv, inv.lines);
    assert Journal(inv)[1..] == CreditLines(inv, inv.lines);
    forall i | 0 < i < |Journal(inv)| ensures Journal(inv)[i].partyId == None && Journal(inv)[i].partyType == None {
      assert Journal(inv)[i] == CreditLines(inv, inv.lines)[i - 1];
    }
  }

  /** Every account gets its share in both currencies, and the base total is the total at the rate. */
  ghost predicate PostsWhatItSays(inv: Invoice, r: Financials) {
    && r.baseGrandTotal == InBase(inv)(r.grandTotal)
    && AccountsGet(ForeignNet, InDocument(), inv, r.journalLines, r.grandTotal)
    && AccountsGet(BaseNet, InBase(inv), inv, r.journalLines, r.grandTotal)
    && CarriesParty(inv, r.journalLines) && CarriesRate(inv, r.journalLines)
  }

  lemma {:induction false} FinancialsAreRight(inv: Invoice, r: Financials)
    requires r.journalLines == Journal(inv) && r.grandTotal == NetTotal(inv.lines) + TaxTotal(inv.lines)
    requires r.baseGrandTotal == ReceivableLine(inv, r.grandTotal).debit
    ensures PostsWhatItSays(inv, r) && CreditsFollow(inv, r.journalLines)
  {
    JournalFollowsTheInvoice(inv);
    InBaseIsToBase(inv, r.grandTotal);
    ForeignAmountsAreWorth(inv);
    BaseAmountsAreWorth(inv);
    JournalGoesToAll(ForeignNet, InDocument(), inv);
    JournalGoesToAll(BaseNet, InBase(inv), inv);
  }

  method CalculateSalesInvoiceFinancials(input: Invoice) returns (r: Financials)
    ensures r.journalLines == Journal(input)
    ensures r.subtotal == NetTotal(input.lines) && r.taxTotal == TaxTotal(input.lines)
    ensures r.grandTotal == r.subtotal + r.taxTotal
    ensures PostsWhatItSays(input, r) && CreditsFollow(input, r.journalLines)
  {
    var subtotal, taxTotal := 0, 0;
    var journalLines: seq<JournalLine> := [];
    for i := 0 to |input.lines|
      invariant subtotal == NetTotal(input.lines[..i])
      invariant taxTotal == TaxTotal(input.lines[..i])
      invariant journalLines == CreditLines(input, input.lines[..i])
    {
      var line := input.lines[i];
      assert input.lines[..i + 1][..i] == input.lines[..i];
      var tax := Cents(line.taxAmount);
      subtotal := subtotal + Cents(line.netAmount);
      taxTotal := taxTotal + tax;
      journalLines := journalLines + [RevenueLine(input, line)];
      if tax > 0 && Truthy(line.salesTaxAccountCode) {
        journalLines := journalLines + [TaxLine(input, line)];
      }
    }
    assert input.lines[..|input.lines|] == input.lines;
    var grandTotal := subtotal + taxTotal;
    var receivable := ReceivableLine(input, grandTotal);
    r := Financials(subtotal, taxTotal, grandTotal, receivable.debit, [receivable] + journalLines);
    FinancialsAreRight(input, r);
  }

  // ---- Balance ----

  lemma {:induction false} SumAppend(amount: JournalLine -> int, js: seq<JournalLine>, j: JournalLine)
    ensures Sum(amount, js + [j]) == Sum(amount, js) + amount(j)
  {
    assert (js + [j])[..|js|] == js;
  }

  lemma {:induction false} SumConcat(amount: JournalLine -> int, a: seq<JournalLine>, b: seq<JournalLine>)
    ensures Sum(amount, a + b) == Sum(amount, a) + Sum(amount, b)
    decreases b
  {
    if b == [] {
      assert a + b == a;
    } else {
      assert (a + b)[..|a + b| - 1] == a + b[..|b| - 1];
      SumConcat(amount, a, b[..|b| - 1]);
    }
  }

  /** Tax that is charged in the header but credited to no account. */
  function UnpostedTax(lines: seq<InvoiceLine>): (c: int) {
    if lines == [] then 0
    else
      UnpostedTax(lines[..|lines| - 1])
        + if PostsTax(lines[|lines| - 1]) then 0 else Cents(lines[|lines| - 1].taxAmount)
  }

  lemma {:induction false} CreditsCoverAllButUnpostedTax(inv: Invoice, lines: seq<InvoiceLine>)
    ensures Sum(ForeignNet, CreditLines(inv, lines)) == UnpostedTax(lines) - NetTotal(lines) - TaxTotal(lines)
    decreases lines
  {
    if lines == [] {
    } else {
      var line, init := lines[|lines| - 1], lines[..|lines| - 1];
      CreditsCoverAllButUnpostedTax(inv, init);
      var some := CreditLines(inv, init) + [RevenueLine(inv, line)];
      SumAppend(ForeignNet, CreditLines(inv, init), RevenueLine(inv, line));
      if PostsTax(line) {
        SumAppend(ForeignNet, some, TaxLine(inv, line));
      } else {
        assert some + [] == some;
      }
    }
  }

  /**
   In document currency the journal is out by exactly the unposted tax, so it
   balances if and only if the unposted taxes cancel out.
   */
  lemma {:induction false} DocumentImbalanceIsUnpostedTax(inv: Invoice)
    ensures Sum(ForeignNet, Journal(inv)) == UnpostedTax(inv.lines)
  {
    var ar := ReceivableLine(inv, NetTotal(inv.lines) + TaxTotal(inv.lines));
    SumConcat(ForeignNet, [ar], CreditLines(inv, inv.lines));
    SumAppend(ForeignNet, [], ar);
    assert [] + [ar] == [ar];
    CreditsCoverAllButUnpostedTax(inv, inv.lines);
  }

  /** Every line's tax is zero, or positive with an account to go to. */
  ghost predicate TaxesArePostable(lines: seq<InvoiceLine>) {
    forall line :: line in lines ==> Cents(line.taxAmount) == 0 || PostsTax(line)
  }

  lemma {:induction false} PostableTaxesArePosted(lines: seq<InvoiceLine>)
    requires TaxesArePostable(lines)
    ensures UnpostedTax(lines) == 0
    decreases lines
  {
    if lines == [] {
    } else {
      PostableTaxesArePosted(lines[..|lines| - 1]);
    }
  }

  lemma {:induction false} DocumentBalances(inv: Invoice)
    requires TaxesArePostable(inv.lines)
    ensures Sum(ForeignNet, Journal(inv)) == 0
  {
    PostableTaxesArePosted(inv.lines);
    DocumentImbalanceIsUnpostedTax(inv);
  }

  /** A tax without an account (or a negative one) leaves the journal out of balance. */
  lemma {:induction false} TaxWithoutAccountUnbalances(inv: Invoice, line: InvoiceLine)
    requires inv.lines == [line] && line.taxAmount == 1.0 && line.salesTaxAccountCode == None
    ensures Sum(ForeignNet, Journal(inv)) == 100
  {
    RoundingWholeUnits(100);
    assert inv.lines[..0] == [];
    DocumentImbalanceIsUnpostedTax(inv);
  }

  /** How far the base amounts of a line are from its document amounts at the rate. */
  ghost function Drift(j: JournalLine, rate: real): (x: real) {
    BaseNet(j) as real - ForeignNet(j) as real * rate
  }

  ghost function TotalDrift(js: seq<JournalLine>, rate: real): (x: real) {
    if js == [] then 0.0 else TotalDrift(js[..|js| - 1], rate) + Drift(js[|js| - 1], rate)
  }

  /** At most n half cents. */
  ghost predicate WithinHalves(x: real, n: nat) {
    -(n as real) <= 2.0 * x <= n as real
  }

  ghost predicate NearRate(j: JournalLine, rate: real) {
    WithinHalves(Drift(j, rate), 1)
  }

  lemma {:induction false} DriftAddsUp(js: seq<JournalLine>, rate: real)
    ensures TotalDrift(js, rate) == Sum(BaseNet, js) as real - Sum(ForeignNet, js) as real * rate
    decreases js
  {
    if js == [] {
    } else {
      var init, j := js[..|js| - 1], js[|js| - 1];
      DriftAddsUp(init, rate);
      Distribute(Sum(ForeignNet, init), ForeignNet(j), rate);
    }
  }

  lemma {:induction false} Distribute(a: int, b: int, rate: real)
    ensures (a + b) as real * rate == a as real * rate + b as real * rate
  {
  }

  lemma {:induction false} DriftIsBounded(js: seq<JournalLine>, rate: real)
    requires forall j :: j in js ==> NearRate(j, rate)
    ensures WithinHalves(TotalDrift(js, rate), |js|)
    decreases js
  {
    if js == [] {
    } else {
      DriftIsBounded(js[..|js| - 1], rate);
      assert NearRate(js[|js| - 1], rate);
    }
  }

  /** The base amounts of a line are its document amounts at the rate, rounded. */
  ghost predicate AtRate(j: JournalLine, rate: real) {
    BaseNet(j) == ToBase(ForeignNet(j), rate)
  }

  lemma {:induction false} ToBaseIsOdd(cents: int, rate: real)
    ensures ToBase(-cents, rate) == -ToBase(cents, rate)
  {
    assert (-cents) as real * rate == -(cents as real * rate);
    RoundingIsOdd(cents as real * rate);
  }

  lemma {:induction false} CreditsAreAtRate(inv: Invoice, lines: seq<InvoiceLine>)
    ensures forall j :: j in CreditLines(inv, lines) ==> AtRate(j, Rate(inv))
    decreases lines
  {
    if lines == [] {
    } else {
      var line := lines[|lines| - 1];
      CreditsAreAtRate(inv, lines[..|lines| - 1]);
      ToBaseIsOdd(Cents(line.netAmount), Rate(inv));
      ToBaseIsOdd(Cents(line.taxAmount), Rate(inv));
    }
  }

  lemma {:induction false} JournalIsAtRate(inv: Invoice)
    ensures forall j :: j in Journal(inv) ==> AtRate(j, Rate(inv))
  {
    CreditsAreAtRate(inv, inv.lines);
  }

  lemma {:induction false} JournalIsNearRate(inv: Invoice)
    ensures forall j :: j in Journal(inv) ==> NearRate(j, Rate(inv))
  {
    JournalIsAtRate(inv);
  }

  /**
   In base currency the journal is out by the unposted tax at the rate, give or
   take half a cent per line.
   */
  lemma {:induction false} BaseImbalanceIsBounded(inv: Invoice)
    ensures WithinHalves(Sum(BaseNet, Journal(inv)) as real - UnpostedTax(inv.lines) as real * Rate(inv), |Journal(inv)|)
  {
    JournalIsNearRate(inv);
    DocumentImbalanceIsUnpostedTax(inv);
    ImbalanceIsBounded(Journal(inv), Rate(inv), UnpostedTax(inv.lines));
  }

  lemma {:induction false} ImbalanceIsBounded(js: seq<JournalLine>, rate: real, foreign: int)
    requires Sum(ForeignNet, js) == foreign && forall j :: j in js ==> NearRate(j, rate)
    ensures WithinHalves(Sum(BaseNet, js) as real - foreign as real * rate, |js|)
  {
    DriftIsBounded(js, rate);
    DriftAddsUp(js, rate);
  }

  /** A rounding that gains a full half cent went away from zero: the document amount has its sign. */
  lemma {:induction false} FullDriftHasSign(j: JournalLine, rate: real)
    requires rate > 0.0 && AtRate(j, rate)
    ensures 2.0 * Drift(j, rate) == 1.0 ==> ForeignNet(j) >= 1
    ensures 2.0 * Drift(j, rate) == -1.0 ==> ForeignNet(j) <= -1
  {
    var c := ForeignNet(j);
    assert c <= 0 ==> c as real * rate <= 0.0;
    assert c >= 0 ==> c as real * rate >= 0.0;
  }

  /** Every line can only drift by its full half cent if all document amounts have the same sign. */
  lemma {:induction false} FullDriftIsOneSided(js: seq<JournalLine>, rate: real)
    requires rate > 0.0 && forall j :: j in js ==> AtRate(j, rate) && NearRate(j, rate)
    ensures 2.0 * TotalDrift(js, rate) == |js| as real ==> Sum(ForeignNet, js) >= |js|
    ensures 2.0 * TotalDrift(js, rate) == -(|js| as real) ==> Sum(ForeignNet, js) <= -|js|
    decreases js
  {
    if js == [] {
    } else {
      var init, last := js[..|js| - 1], js[|js| - 1];
      assert AtRate(last, rate) && NearRate(last, rate);
      FullDriftIsOneSided(init, rate);
      DriftIsBounded(init, rate);
      FullDriftHasSign(last, rate);
    }
  }

  /**
   With postable taxes the base debit and credit differ by at most m/2 cents for
   m credit lines: the (m+1)/2 of m+1 roundings is never reached, as the document
   amounts of a balanced journal cannot all have one sign.
   */
  lemma {:induction false} BaseDriftIsBounded(inv: Invoice)
    requires TaxesArePostable(inv.lines)
    ensures var m := |CreditLines(inv, inv.lines)|;
      -m <= 2 * Sum(BaseNet, Journal(inv)) <= m
  {
    var js, sum := Journal(inv), Sum(BaseNet, Journal(inv));
    PostableTaxesArePosted(inv.lines);
    DocumentImbalanceIsUnpostedTax(inv);
    JournalIsAtRate(inv);
    JournalIsNearRate(inv);
    DriftAddsUp(js, Rate(inv));
    DriftIsBounded(js, Rate(inv));
    FullDriftIsOneSided(js, Rate(inv));
    assert TotalDrift(js, Rate(inv)) == sum as real;
    assert 2 * sum != |js| && 2 * sum != -|js|;
  }

  // ---- The rates at which base currency balances ----

  ghost function Product(a: real, x: real): (p: real) { a * x }

  lemma {:induction false} WholeRateIsExact(cents: int, rate: real)
    requires IsWhole(rate)
    ensures ToBase(cents, rate) as real == cents as real * rate
  {
    RoundingWholeUnits(cents * rate.Floor);
    assert (cents * rate.Floor) as real == cents as real * rate;
  }

  lemma {:induction false} WholeRateHasNoDrift(js: seq<JournalLine>, rate: real)
    requires IsWhole(rate) && forall j :: j in js ==> AtRate(j, rate)
    ensures TotalDrift(js, rate) == 0.0
    decreases js
  {
    if js == [] {
    } else {
      var last := js[|js| - 1];
      assert AtRate(last, rate);
      WholeRateHasNoDrift(js[..|js| - 1], rate);
      WholeRateIsExact(ForeignNet(last), rate);
    }
  }

  /** At a whole rate nothing drifts: the base imbalance is exactly the unposted tax at the rate. */
  lemma {:induction false} WholeRateNeverDrifts(inv: Invoice)
    requires IsWhole(Rate(inv))
    ensures Sum(BaseNet, Journal(inv)) as real == Product(UnpostedTax(inv.lines) as real, Rate(inv))
  {
    JournalIsAtRate(inv);
    DocumentImbalanceIsUnpostedTax(inv);
    WholeRateIsExactOverall(Journal(inv), Rate(inv), UnpostedTax(inv.lines));
  }

  lemma {:induction false} WholeRateIsExactOverall(js: seq<JournalLine>, rate: real, foreign: int)
    requires IsWhole(rate) && Sum(ForeignNet, js) == foreign && forall j :: j in js ==> AtRate(j, rate)
    ensures Sum(BaseNet, js) as real == Product(foreign as real, rate)
  {
    WholeRateHasNoDrift(js, rate);
    DriftAddsUp(js, rate);
  }

  /** At rate 1 in particular it is the unposted tax. */
  lemma {:induction false} UnitRateNeverDrifts(inv: Invoice)
    requires Rate(inv) == 1.0
    ensures Sum(BaseNet, Journal(inv)) == UnpostedTax(inv.lines)
  {
    assert (1.0).Floor == 1;
    WholeRateNeverDrifts(inv);
  }

  ghost predicate IsWholeRate(inv: Invoice) {
    IsWhole(Rate(inv))
  }

  lemma {:induction false} SoundInvoicesBalance(inv: Invoice)
    requires IsWholeRate(inv) && TaxesArePostable(inv.lines)
    ensures Sum(BaseNet, Journal(inv)) == 0
  {
    PostableTaxesArePosted(inv.lines);
    WholeRateNeverDrifts(inv);
  }

  const PENNY := InvoiceLine("", 0.01, 0.0, None, None, None, None)

  /** n lines of one cent, without tax. */
  function Pennies(n: nat): (lines: seq<InvoiceLine>) {
    seq(n, _ => PENNY)
  }

  function PennyInvoice(n: nat, rate: real): (inv: Invoice) {
    Invoice("", "", "", "", rate, Pennies(n), None, None)
  }

  lemma {:induction false} PennyLine(inv: Invoice)
    ensures Cents(PENNY.netAmount) == 1 && Cents(PENNY.taxAmount) == 0 && !PostsTax(PENNY)
    ensures BaseNet(RevenueLine(inv, PENNY)) == -ToBase(1, Rate(inv))
  {
    RoundingWholeUnits(1);
    RoundingWholeUnits(0);
  }

  lemma {:induction false} PennyTotals(n: nat)
    ensures NetTotal(Pennies(n)) == n && TaxTotal(Pennies(n)) == 0
    decreases n
  {
    if n == 0 {
    } else {
      assert Pennies(n)[..n - 1] == Pennies(n - 1);
      PennyTotals(n - 1);
      PennyLine(PennyInvoice(n, 1.0));
    }
  }

  function Repeated(n: nat, j: JournalLine): (js: seq<JournalLine>) {
    seq(n, _ => j)
  }

  lemma {:induction false} PennyCredits(inv: Invoice, n: nat)
    ensures CreditLines(inv, Pennies(n)) == Repeated(n, RevenueLine(inv, PENNY))
    decreases n
  {
    if n == 0 {
    } else {
      assert Pennies(n)[..n - 1] == Pennies(n - 1);
      PennyCredits(inv, n - 1);
      PennyLine(inv);
      assert Repeated(n, RevenueLine(inv, PENNY)) == Repeated(n - 1, RevenueLine(inv, PENNY)) + [RevenueLine(inv, PENNY)];
    }
  }

  lemma {:induction false} RepeatedSum(n: nat, j: JournalLine)
    ensures Sum(BaseNet, Repeated(n, j)) == n * BaseNet(j)
    decreases n
  {
    if n == 0 {
    } else {
      RepeatedSum(n - 1, j);
      SumAppend(BaseNet, Repeated(n - 1, j), j);
      assert Repeated(n, j) == Repeated(n - 1, j) + [j];
      OneMoreTimes(n, BaseNet(j));
    }
  }

  lemma {:induction false} OneMoreTimes(n: nat, x: int)
    ensures n * x == (n - 1) * x + x
  {
  }

  lemma {:induction false} JournalSum(inv: Invoice)
    ensures Sum(BaseNet, Journal(inv))
         == ToBase(NetTotal(inv.lines) + TaxTotal(inv.lines), Rate(inv)) + Sum(BaseNet, CreditLines(inv, inv.lines))
  {
    var ar := ReceivableLine(inv, NetTotal(inv.lines) + TaxTotal(inv.lines));
    SumConcat(BaseNet, [ar], CreditLines(inv, inv.lines));
    SumAppend(BaseNet, [], ar);
    assert [] + [ar] == [ar];
  }

  lemma {:induction false} PenniesArePostable(n: nat)
    ensures TaxesArePostable(Pennies(n))
  {
    PennyLine(PennyInvoice(n, 1.0));
  }

  lemma {:induction false} PennyJournal(n: nat, rate: real)
    requires rate > 0.0
    ensures Sum(BaseNet, Journal(PennyInvoice(n, rate))) == ToBase(n, rate) - n * ToBase(1, rate)
  {
    var inv := PennyInvoice(n, rate);
    var credit := RevenueLine(inv, PENNY);
    JournalSum(inv);
    PennyTotals(n);
    PennyCredits(inv, n);
    RepeatedSum(n, credit);
    PennyLine(inv);
    NegatedProduct(n, BaseNet(credit), ToBase(1, rate));
  }

  lemma {:induction false} NegatedProduct(n: nat, x: int, y: int)
    requires x == -y
    ensures n * x == -(n * y)
  {
  }

  /** The bound is reached for every number of lines: m one-cent lines at rate 0.5 are out by m/2 cents, rounded down. */
  lemma {:induction false} BoundIsReached(m: nat)
    ensures var inv := PennyInvoice(m, 0.5);
      |CreditLines(inv, inv.lines)| == m && Sum(BaseNet, Journal(inv)) == -(m / 2)
  {
    PennyCredits(PennyInvoice(m, 0.5), m);
    PennyJournal(m, 0.5);
    NearestIsUnique(0.5, 1);
    NearestIsUnique(m as real * 0.5, (m + 1) / 2);
  }

  /** If the rate is not whole, enough one-cent lines drift: as many as make its fraction exceed half a cent. */
  lemma {:induction false} PenniesDrift(rate: real) returns (n: nat)
    requires rate > 0.0 && !IsWhole(rate)
    ensures Sum(BaseNet, Journal(PennyInvoice(n, rate))) != 0
  {
    var unit := ToBase(1, rate);
    WholeIsWhole(unit, rate);
    n := ManyExceed(Abs(unit as real - rate));
    PennyJournal(n, rate);
    UnitsMissRounding(n, unit, rate);
  }

  lemma {:induction false} WholeIsWhole(n: int, rate: real)
    ensures n as real == rate ==> IsWhole(rate)
  {
    assert (n as real).Floor == n;
  }

  lemma {:induction false} ManyExceed(fraction: real) returns (n: nat)
    requires fraction > 0.0
    ensures Product(n as real, fraction) > 0.5
  {
    var q := HalfOver(fraction);
    n := q.Floor + 1;
    MoreIsMore(n as real, q, fraction);
  }

  lemma {:induction false} HalfOver(fraction: real) returns (q: real)
    requires fraction > 0.0
    ensures q > 0.0 && Product(q, fraction) == 0.5
  {
    q := 0.5 / fraction;
  }

  lemma {:induction false} MoreIsMore(a: real, b: real, x: real)
    requires a > b && x > 0.0
    ensures Product(a, x) > Product(b, x)
  {
    assert (a - b) * x > 0.0;
  }

  lemma {:induction false} UnitsMissRounding(n: nat, unit: int, rate: real)
    requires Product(n as real, Abs(unit as real - rate)) > 0.5
    ensures ToBase(n, rate) != n * unit
  {
    ProductAbs(n, unit as real - rate);
    ProductOfDifference(n, unit, rate);
    RoundingMisses(Product(n as real, rate), n * unit);
  }

  lemma {:induction false} ProductAbs(n: nat, x: real)
    ensures Abs(Product(n as real, x)) == Product(n as real, Abs(x))
  {
    assert x >= 0.0 ==> n as real * x >= 0.0;
    assert x <= 0.0 ==> n as real * x <= 0.0;
  }

  lemma {:induction false} ProductOfDifference(n: nat, unit: int, rate: real)
    ensures (n * unit) as real - Product(n as real, rate) == Product(n as real, unit as real - rate)
  {
    assert (n * unit) as real == n as real * unit as real;
  }

  lemma {:induction false} RoundingMisses(x: real, k: int)
    requires Abs(k as real - x) > 0.5
    ensures RoundHalfAway(x) != k
  {
  }

  /** Journals with postable taxes all balance in base currency if and only if the rate is a whole number. */
  lemma {:induction false} BaseBalancesAtWholeRates(rate: real)
    requires rate > 0.0
    ensures IsWhole(rate) <==>
      forall inv: Invoice :: Rate(inv) == rate && TaxesArePostable(inv.lines) ==> Sum(BaseNet, Journal(inv)) == 0
  {
    if IsWhole(rate) {
      forall inv: Invoice | Rate(inv) == rate && TaxesArePostable(inv.lines) ensures Sum(BaseNet, Journal(inv)) == 0 {
        SoundInvoicesBalance(inv);
      }
    } else {
      var n := PenniesDrift(rate);
      PenniesArePostable(n);
      assert Rate(PennyInvoice(n, rate)) == rate;
    }
  }

  // ---- Reversal ----

  function ReversalMemo(memo: Option<string>, memoPrefix: string): (r: Option<string>) {
    if Truthy(memo) then Some(memoPrefix + memo.value) else None
  }

  function ReverseLine(j: JournalLine, memoPrefix: string): (r: JournalLine) {
    j.(debit := j.credit, credit := j.debit, foreignDebit := j.foreignCredit, foreignCredit := j.foreignDebit,
       memo := ReversalMemo(j.memo, memoPrefix))
  }

  function BuildReversal(js: seq<JournalLine>, memoPrefix: string): (r: seq<JournalLine>)
    ensures |r| == |js| && forall i :: 0 <= i < |js| ==> r[i] == ReverseLine(js[i], memoPrefix)
  {
    seq(|js|, i requires 0 <= i < |js| => ReverseLine(js[i], memoPrefix))
  }

  lemma {:induction false} AccountNetConcat(amount: JournalLine -> int, a: seq<JournalLine>, b: seq<JournalLine>,
                                            id: Option<string>, code: Option<string>)
    ensures AccountNet(amount, a + b, id, code) == AccountNet(amount, a, id, code) + AccountNet(amount, b, id, code)
    decreases b
  {
    if b == [] {
      assert a + b == a;
    } else {
      assert (a + b)[..|a + b| - 1] == a + b[..|b| - 1];
      AccountNetConcat(amount, a, b[..|b| - 1], id, code);
    }
  }

  lemma {:induction false} ReversalNegatesAccount(amount: JournalLine -> int, js: seq<JournalLine>, prefix: string,
                                                  id: Option<string>, code: Option<string>)
    requires forall j :: amount(ReverseLine(j, prefix)) == -amount(j)
    ensures AccountNet(amount, BuildReversal(js, prefix), id, code) == -AccountNet(amount, js, id, code)
    decreases js
  {
    if js == [] {
    } else {
      var init := js[..|js| - 1];
      assert BuildReversal(js, prefix)[..|js| - 1] == BuildReversal(init, prefix);
      ReversalNegatesAccount(amount, init, prefix, id, code);
    }
  }

  /** Lines followed by their reversal leave every account where it was, in both currencies. */
  lemma {:induction false} ReversalNetsToZero(js: seq<JournalLine>, prefix: string, id: Option<string>, code: Option<string>)
    ensures AccountNet(BaseNet, js + BuildReversal(js, prefix), id, code) == 0
    ensures AccountNet(ForeignNet, js + BuildReversal(js, prefix), id, code) == 0
  {
    ReversalNegatesAccount(BaseNet, js, prefix, id, code);
    ReversalNegatesAccount(ForeignNet, js, prefix, id, code);
    AccountNetConcat(BaseNet, js, BuildReversal(js, prefix), id, code);
    AccountNetConcat(ForeignNet, js, BuildReversal(js, prefix), id, code);
  }

  lemma {:induction false} ReversalNegatesSum(js: seq<JournalLine>, prefix: string)
    ensures Sum(BaseNet, BuildReversal(js, prefix)) == -Sum(BaseNet, js)
    decreases js
  {
    if js == [] {
    } else {
      var init := js[..|js| - 1];
      assert BuildReversal(js, prefix)[..|js| - 1] == BuildReversal(init, prefix);
      ReversalNegatesSum(init, prefix);
    }
  }

  /** Reversing twice gives the lines back, but for the memo, which then carries both prefixes. */
  lemma {:induction false} ReversalIsAnInvolution(js: seq<JournalLine>, p: string, q: string)
    ensures var twice := BuildReversal(BuildReversal(js, p), q);
      && |twice| == |js|
      && forall i :: 0 <= i < |js| ==>
           && twice[i] == js[i].(memo := twice[i].memo)
           && (Truthy(js[i].memo) ==> twice[i].memo == Some(q + (p + js[i].memo.value)))
           && (!Truthy(js[i].memo) ==> twice[i].memo == None)
  {
  }
}
