/**
 How much of each order line can still be invoiced, and what keeps an order
 from being billed twice while goods are shipped, invoices are raised and
 cancelled, and returns are refunded.
 */
module OrderQuantities {
  import opened Wrappers
  import Inventory
  import Q = Sequences

  datatype InvoiceLine = InvoiceLine(orderLineId: string, quantityInvoiced: real)

  datatype Invoice = Invoice(stateCode: string, lines: Option<seq<InvoiceLine>>)

  datatype ReturnLine = ReturnLine(orderLineId: string, resolution: Option<string>, quantityReturned: Option<real>)

  datatype OrderReturn = OrderReturn(stateCode: string, lines: Option<seq<ReturnLine>>)

  datatype PickingLine = PickingLine(orderLineId: string, quantityShipped: Option<real>)

  datatype SalesLine = SalesLine(id: string, productId: Option<string>, productType: Option<string>, quantity: Option<real>)

  datatype PurchaseLine = PurchaseLine(id: string, quantityReceived: Option<real>)

  /** A line of the answer; only lines that can be invoiced are listed. */
  datatype Invoiceable = Invoiceable(orderLineId: string, maxQty: real)

  function OrZero(q: Option<real>): (x: real) {
    if q.Some? then q.value else 0.0
  }

  function OrEmpty<T>(s: Option<seq<T>>): (r: seq<T>) {
    if s.Some? then s.value else []
  }

  function Max0(x: real): (m: real) {
    if x > 0.0 then x else 0.0
  }

  // ---- What the calculation sees ----

  /** `find`: the first line for the order line, and no other. */
  function FirstInvoiced(lines: seq<InvoiceLine>, id: string): (x: real) {
    if lines == [] then 0.0
    else if lines[0].orderLineId == id then lines[0].quantityInvoiced
    else FirstInvoiced(lines[1..], id)
  }

  function FirstRefunded(lines: seq<ReturnLine>, id: string): (x: real) {
    if lines == [] then 0.0
    else if lines[0].orderLineId == id && lines[0].resolution == Some("refund") then OrZero(lines[0].quantityReturned)
    else FirstRefunded(lines[1..], id)
  }

  function FirstShipped(lines: seq<PickingLine>, id: string): (x: real) {
    if lines == [] then 0.0
    else if lines[0].orderLineId == id then OrZero(lines[0].quantityShipped)
    else FirstShipped(lines[1..], id)
  }

  predicate Cancelled(inv: Invoice) {
    inv.stateCode == "cancelled"
  }

  /** What one invoice counts for: the sales side leaves cancelled ones out, the purchase side does not look. */
  function CountedIn(inv: Invoice, id: string, sales: bool): (x: real) {
    if sales && Cancelled(inv) then 0.0 else FirstInvoiced(OrEmpty(inv.lines), id)
  }

  function Counted(invoices: seq<Invoice>, id: string, sales: bool): (x: real) {
    if invoices == [] then 0.0
    else Counted(invoices[..|invoices| - 1], id, sales) + CountedIn(invoices[|invoices| - 1], id, sales)
  }

  function RefundedIn(ret: OrderReturn, id: string): (x: real) {
    if ret.stateCode == "processed" then FirstRefunded(OrEmpty(ret.lines), id) else 0.0
  }

  function Refunded(goodsBack: seq<OrderReturn>, id: string): (x: real) {
    if goodsBack == [] then 0.0
    else Refunded(goodsBack[..|goodsBack| - 1], id) + RefundedIn(goodsBack[|goodsBack| - 1], id)
  }

  /** A stocked line must be shipped before it is invoiced; any other only ordered. */
  function Base(line: SalesLine, picking: seq<PickingLine>): (x: real) {
    if Inventory.IsStockedProduct(line.productId, line.productType) then FirstShipped(picking, line.id)
    else OrZero(line.quantity)
  }

  function MaxSales(line: SalesLine, invoices: seq<Invoice>, picking: seq<PickingLine>, goodsBack: seq<OrderReturn>): (x: real) {
    Max0(Base(line, picking) - Counted(invoices, line.id, true) - Refunded(goodsBack, line.id))
  }

  function CalculateInvoiceableQuantities(
    lines: seq<SalesLine>, invoices: seq<Invoice>, picking: seq<PickingLine>, goodsBack: seq<OrderReturn>): (r: seq<Invoiceable>)
  {
    if lines == [] then []
    else
      var q := MaxSales(lines[0], invoices, picking, goodsBack);
      (if q > 0.0 then [Invoiceable(lines[0].id, q)] else [])
        + CalculateInvoiceableQuantities(lines[1..], invoices, picking, goodsBack)
  }

  function MaxPurchase(line: PurchaseLine, invoices: seq<Invoice>): (x: real) {
    Max0(OrZero(line.quantityReceived) - Counted(invoices, line.id, false))
  }

  function CalculatePurchaseInvoiceableQuantities(lines: seq<PurchaseLine>, invoices: seq<Invoice>): (r: seq<Invoiceable>) {
    if lines == [] then []
    else
      var q := MaxPurchase(lines[0], invoices);
      (if q > 0.0 then [Invoiceable(lines[0].id, q)] else [])
        + CalculatePurchaseInvoiceableQuantities(lines[1..], invoices)
  }

  /** What a reader of the answer may invoice on an order line: nothing when it is not listed. */
  function Limit(answer: seq<Invoiceable>, id: string): (x: real) {
    if answer == [] then 0.0
    else if answer[0].orderLineId == id then answer[0].maxQty
    else Limit(answer[1..], id)
  }

  ghost predicate DistinctSales(lines: seq<SalesLine>) {
    forall i, j :: 0 <= i < j < |lines| ==> lines[i].id != lines[j].id
  }

  ghost predicate DistinctPurchase(lines: seq<PurchaseLine>) {
    forall i, j :: 0 <= i < j < |lines| ==> lines[i].id != lines[j].id
  }

  /** Leaving the exhausted lines out loses nothing: every limit can be read off the answer. */
  lemma {:induction false} SalesLimitIsMax(
    lines: seq<SalesLine>, invoices: seq<Invoice>, picking: seq<PickingLine>, goodsBack: seq<OrderReturn>, id: string)
    requires DistinctSales(lines)
    ensures var answer := CalculateInvoiceableQuantities(lines, invoices, picking, goodsBack);
      && (forall line :: line in lines && line.id == id ==> Limit(answer, id) == MaxSales(line, invoices, picking, goodsBack))
      && ((forall line :: line in lines ==> line.id != id) ==> Limit(answer, id) == 0.0)
      && forall r :: r in answer ==> r.maxQty > 0.0
    decreases lines
  {
    if lines == [] {
    } else {
      SalesLimitIsMax(lines[1..], invoices, picking, goodsBack, id);
      assert lines[0] in lines && forall l :: l in lines <==> l == lines[0] || l in lines[1..];
      var q := MaxSales(lines[0], invoices, picking, goodsBack);
      var rest := CalculateInvoiceableQuantities(lines[1..], invoices, picking, goodsBack);
      assert ([Invoiceable(lines[0].id, q)] + rest)[1..] == rest;
      assert [] + rest == rest;
    }
  }

  lemma {:induction false} PurchaseLimitIsMax(lines: seq<PurchaseLine>, invoices: seq<Invoice>, id: string)
    requires DistinctPurchase(lines)
    ensures var answer := CalculatePurchaseInvoiceableQuantities(lines, invoices);
      && (forall line :: line in lines && line.id == id ==> Limit(answer, id) == MaxPurchase(line, invoices))
      && ((forall line :: line in lines ==> line.id != id) ==> Limit(answer, id) == 0.0)
      && forall r :: r in answer ==> r.maxQty > 0.0
    decreases lines
  {
    if lines == [] {
    } else {
      PurchaseLimitIsMax(lines[1..], invoices, id);
      assert lines[0] in lines && forall l :: l in lines <==> l == lines[0] || l in lines[1..];
      var q := MaxPurchase(lines[0], invoices);
      var rest := CalculatePurchaseInvoiceableQuantities(lines[1..], invoices);
      assert ([Invoiceable(lines[0].id, q)] + rest)[1..] == rest;
      assert [] + rest == rest;
    }
  }

  // ---- The limit, read off the inputs ----

  /** i is the first position at which p holds. */
  ghost predicate IsFirst<T>(p: T -> bool, s: seq<T>, i: int) {
    0 <= i < |s| && p(s[i]) && forall k :: 0 <= k < i ==> !p(s[k])
  }

  /** x is f of the first element that p picks, or zero when it picks none. */
  ghost predicate TakenFromFirst<T>(p: T -> bool, f: T -> real, s: seq<T>, x: real) {
    (exists i :: IsFirst(p, s, i) && x == f(s[i])) || ((forall k :: 0 <= k < |s| ==> !p(s[k])) && x == 0.0)
  }

  /** What an invoice takes of the order line: the quantity of its first line for it; a cancelled sales invoice takes nothing. */
  ghost predicate Takes(inv: Invoice, id: string, sales: bool, x: real) {
    if (sales && inv.stateCode == "cancelled") || inv.lines.None? then x == 0.0
    else TakenFromFirst((l: InvoiceLine) => l.orderLineId == id, (l: InvoiceLine) => l.quantityInvoiced, inv.lines.value, x)
  }

  /** What a return takes: if it is processed, the quantity of its first refunded line for the order line. */
  ghost predicate GivesBack(ret: OrderReturn, id: string, x: real) {
    if ret.stateCode != "processed" || ret.lines.None? then x == 0.0
    else TakenFromFirst((l: ReturnLine) => l.orderLineId == id && l.resolution == Some("refund"),
                        (l: ReturnLine) => if l.quantityReturned.Some? then l.quantityReturned.value else 0.0,
                        ret.lines.value, x)
  }

  /** What the first picking line for the order line says was shipped. */
  ghost predicate Shipped(picking: seq<PickingLine>, id: string, x: real) {
    TakenFromFirst((l: PickingLine) => l.orderLineId == id,
                   (l: PickingLine) => if l.quantityShipped.Some? then l.quantityShipped.value else 0.0, picking, x)
  }

  ghost predicate TakenBy(invoices: seq<Invoice>, id: string, sales: bool, taken: seq<real>) {
    |taken| == |invoices| && forall i :: 0 <= i < |invoices| ==> Takes(invoices[i], id, sales, taken[i])
  }

  ghost predicate GivenBack(goodsBack: seq<OrderReturn>, id: string, back: seq<real>) {
    |back| == |goodsBack| && forall i :: 0 <= i < |goodsBack| ==> GivesBack(goodsBack[i], id, back[i])
  }

  /** A product of the catalogue whose type is absent, empty or "inventory". */
  predicate FromStock(line: SalesLine) {
    && line.productId.Some? && line.productId.value != ""
    && line.productId.value != "00000000-0000-4000-8000-000000000000"
    && line.productId.value != "00000000-0000-0000-0000-000000000000"
    && (line.productType.None? || line.productType.value == "" || line.productType.value == "inventory")
  }

  /** What may be invoiced at most: what was shipped of a stocked line, what was ordered of any other. */
  ghost predicate MayBeInvoiced(line: SalesLine, picking: seq<PickingLine>, x: real) {
    if FromStock(line) then Shipped(picking, line.id, x)
    else x == if line.quantity.Some? then line.quantity.value else 0.0
  }

  lemma {:induction false} FirstIsUnique<T>(p: T -> bool, f: T -> real, s: seq<T>, x: real, y: real)
    requires TakenFromFirst(p, f, s, x) && TakenFromFirst(p, f, s, y)
    ensures x == y
  {
    if i, j :| IsFirst(p, s, i) && x == f(s[i]) && IsFirst(p, s, j) && y == f(s[j]) {
      assert i == j;
    }
  }

  lemma {:induction false} FirstOfTail<T>(p: T -> bool, f: T -> real, s: seq<T>, x: real)
    requires s != [] && !p(s[0]) && TakenFromFirst(p, f, s[1..], x)
    ensures TakenFromFirst(p, f, s, x)
  {
    if i :| IsFirst(p, s[1..], i) && x == f(s[1..][i]) {
      assert forall k :: 0 < k < i + 1 ==> s[k] == s[1..][k - 1];
      assert IsFirst(p, s, i + 1);
    } else {
      assert forall k :: 0 < k < |s| ==> s[k] == s[1..][k - 1];
    }
  }

  lemma {:induction false} FirstIsHead<T>(p: T -> bool, f: T -> real, s: seq<T>)
    requires s != [] && p(s[0])
    ensures TakenFromFirst(p, f, s, f(s[0]))
  {
    assert IsFirst(p, s, 0);
  }

  lemma {:induction false} FirstInvoicedIsTaken(lines: seq<InvoiceLine>, id: string)
    ensures TakenFromFirst((l: InvoiceLine) => l.orderLineId == id, (l: InvoiceLine) => l.quantityInvoiced, lines, FirstInvoiced(lines, id))
    decreases lines
  {
    var p, f := (l: InvoiceLine) => l.orderLineId == id, (l: InvoiceLine) => l.quantityInvoiced;
    if lines == [] {
    } else if lines[0].orderLineId == id {
      FirstIsHead(p, f, lines);
    } else {
      FirstInvoicedIsTaken(lines[1..], id);
      FirstOfTail(p, f, lines, FirstInvoiced(lines, id));
    }
  }

  lemma {:induction false} FirstRefundedIsGivenBack(lines: seq<ReturnLine>, id: string)
    ensures TakenFromFirst((l: ReturnLine) => l.orderLineId == id && l.resolution == Some("refund"),
                           (l: ReturnLine) => if l.quantityReturned.Some? then l.quantityReturned.value else 0.0,
                           lines, FirstRefunded(lines, id))
    decreases lines
  {
    var p := (l: ReturnLine) => l.orderLineId == id && l.resolution == Some("refund");
    var f := (l: ReturnLine) => if l.quantityReturned.Some? then l.quantityReturned.value else 0.0;
    if lines == [] {
    } else if p(lines[0]) {
      FirstIsHead(p, f, lines);
    } else {
      FirstRefundedIsGivenBack(lines[1..], id);
      FirstOfTail(p, f, lines, FirstRefunded(lines, id));
    }
  }

  lemma {:induction false} FirstShippedIsShipped(picking: seq<PickingLine>, id: string)
    ensures Shipped(picking, id, FirstShipped(picking, id))
    decreases picking
  {
    var p := (l: PickingLine) => l.orderLineId == id;
    var f := (l: PickingLine) => if l.quantityShipped.Some? then l.quantityShipped.value else 0.0;
    if picking == [] {
    } else if p(picking[0]) {
      FirstIsHead(p, f, picking);
    } else {
      FirstShippedIsShipped(picking[1..], id);
      FirstOfTail(p, f, picking, FirstShipped(picking, id));
    }
  }

  lemma {:induction false} CountedInIsTaken(inv: Invoice, id: string, sales: bool, x: real)
    ensures Takes(inv, id, sales, x) <==> x == CountedIn(inv, id, sales)
  {
    var lines := OrEmpty(inv.lines);
    FirstInvoicedIsTaken(lines, id);
    if Takes(inv, id, sales, x) && !(sales && Cancelled(inv)) && inv.lines.Some? {
      FirstIsUnique((l: InvoiceLine) => l.orderLineId == id, (l: InvoiceLine) => l.quantityInvoiced, lines, x, FirstInvoiced(lines, id));
    }
  }

  lemma {:induction false} RefundedInIsGivenBack(ret: OrderReturn, id: string, x: real)
    ensures GivesBack(ret, id, x) <==> x == RefundedIn(ret, id)
  {
    var lines := OrEmpty(ret.lines);
    FirstRefundedIsGivenBack(lines, id);
    if GivesBack(ret, id, x) && ret.stateCode == "processed" && ret.lines.Some? {
      FirstIsUnique((l: ReturnLine) => l.orderLineId == id && l.resolution == Some("refund"),
                    (l: ReturnLine) => if l.quantityReturned.Some? then l.quantityReturned.value else 0.0,
                    lines, x, FirstRefunded(lines, id));
    }
  }

  lemma {:induction false} CountedIsTaken(invoices: seq<Invoice>, id: string, sales: bool, taken: seq<real>)
    requires TakenBy(invoices, id, sales, taken)
    ensures Counted(invoices, id, sales) == Q.Total(taken)
    decreases invoices
  {
    if invoices == [] {
    } else {
      var n := |invoices| - 1;
      CountedIsTaken(invoices[..n], id, sales, taken[..n]);
      CountedInIsTaken(invoices[n], id, sales, taken[n]);
    }
  }

  lemma {:induction false} RefundedIsGivenBack(goodsBack: seq<OrderReturn>, id: string, back: seq<real>)
    requires GivenBack(goodsBack, id, back)
    ensures Refunded(goodsBack, id) == Q.Total(back)
    decreases goodsBack
  {
    if goodsBack == [] {
    } else {
      var n := |goodsBack| - 1;
      RefundedIsGivenBack(goodsBack[..n], id, back[..n]);
      RefundedInIsGivenBack(goodsBack[n], id, back[n]);
    }
  }

  lemma {:induction false} BaseIsInvoiceable(line: SalesLine, picking: seq<PickingLine>, x: real)
    ensures MayBeInvoiced(line, picking, x) <==> x == Base(line, picking)
  {
    FirstShippedIsShipped(picking, line.id);
    if FromStock(line) && MayBeInvoiced(line, picking, x) {
      FirstIsUnique((l: PickingLine) => l.orderLineId == line.id,
                    (l: PickingLine) => if l.quantityShipped.Some? then l.quantityShipped.value else 0.0,
                    picking, x, FirstShipped(picking, line.id));
    }
  }

  /**
   The limit of an order line is what was shipped of it, if it is stocked, and else what
   was ordered, less what the invoices take and the returns give back; never below zero.
   */
  lemma {:induction false} SalesLimit(
    lines: seq<SalesLine>, invoices: seq<Invoice>, picking: seq<PickingLine>, goodsBack: seq<OrderReturn>,
    line: SalesLine, most: real, taken: seq<real>, back: seq<real>)
    requires DistinctSales(lines) && line in lines && MayBeInvoiced(line, picking, most)
    requires TakenBy(invoices, line.id, true, taken) && GivenBack(goodsBack, line.id, back)
    ensures var left := most - Q.Total(taken) - Q.Total(back);
      Limit(CalculateInvoiceableQuantities(lines, invoices, picking, goodsBack), line.id) == if left > 0.0 then left else 0.0
  {
    SalesLimitIsMax(lines, invoices, picking, goodsBack, line.id);
    BaseIsInvoiceable(line, picking, most);
    CountedIsTaken(invoices, line.id, true, taken);
    RefundedIsGivenBack(goodsBack, line.id, back);
  }

  /** What is picked and shipped never changes the limit of a line that is not stocked. */
  lemma {:induction false} PickingLeavesOthersAlone(
    lines: seq<SalesLine>, invoices: seq<Invoice>, picking: seq<PickingLine>, more: seq<PickingLine>,
    goodsBack: seq<OrderReturn>, line: SalesLine)
    requires DistinctSales(lines) && line in lines && !FromStock(line)
    ensures Limit(CalculateInvoiceableQuantities(lines, invoices, more, goodsBack), line.id)
         == Limit(CalculateInvoiceableQuantities(lines, invoices, picking, goodsBack), line.id)
  {
    SalesLimitIsMax(lines, invoices, picking, goodsBack, line.id);
    SalesLimitIsMax(lines, invoices, more, goodsBack, line.id);
  }

  /** The quantity ordered never changes the limit of a stocked line. */
  lemma {:induction false} OrderingLeavesStockedAlone(
    lines: seq<SalesLine>, invoices: seq<Invoice>, picking: seq<PickingLine>, goodsBack: seq<OrderReturn>,
    i: nat, quantity: Option<real>)
    requires DistinctSales(lines) && i < |lines| && FromStock(lines[i])
    ensures var changed := lines[i := lines[i].(quantity := quantity)];
      Limit(CalculateInvoiceableQuantities(changed, invoices, picking, goodsBack), lines[i].id)
      == Limit(CalculateInvoiceableQuantities(lines, invoices, picking, goodsBack), lines[i].id)
  {
    var changed := lines[i := lines[i].(quantity := quantity)];
    assert changed[i] in changed && lines[i] in lines;
    SalesLimitIsMax(lines, invoices, picking, goodsBack, lines[i].id);
    SalesLimitIsMax(changed, invoices, picking, goodsBack, lines[i].id);
  }

  /** On the purchase side it is what was received less what all invoices take, cancelled ones too. */
  lemma {:induction false} PurchaseLimit(
    lines: seq<PurchaseLine>, invoices: seq<Invoice>, line: PurchaseLine, taken: seq<real>)
    requires DistinctPurchase(lines) && line in lines && TakenBy(invoices, line.id, false, taken)
    ensures var left := (if line.quantityReceived.Some? then line.quantityReceived.value else 0.0) - Q.Total(taken);
      Limit(CalculatePurchaseInvoiceableQuantities(lines, invoices), line.id) == if left > 0.0 then left else 0.0
  {
    PurchaseLimitIsMax(lines, invoices, line.id);
    CountedIsTaken(invoices, line.id, false, taken);
  }

  // ---- What is really billed ----

  function AllInvoiced(lines: seq<InvoiceLine>, id: string): (x: real) {
    if lines == [] then 0.0
    else (if lines[0].orderLineId == id then lines[0].quantityInvoiced else 0.0) + AllInvoiced(lines[1..], id)
  }

  /** Every line counts, on every invoice that is not cancelled. */
  function BilledIn(inv: Invoice, id: string): (x: real) {
    if Cancelled(inv) then 0.0 else AllInvoiced(OrEmpty(inv.lines), id)
  }

  function Billed(invoices: seq<Invoice>, id: string): (x: real) {
    if invoices == [] then 0.0
    else Billed(invoices[..|invoices| - 1], id) + BilledIn(invoices[|invoices| - 1], id)
  }

  ghost predicate NonNegative(lines: seq<InvoiceLine>) {
    forall l :: l in lines ==> l.quantityInvoiced >= 0.0
  }

  /** At most one line per order line. */
  ghost predicate OneLineEach(lines: seq<InvoiceLine>) {
    forall i, j :: 0 <= i < j < |lines| ==> lines[i].orderLineId != lines[j].orderLineId
  }

  /** Every line for an order line after the first is for nothing. */
  ghost predicate RepeatsAreEmpty(lines: seq<InvoiceLine>, id: string) {
    forall i, j :: 0 <= i < j < |lines| && lines[i].orderLineId == id && lines[j].orderLineId == id ==>
      lines[j].quantityInvoiced == 0.0
  }

  lemma {:induction false} AllIsNonNegative(lines: seq<InvoiceLine>, id: string)
    requires NonNegative(lines)
    ensures AllInvoiced(lines, id) >= 0.0 && FirstInvoiced(lines, id) >= 0.0
    ensures AllInvoiced(lines, id) == 0.0 <==> forall l :: l in lines && l.orderLineId == id ==> l.quantityInvoiced == 0.0
    decreases lines
  {
    if lines == [] {
    } else {
      AllIsNonNegative(lines[1..], id);
      assert lines[0] in lines && forall l :: l in lines <==> l == lines[0] || l in lines[1..];
    }
  }

  /** An invoice is counted in full exactly when the lines that `find` never reaches are empty. */
  lemma {:induction false} CountedInFull(lines: seq<InvoiceLine>, id: string)
    requires NonNegative(lines)
    ensures FirstInvoiced(lines, id) <= AllInvoiced(lines, id)
    ensures FirstInvoiced(lines, id) == AllInvoiced(lines, id) <==> RepeatsAreEmpty(lines, id)
    decreases lines
  {
    if lines == [] {
    } else {
      var rest := lines[1..];
      assert forall l :: l in rest ==> l in lines;
      CountedInFull(rest, id);
      AllIsNonNegative(rest, id);
      RepeatsOfTail(lines, id);
    }
  }

  lemma {:induction false} RepeatsOfTail(lines: seq<InvoiceLine>, id: string)
    requires lines != []
    ensures RepeatsAreEmpty(lines, id) <==>
      RepeatsAreEmpty(lines[1..], id)
      && (lines[0].orderLineId == id ==> forall l :: l in lines[1..] && l.orderLineId == id ==> l.quantityInvoiced == 0.0)
  {
    var rest := lines[1..];
    if RepeatsAreEmpty(lines, id) {
      forall i, j | 0 <= i < j < |rest| && rest[i].orderLineId == id && rest[j].orderLineId == id
        ensures rest[j].quantityInvoiced == 0.0
      {
        assert lines[i + 1] == rest[i] && lines[j + 1] == rest[j];
      }
    } else {
      var i, j :| 0 <= i < j < |lines| && lines[i].orderLineId == id && lines[j].orderLineId == id
        && lines[j].quantityInvoiced != 0.0;
      assert rest[j - 1] == lines[j];
      if i > 0 {
        assert rest[i - 1] == lines[i];
      }
    }
  }

  /** What an invoice of a sales order looks like: no negative line, and at most one per order line. */
  ghost predicate WellFormed(inv: Invoice) {
    NonNegative(OrEmpty(inv.lines)) && OneLineEach(OrEmpty(inv.lines))
  }

  lemma {:induction false} CountedInIsBilledIn(inv: Invoice, id: string)
    requires NonNegative(OrEmpty(inv.lines))
    ensures 0.0 <= CountedIn(inv, id, true) <= BilledIn(inv, id)
    ensures CountedIn(inv, id, true) == BilledIn(inv, id) <==> Cancelled(inv) || RepeatsAreEmpty(OrEmpty(inv.lines), id)
    ensures CountedIn(inv, id, false) >= CountedIn(inv, id, true)
  {
    CountedInFull(OrEmpty(inv.lines), id);
    AllIsNonNegative(OrEmpty(inv.lines), id);
  }

  /** What is counted on the invoices that are not cancelled is all that is billed if and only if no line repeats in earnest. */
  lemma {:induction false} CountedIsBilled(invoices: seq<Invoice>, id: string)
    requires forall inv :: inv in invoices ==> NonNegative(OrEmpty(inv.lines))
    ensures Counted(invoices, id, true) <= Billed(invoices, id)
    ensures Counted(invoices, id, true) == Billed(invoices, id)
       <==> forall inv :: inv in invoices ==> Cancelled(inv) || RepeatsAreEmpty(OrEmpty(inv.lines), id)
    ensures Counted(invoices, id, false) >= Counted(invoices, id, true)
    decreases invoices
  {
    if invoices == [] {
    } else {
      var init, last := invoices[..|invoices| - 1], invoices[|invoices| - 1];
      CountedIsBilled(init, id);
      CountedInIsBilledIn(last, id);
      assert forall inv :: inv in invoices <==> inv in init || inv == last;
    }
  }

  lemma {:induction false} WellFormedIsCounted(invoices: seq<Invoice>, id: string)
    requires forall inv :: inv in invoices ==> WellFormed(inv)
    ensures Counted(invoices, id, true) == Billed(invoices, id)
  {
    CountedIsBilled(invoices, id);
  }

  function Cancel(invoices: seq<Invoice>, i: nat): (r: seq<Invoice>)
    requires i < |invoices|
    ensures |r| == |invoices|
  {
    invoices[i := invoices[i].(stateCode := "cancelled")]
  }

  /** Cancelling gives back exactly what the invoice took: on the sales side. On the purchase side, nothing. */
  lemma {:induction false} CancellingGivesBack(invoices: seq<Invoice>, i: nat, id: string)
    requires i < |invoices|
    ensures Counted(Cancel(invoices, i), id, true) == Counted(invoices, id, true) - CountedIn(invoices[i], id, true)
    ensures Billed(Cancel(invoices, i), id) == Billed(invoices, id) - BilledIn(invoices[i], id)
    ensures Counted(Cancel(invoices, i), id, false) == Counted(invoices, id, false)
    decreases invoices
  {
    var n := |invoices| - 1;
    if i < n {
      CancellingGivesBack(invoices[..n], i, id);
      assert Cancel(invoices, i)[..n] == Cancel(invoices[..n], i);
    } else {
      assert Cancel(invoices, i)[..n] == invoices[..n];
    }
  }

  // ---- Sales orders over time ----

  datatype Sales = Sales(lines: seq<SalesLine>, invoices: seq<Invoice>, picking: seq<PickingLine>, goodsBack: seq<OrderReturn>)

  datatype SalesStep =
    | Ship(picking: seq<PickingLine>)
    | Bill(invoice: Invoice)
    | CancelInvoice(index: nat)
    | Refund(orderReturn: OrderReturn)

  function Answer(s: Sales): (r: seq<Invoiceable>) {
    CalculateInvoiceableQuantities(s.lines, s.invoices, s.picking, s.goodsBack)
  }

  /** The invoice stays within an answer. */
  ghost predicate Within(inv: Invoice, answer: seq<Invoiceable>) {
    forall l :: l in OrEmpty(inv.lines) ==> l.quantityInvoiced <= Limit(answer, l.orderLineId)
  }

  ghost predicate Enabled(s: Sales, step: SalesStep) {
    match step
    case Ship(picking) => forall id :: FirstShipped(picking, id) >= FirstShipped(s.picking, id)
    case Bill(inv) => WellFormed(inv) && Within(inv, Answer(s))
    case CancelInvoice(i) => i < |s.invoices|
    case Refund(ret) => forall l :: l in OrEmpty(ret.lines) ==> OrZero(l.quantityReturned) >= 0.0
  }

  function Apply(s: Sales, step: SalesStep): (t: Sales)
    requires step.CancelInvoice? ==> step.index < |s.invoices|
  {
    match step
    case Ship(picking) => s.(picking := picking)
    case Bill(inv) => s.(invoices := s.invoices + [inv])
    case CancelInvoice(i) => s.(invoices := Cancel(s.invoices, i))
    case Refund(ret) => s.(goodsBack := s.goodsBack + [ret])
  }

  ghost predicate IsRun(s: Sales, steps: seq<SalesStep>)
    decreases steps
  {
    steps != [] ==> Enabled(s, steps[0]) && IsRun(Apply(s, steps[0]), steps[1..])
  }

  ghost function After(s: Sales, steps: seq<SalesStep>): (t: Sales)
    requires IsRun(s, steps)
    decreases steps
  {
    if steps == [] then s else After(Apply(s, steps[0]), steps[1..])
  }

  ghost predicate Good(s: Sales) {
    DistinctSales(s.lines) && forall inv :: inv in s.invoices ==> WellFormed(inv)
  }

  /** By how much what is invoiced and refunded exceeds what was shipped or ordered. */
  function Excess(s: Sales, line: SalesLine): (x: real) {
    Max0(Billed(s.invoices, line.id) + Refunded(s.goodsBack, line.id) - Base(line, s.picking))
  }

  /** What can still be invoiced, or else the excess, is the difference of what was shipped or ordered and what is used up. */
  lemma {:induction false} LimitOrExcess(s: Sales, line: SalesLine)
    requires Good(s) && line in s.lines
    ensures Limit(Answer(s), line.id) - Excess(s, line)
         == Base(line, s.picking) - Billed(s.invoices, line.id) - Refunded(s.goodsBack, line.id)
    ensures Limit(Answer(s), line.id) >= 0.0 && (Limit(Answer(s), line.id) == 0.0 || Excess(s, line) == 0.0)
  {
    SalesLimitIsMax(s.lines, s.invoices, s.picking, s.goodsBack, line.id);
    WellFormedIsCounted(s.invoices, line.id);
  }

  lemma {:induction false} FirstWithin(lines: seq<InvoiceLine>, answer: seq<Invoiceable>, id: string)
    requires forall l :: l in lines ==> l.quantityInvoiced <= Limit(answer, l.orderLineId)
    requires Limit(answer, id) >= 0.0
    ensures FirstInvoiced(lines, id) <= Limit(answer, id)
    decreases lines
  {
    if lines == [] || lines[0].orderLineId == id {
    } else {
      FirstWithin(lines[1..], answer, id);
    }
  }

  lemma {:induction false} FirstRefundIsNonNegative(lines: seq<ReturnLine>, id: string)
    requires forall l :: l in lines ==> OrZero(l.quantityReturned) >= 0.0
    ensures FirstRefunded(lines, id) >= 0.0
    decreases lines
  {
    if lines == [] || (lines[0].orderLineId == id && lines[0].resolution == Some("refund")) {
    } else {
      FirstRefundIsNonNegative(lines[1..], id);
    }
  }

  lemma {:induction false} BillStep(s: Sales, inv: Invoice, line: SalesLine)
    requires Good(s) && line in s.lines && Enabled(s, Bill(inv))
    ensures Excess(Apply(s, Bill(inv)), line) <= Excess(s, line)
  {
    LimitOrExcess(s, line);
    FirstWithin(OrEmpty(inv.lines), Answer(s), line.id);
    CountedInIsBilledIn(inv, line.id);
    assert (s.invoices + [inv])[..|s.invoices|] == s.invoices;
  }

  lemma {:induction false} CancelStep(s: Sales, i: nat, line: SalesLine)
    requires Good(s) && Enabled(s, CancelInvoice(i))
    ensures Excess(Apply(s, CancelInvoice(i)), line) <= Excess(s, line)
    ensures Good(Apply(s, CancelInvoice(i)))
  {
    var t := Apply(s, CancelInvoice(i));
    assert s.invoices[i] in s.invoices;
    CancellingGivesBack(s.invoices, i, line.id);
    CountedInIsBilledIn(s.invoices[i], line.id);
    forall inv | inv in t.invoices ensures WellFormed(inv) {
      var k :| 0 <= k < |t.invoices| && t.invoices[k] == inv;
      assert s.invoices[k] in s.invoices;
      assert inv.lines == s.invoices[k].lines;
    }
  }

  lemma {:induction false} RefundAdds(s: Sales, ret: OrderReturn, line: SalesLine)
    ensures Refunded(Apply(s, Refund(ret)).goodsBack, line.id) == Refunded(s.goodsBack, line.id) + RefundedIn(ret, line.id)
  {
    assert (s.goodsBack + [ret])[..|s.goodsBack|] == s.goodsBack;
  }

  lemma {:induction false} RefundStep(s: Sales, ret: OrderReturn, line: SalesLine)
    requires Enabled(s, Refund(ret))
    ensures var t := Apply(s, Refund(ret));
      Excess(t, line) - Excess(s, line) <= Refunded(t.goodsBack, line.id) - Refunded(s.goodsBack, line.id)
      && Refunded(t.goodsBack, line.id) >= Refunded(s.goodsBack, line.id)
  {
    FirstRefundIsNonNegative(OrEmpty(ret.lines), line.id);
    RefundAdds(s, ret, line);
  }

  lemma {:induction false} StepAddsNoExcess(s: Sales, step: SalesStep, line: SalesLine)
    requires Good(s) && line in s.lines && Enabled(s, step)
    ensures var t := Apply(s, step);
      && Good(t) && t.lines == s.lines
      && Excess(t, line) - Excess(s, line) <= Refunded(t.goodsBack, line.id) - Refunded(s.goodsBack, line.id)
      && (!step.Refund? ==> t.goodsBack == s.goodsBack)
  {
    match step
    case Ship(_) =>
    case Bill(inv) => BillStep(s, inv, line);
    case CancelInvoice(i) => CancelStep(s, i, line);
    case Refund(ret) => RefundStep(s, ret, line);
  }

  /**
   Over any run, the excess of a line grows by at most what is refunded:
   shipping, invoicing within the answer and cancelling add nothing.
   */
  lemma {:induction false} ExcessGrowsOnlyByRefunds(s: Sales, steps: seq<SalesStep>, line: SalesLine)
    requires Good(s) && line in s.lines && IsRun(s, steps)
    ensures var t := After(s, steps);
      && Excess(t, line) - Excess(s, line) <= Refunded(t.goodsBack, line.id) - Refunded(s.goodsBack, line.id)
      && ((forall step :: step in steps ==> !step.Refund?) ==> t.goodsBack == s.goodsBack)
    decreases steps
  {
    if steps == [] {
    } else {
      StepAddsNoExcess(s, steps[0], line);
      ExcessGrowsOnlyByRefunds(Apply(s, steps[0]), steps[1..], line);
    }
  }

  /** The excess a refund leaves on a line within bounds: what it takes beyond the limit; none if and only if it stays within. */
  lemma {:induction false} RefundLeavesExcess(s: Sales, ret: OrderReturn, line: SalesLine)
    requires Good(s) && line in s.lines && Excess(s, line) == 0.0
    ensures var t := Apply(s, Refund(ret));
      && Excess(t, line) == Max0(RefundedIn(ret, line.id) - Limit(Answer(s), line.id))
      && (Excess(t, line) == 0.0 <==> RefundedIn(ret, line.id) <= Limit(Answer(s), line.id))
  {
    LimitOrExcess(s, line);
    RefundAdds(s, ret, line);
  }

  /** An excess withholds later shipments from invoicing: only what is shipped beyond it can be invoiced. */
  lemma {:induction false} ShipmentsFillTheExcessFirst(s: Sales, picking: seq<PickingLine>, line: SalesLine)
    requires Good(s) && line in s.lines && Enabled(s, Ship(picking))
    ensures Limit(Answer(Apply(s, Ship(picking))), line.id)
         == Max0(Limit(Answer(s), line.id) - Excess(s, line) + (Base(line, picking) - Base(line, s.picking)))
  {
    LimitOrExcess(s, line);
    LimitOrExcess(Apply(s, Ship(picking)), line);
  }

  /** Every refund of the run stays within what could be invoiced on the line at that moment. */
  ghost predicate RefundsWithin(s: Sales, steps: seq<SalesStep>, line: SalesLine)
    requires IsRun(s, steps)
    decreases steps
  {
    steps != [] ==>
      && (steps[0].Refund? ==> RefundedIn(steps[0].orderReturn, line.id) <= Limit(Answer(s), line.id))
      && RefundsWithin(Apply(s, steps[0]), steps[1..], line)
  }

  /** At every point of the run invoiced and refunded stay within what was shipped or ordered. */
  ghost predicate AlwaysWithin(s: Sales, steps: seq<SalesStep>, line: SalesLine)
    requires IsRun(s, steps)
    decreases steps
  {
    Excess(s, line) == 0.0 && (steps != [] ==> AlwaysWithin(Apply(s, steps[0]), steps[1..], line))
  }

  /** A line that starts within bounds stays there throughout a run if and only if every refund stays within the answer. */
  lemma {:induction false} WithinBoundsExactly(s: Sales, steps: seq<SalesStep>, line: SalesLine)
    requires Good(s) && line in s.lines && IsRun(s, steps) && Excess(s, line) == 0.0
    ensures AlwaysWithin(s, steps, line) <==> RefundsWithin(s, steps, line)
    ensures AlwaysWithin(s, steps, line) ==> Excess(After(s, steps), line) == 0.0
    decreases steps
  {
    if steps == [] {
    } else {
      var t := Apply(s, steps[0]);
      StepAddsNoExcess(s, steps[0], line);
      if steps[0].Refund? {
        RefundLeavesExcess(s, steps[0].orderReturn, line);
      }
      if Excess(t, line) == 0.0 {
        WithinBoundsExactly(t, steps[1..], line);
      }
    }
  }

  /** In particular, with refunds within the answer or none at all, invoiced plus refunded never exceeds shipped or ordered. */
  lemma {:induction false} NeverBeyondBase(s: Sales, steps: seq<SalesStep>, line: SalesLine)
    requires Good(s) && line in s.lines && IsRun(s, steps) && RefundsWithin(s, steps, line)
    requires forall x :: MayBeInvoiced(line, s.picking, x) ==> Billed(s.invoices, line.id) + Refunded(s.goodsBack, line.id) <= x
    ensures var t := After(s, steps);
      forall x :: MayBeInvoiced(line, t.picking, x) ==> Billed(t.invoices, line.id) + Refunded(t.goodsBack, line.id) <= x
  {
    BaseIsInvoiceable(line, s.picking, Base(line, s.picking));
    WithinBoundsExactly(s, steps, line);
    forall x | MayBeInvoiced(line, After(s, steps).picking, x) ensures x == Base(line, After(s, steps).picking) {
      BaseIsInvoiceable(line, After(s, steps).picking, x);
    }
  }

  /** A return that is not processed, or refunds nothing, changes nothing in the answer. */
  lemma {:induction false} OtherReturnsChangeNothing(s: Sales, ret: OrderReturn)
    requires ret.stateCode != "processed" || ret.lines.None? || forall l :: l in ret.lines.value ==> l.resolution != Some("refund")
    ensures Answer(Apply(s, Refund(ret))) == Answer(s)
  {
    forall id ensures Refunded(s.goodsBack + [ret], id) == Refunded(s.goodsBack, id) {
      assert (s.goodsBack + [ret])[..|s.goodsBack|] == s.goodsBack;
      NothingRefunded(OrEmpty(ret.lines), id);
    }
    SameRefundsSameAnswer(s.lines, s.invoices, s.picking, s.goodsBack + [ret], s.goodsBack);
  }

  lemma {:induction false} NothingRefunded(lines: seq<ReturnLine>, id: string)
    ensures (forall l :: l in lines ==> l.resolution != Some("refund")) ==> FirstRefunded(lines, id) == 0.0
    decreases lines
  {
    if lines == [] {
    } else {
      NothingRefunded(lines[1..], id);
      assert lines[0] in lines && forall l :: l in lines[1..] ==> l in lines;
    }
  }

  lemma {:induction false} SameRefundsSameAnswer(
    lines: seq<SalesLine>, invoices: seq<Invoice>, picking: seq<PickingLine>, a: seq<OrderReturn>, b: seq<OrderReturn>)
    requires forall id :: Refunded(a, id) == Refunded(b, id)
    ensures CalculateInvoiceableQuantities(lines, invoices, picking, a) == CalculateInvoiceableQuantities(lines, invoices, picking, b)
    decreases lines
  {
    if lines == [] {
    } else {
      SameRefundsSameAnswer(lines[1..], invoices, picking, a, b);
    }
  }

  /**
   In an order within bounds, cancelling an invoice raises what can be invoiced
   on every line by exactly what the invoice took; a second cancellation changes nothing.
   */
  lemma {:induction false} CancellingFreesWhatItTook(s: Sales, i: nat, line: SalesLine)
    requires Good(s) && line in s.lines && i < |s.invoices| && Excess(s, line) == 0.0
    ensures Limit(Answer(Apply(s, CancelInvoice(i))), line.id) == Limit(Answer(s), line.id) + CountedIn(s.invoices[i], line.id, true)
    ensures Cancelled(s.invoices[i]) ==> Answer(Apply(s, CancelInvoice(i))) == Answer(s)
  {
    CancelStep(s, i, line);
    CancellingGivesBack(s.invoices, i, line.id);
    LimitOrExcess(s, line);
    LimitOrExcess(Apply(s, CancelInvoice(i)), line);
    assert s.invoices[i] in s.invoices;
    CountedInIsBilledIn(s.invoices[i], line.id);
    if Cancelled(s.invoices[i]) {
      assert Cancel(s.invoices, i) == s.invoices;
    }
  }

  /** Billing and then cancelling leaves the answer as it was. */
  lemma {:induction false} BillThenCancel(s: Sales, inv: Invoice)
    ensures Answer(Apply(Apply(s, Bill(inv)), CancelInvoice(|s.invoices|))) == Answer(s)
  {
    var billed := s.invoices + [inv];
    var cancelled := Cancel(billed, |s.invoices|);
    forall id ensures Counted(cancelled, id, true) == Counted(s.invoices, id, true) {
      CancellingGivesBack(billed, |s.invoices|, id);
      assert billed[..|s.invoices|] == s.invoices;
    }
    SameCountsSameAnswer(s.lines, cancelled, s.invoices, s.picking, s.goodsBack);
  }

  lemma {:induction false} SameCountsSameAnswer(
    lines: seq<SalesLine>, a: seq<Invoice>, b: seq<Invoice>, picking: seq<PickingLine>, goodsBack: seq<OrderReturn>)
    requires forall id :: Counted(a, id, true) == Counted(b, id, true)
    ensures CalculateInvoiceableQuantities(lines, a, picking, goodsBack) == CalculateInvoiceableQuantities(lines, b, picking, goodsBack)
    decreases lines
  {
    if lines == [] {
    } else {
      SameCountsSameAnswer(lines[1..], a, b, picking, goodsBack);
    }
  }

  // ---- Purchase orders over time ----

  datatype Purchase = Purchase(lines: seq<PurchaseLine>, invoices: seq<Invoice>)

  datatype PurchaseStep =
    | Receive(lines: seq<PurchaseLine>)
    | Enter(invoice: Invoice)
    | CancelEntered(index: nat)

  ghost predicate PurchaseEnabled(p: Purchase, step: PurchaseStep) {
    match step
    case Receive(lines) =>
      |lines| == |p.lines| && forall i :: 0 <= i < |lines| ==>
        lines[i].id == p.lines[i].id && OrZero(lines[i].quantityReceived) >= OrZero(p.lines[i].quantityReceived)
    case Enter(inv) => NonNegative(OrEmpty(inv.lines)) && Within(inv, CalculatePurchaseInvoiceableQuantities(p.lines, p.invoices))
    case CancelEntered(i) => i < |p.invoices|
  }

  function PurchaseApply(p: Purchase, step: PurchaseStep): (q: Purchase)
    requires step.CancelEntered? ==> step.index < |p.invoices|
  {
    match step
    case Receive(lines) => p.(lines := lines)
    case Enter(inv) => p.(invoices := p.invoices + [inv])
    case CancelEntered(i) => p.(invoices := Cancel(p.invoices, i))
  }

  ghost predicate IsPurchaseRun(p: Purchase, steps: seq<PurchaseStep>)
    decreases steps
  {
    steps != [] ==> PurchaseEnabled(p, steps[0]) && IsPurchaseRun(PurchaseApply(p, steps[0]), steps[1..])
  }

  ghost function PurchaseAfter(p: Purchase, steps: seq<PurchaseStep>): (q: Purchase)
    requires IsPurchaseRun(p, steps)
    decreases steps
  {
    if steps == [] then p else PurchaseAfter(PurchaseApply(p, steps[0]), steps[1..])
  }

  /** No line is invoiced beyond what was received, cancelled invoices included. */
  ghost predicate WithinReceived(p: Purchase) {
    forall line :: line in p.lines ==> Counted(p.invoices, line.id, false) <= OrZero(line.quantityReceived)
  }

  ghost predicate GoodPurchase(p: Purchase) {
    DistinctPurchase(p.lines) && (forall inv :: inv in p.invoices ==> NonNegative(OrEmpty(inv.lines))) && WithinReceived(p)
  }

  lemma {:induction false} EnterStep(p: Purchase, inv: Invoice)
    requires GoodPurchase(p) && PurchaseEnabled(p, Enter(inv))
    ensures WithinReceived(PurchaseApply(p, Enter(inv)))
  {
    var q := PurchaseApply(p, Enter(inv));
    assert q.invoices[..|p.invoices|] == p.invoices;
    forall line | line in q.lines ensures Counted(q.invoices, line.id, false) <= OrZero(line.quantityReceived) {
      PurchaseLimitIsMax(p.lines, p.invoices, line.id);
      FirstWithin(OrEmpty(inv.lines), CalculatePurchaseInvoiceableQuantities(p.lines, p.invoices), line.id);
    }
  }

  lemma {:induction false} ReceiveStep(p: Purchase, lines: seq<PurchaseLine>)
    requires GoodPurchase(p) && PurchaseEnabled(p, Receive(lines))
    ensures GoodPurchase(PurchaseApply(p, Receive(lines)))
  {
    forall i | 0 <= i < |lines| ensures Counted(p.invoices, lines[i].id, false) <= OrZero(lines[i].quantityReceived) {
      assert p.lines[i] in p.lines;
    }
    forall i, j | 0 <= i < j < |lines| ensures lines[i].id != lines[j].id {
      assert p.lines[i].id != p.lines[j].id;
    }
  }

  /** Cancelling a purchase invoice gives nothing back: the answer stays what it was. */
  lemma {:induction false} PurchaseCancelGivesNothingBack(p: Purchase, i: nat)
    requires i < |p.invoices|
    ensures CalculatePurchaseInvoiceableQuantities(p.lines, Cancel(p.invoices, i)) ==
            CalculatePurchaseInvoiceableQuantities(p.lines, p.invoices)
  {
    forall id ensures Counted(Cancel(p.invoices, i), id, false) == Counted(p.invoices, id, false) {
      CancellingGivesBack(p.invoices, i, id);
    }
    SameCountsSamePurchaseAnswer(p.lines, Cancel(p.invoices, i), p.invoices);
  }

  lemma {:induction false} SameCountsSamePurchaseAnswer(lines: seq<PurchaseLine>, a: seq<Invoice>, b: seq<Invoice>)
    requires forall id :: Counted(a, id, false) == Counted(b, id, false)
    ensures CalculatePurchaseInvoiceableQuantities(lines, a) == CalculatePurchaseInvoiceableQuantities(lines, b)
    decreases lines
  {
    if lines == [] {
    } else {
      SameCountsSamePurchaseAnswer(lines[1..], a, b);
    }
  }

  lemma {:induction false} CancelEnteredStep(p: Purchase, i: nat)
    requires GoodPurchase(p) && i < |p.invoices|
    ensures GoodPurchase(PurchaseApply(p, CancelEntered(i)))
  {
    var q := PurchaseApply(p, CancelEntered(i));
    forall inv | inv in q.invoices ensures NonNegative(OrEmpty(inv.lines)) {
      var k :| 0 <= k < |q.invoices| && q.invoices[k] == inv;
      assert p.invoices[k] in p.invoices;
      assert inv.lines == p.invoices[k].lines;
    }
    forall line | line in q.lines ensures Counted(q.invoices, line.id, false) <= OrZero(line.quantityReceived) {
      CancellingGivesBack(p.invoices, i, line.id);
    }
  }

  /** Over any run, what is counted never exceeds what was received, whatever lines the invoices repeat. */
  lemma {:induction false} NeverCountedBeyondReceived(p: Purchase, steps: seq<PurchaseStep>)
    requires GoodPurchase(p) && IsPurchaseRun(p, steps)
    ensures GoodPurchase(PurchaseAfter(p, steps))
    decreases steps
  {
    if steps == [] {
    } else {
      match steps[0] {
        case Receive(lines) => ReceiveStep(p, lines);
        case Enter(inv) => EnterStep(p, inv);
        case CancelEntered(i) => CancelEnteredStep(p, i);
      }
      NeverCountedBeyondReceived(PurchaseApply(p, steps[0]), steps[1..]);
    }
  }

  /** On a line that no invoice in force repeats, what is billed never exceeds what was received either. */
  lemma {:induction false} NeverBilledBeyondReceived(p: Purchase, steps: seq<PurchaseStep>, line: PurchaseLine)
    requires GoodPurchase(p) && IsPurchaseRun(p, steps) && line in PurchaseAfter(p, steps).lines
    requires forall inv :: inv in PurchaseAfter(p, steps).invoices ==>
      Cancelled(inv) || RepeatsAreEmpty(OrEmpty(inv.lines), line.id)
    ensures Billed(PurchaseAfter(p, steps).invoices, line.id) <= OrZero(line.quantityReceived)
  {
    NeverCountedBeyondReceived(p, steps);
    CountedIsBilled(PurchaseAfter(p, steps).invoices, line.id);
  }

  /** A draft that bills q on the same order line n times. */
  function Repeating(id: string, q: real, n: nat): (inv: Invoice) {
    Invoice("draft", Some(seq(n, _ => InvoiceLine(id, q))))
  }

  function Times(n: nat, q: real): (x: real) { n as real * q }

  lemma {:induction false} OneMoreTime(n: nat, q: real)
    requires n > 0
    ensures Times(n, q) == Times(n - 1, q) + q
  {
  }

  lemma {:induction false} RepeatingBillsAll(id: string, q: real, n: nat)
    ensures AllInvoiced(OrEmpty(Repeating(id, q, n).lines), id) == Times(n, q)
    ensures FirstInvoiced(OrEmpty(Repeating(id, q, n).lines), id) == if n == 0 then 0.0 else q
    decreases n
  {
    if n == 0 {
    } else {
      RepeatingBillsAll(id, q, n - 1);
      OneMoreTime(n, q);
      assert OrEmpty(Repeating(id, q, n).lines)[1..] == OrEmpty(Repeating(id, q, n - 1).lines);
    }
  }

  /**
   The condition is needed: a draft takes the requested lines as they are, and one
   that repeats an order line n times, each within the answer, bills n times what
   it is counted for.
   */
  lemma {:induction false} RepeatedLinesAreCountedOnce(p: Purchase, line: PurchaseLine, n: nat)
    requires DistinctPurchase(p.lines) && line in p.lines && n > 0
    ensures var q := MaxPurchase(line, p.invoices);
      var r := PurchaseApply(p, Enter(Repeating(line.id, q, n)));
      && PurchaseEnabled(p, Enter(Repeating(line.id, q, n)))
      && Counted(r.invoices, line.id, false) == Counted(p.invoices, line.id, false) + q
      && Billed(r.invoices, line.id) == Billed(p.invoices, line.id) + Times(n, q)
  {
    var q := MaxPurchase(line, p.invoices);
    PurchaseLimitIsMax(p.lines, p.invoices, line.id);
    RepeatingBillsAll(line.id, q, n);
    OneMoreInvoice(p.invoices, Repeating(line.id, q, n), line.id);
  }

  lemma {:induction false} OneMoreInvoice(invoices: seq<Invoice>, inv: Invoice, id: string)
    ensures Counted(invoices + [inv], id, false) == Counted(invoices, id, false) + CountedIn(inv, id, false)
    ensures Billed(invoices + [inv], id) == Billed(invoices, id) + BilledIn(inv, id)
  {
    assert (invoices + [inv])[..|invoices|] == invoices;
  }
}
