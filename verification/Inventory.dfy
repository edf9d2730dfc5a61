/**
 Shortages of an order: lines take stock first come, first served, from a map of
 availability per product and location that the loop updates in place.
 */
module Inventory {
  import opened Wrappers
  import Q = Sequences

  /** A number as parsed; NaN is the value of text that is no number. */
  datatype Quantity = Num(value: real) | NaN

  datatype Level = Level(productId: string, locationId: string, quantityAvailable: Quantity)

  datatype OrderLine = OrderLine(
    salesOrderLineId: string,
    productId: Option<string>,
    productDescription: Option<string>,
    quantity: Quantity,
    fulfillmentLocationId: Option<string>,
    productType: Option<string>,
    structureType: Option<string>)

  datatype Gap = Gap(
    salesOrderLineId: string,
    productId: string,
    productDescription: Option<string>,
    orderedQuantity: real,
    availableQuantity: real,
    shortage: real,
    locationId: Option<string>)

  const CUSTOM_LINE_ID := "00000000-0000-4000-8000-000000000000"
  const NIL_ID := "00000000-0000-0000-0000-000000000000"

  predicate Truthy(s: Option<string>) {
    s.Some? && s.value != ""
  }

  /** A product of the catalogue, of type inventory when it has a type. */
  predicate IsStockedProduct(productId: Option<string>, productType: Option<string>) {
    && Truthy(productId) && productId.value != CUSTOM_LINE_ID && productId.value != NIL_ID
    && (Truthy(productType) ==> productType.value == "inventory")
  }

  predicate IsStocked(line: OrderLine) {
    IsStockedProduct(line.productId, line.productType)
  }

  predicate IsKitParent(line: OrderLine) {
    line.structureType == Some("kit") && line.productType == Some("non-stock")
  }

  /** The lines the loop does not skip. */
  predicate Counts(line: OrderLine) {
    IsStocked(line) && !IsKitParent(line)
  }

  /** `line.fulfillmentLocationId || headerLocationId` */
  function LocationOf(line: OrderLine, header: Option<string>): (r: Option<string>) {
    if Truthy(line.fulfillmentLocationId) then line.fulfillmentLocationId else header
  }

  function Key(productId: string, locationId: string): (k: string) {
    productId + "_" + locationId
  }

  function LineKey(line: OrderLine, header: Option<string>): (k: string)
    requires line.productId.Some?
  {
    var location := LocationOf(line, header);
    Key(line.productId.value, if location.Some? then location.value else "null")
  }

  /** JavaScript's `q || 0`. */
  function OrZero(q: Quantity): (x: real) {
    if q.Num? then q.value else 0.0
  }

  function Max(x: real, y: real): (m: real) { if x >= y then x else y }

  function Min(x: real, y: real): (m: real) { if x <= y then x else y }

  predicate Takes(line: OrderLine, header: Option<string>, key: string) {
    Counts(line) && LineKey(line, header) == key
  }

  // ---- What the loops compute, without a map ----

  function Stock(levels: seq<Level>, key: string): (x: real) {
    if levels == [] then 0.0
    else
      var l := levels[|levels| - 1];
      Stock(levels[..|levels| - 1], key)
        + if l.productId != "" && l.locationId != "" && Key(l.productId, l.locationId) == key then OrZero(l.quantityAvailable) else 0.0
  }

  /** What is left under a key after some lines; a line without a number wipes it out. */
  function Remaining(stock: real, lines: seq<OrderLine>, header: Option<string>, key: string): (x: real) {
    if lines == [] then stock
    else
      var line := lines[|lines| - 1];
      var before := Remaining(stock, lines[..|lines| - 1], header, key);
      if !Takes(line, header, key) then before
      else if line.quantity.NaN? then 0.0
      else before - line.quantity.value
  }

  /** The gap of one line, given what is left for it. */
  function GapOf(line: OrderLine, header: Option<string>, available: real): (g: Option<Gap>)
    requires line.productId.Some?
  {
    if line.quantity.Num? && line.quantity.value > Max(0.0, available) then
      var location := LocationOf(line, header);
      Some(Gap(line.salesOrderLineId, line.productId.value, line.productDescription, line.quantity.value,
               available, line.quantity.value - Max(0.0, available), if Truthy(location) then location else None))
    else None
  }

  function LastGap(levels: seq<Level>, lines: seq<OrderLine>, header: Option<string>): (g: Option<Gap>)
    requires lines != []
  {
    var line := lines[|lines| - 1];
    if !Counts(line) then None
    else
      var key := LineKey(line, header);
      GapOf(line, header, Remaining(Stock(levels, key), lines[..|lines| - 1], header, key))
  }

  function Gaps(levels: seq<Level>, lines: seq<OrderLine>, header: Option<string>): (gs: seq<Gap>) {
    if lines == [] then []
    else
      var g := LastGap(levels, lines, header);
      Gaps(levels, lines[..|lines| - 1], header) + if g.Some? then [g.value] else []
  }

  function Lookup(m: map<string, Quantity>, key: string): (x: real) {
    if key in m then OrZero(m[key]) else 0.0
  }

  method RollUp(levels: seq<Level>) returns (availability: map<string, Quantity>)
    ensures forall key :: Lookup(availability, key) == Stock(levels, key)
  {
    availability := map[];
    for i := 0 to |levels|
      invariant forall key :: Lookup(availability, key) == Stock(levels[..i], key)
    {
      var lvl := levels[i];
      assert levels[..i + 1][..i] == levels[..i];
      if lvl.productId != "" && lvl.locationId != "" {
        var key := Key(lvl.productId, lvl.locationId);
        var current := Lookup(availability, key);
        availability := availability[key := Num(current + OrZero(lvl.quantityAvailable))];
      }
    }
    assert levels[..|levels|] == levels;
  }

  /** The body of the loop for a line that counts: compare with the stock left, then deduct. */
  method ServeLine(line: OrderLine, header: Option<string>, availability: map<string, Quantity>)
    returns (gap: Option<Gap>, after: map<string, Quantity>)
    requires Counts(line)
    ensures gap == GapOf(line, header, Lookup(availability, LineKey(line, header)))
    ensures forall key :: key != LineKey(line, header) ==> Lookup(after, key) == Lookup(availability, key)
    ensures var key := LineKey(line, header);
      Lookup(after, key) == if line.quantity.NaN? then 0.0 else Lookup(availability, key) - line.quantity.value
  {
    var location := LocationOf(line, header);
    var key := LineKey(line, header);
    var available := Lookup(availability, key);
    var effectiveAvailable := Max(0.0, available);
    gap := None;
    match line.quantity {
      case Num(ordered) =>
        if ordered > effectiveAvailable {
          gap := Some(Gap(line.salesOrderLineId, line.productId.value, line.productDescription, ordered,
                          available, ordered - effectiveAvailable, if Truthy(location) then location else None));
        }
        after := availability[key := Num(available - ordered)];
      case NaN =>
        after := availability[key := NaN];
    }
  }

  lemma {:induction false} NextLine(levels: seq<Level>, lines: seq<OrderLine>, header: Option<string>, i: nat)
    requires i < |lines|
    ensures Gaps(levels, lines[..i + 1], header) == Gaps(levels, lines[..i], header)
      + if !Counts(lines[i]) then []
        else
          var key := LineKey(lines[i], header);
          var g := GapOf(lines[i], header, Remaining(Stock(levels, key), lines[..i], header, key));
          if g.Some? then [g.value] else []
  {
    assert lines[..i + 1][..i] == lines[..i] && lines[..i + 1][i] == lines[i];
  }

  lemma {:induction false} NextRemaining(stock: real, lines: seq<OrderLine>, header: Option<string>, i: nat, key: string)
    requires i < |lines|
    ensures var before := Remaining(stock, lines[..i], header, key);
      Remaining(stock, lines[..i + 1], header, key) ==
        if !Takes(lines[i], header, key) then before
        else if lines[i].quantity.NaN? then 0.0
        else before - lines[i].quantity.value
  {
    assert lines[..i + 1][..i] == lines[..i] && lines[..i + 1][i] == lines[i];
  }

  method CalculateInventoryGaps(lines: seq<OrderLine>, levels: seq<Level>, header: Option<string>) returns (gaps: seq<Gap>)
    ensures gaps == Gaps(levels, lines, header)
  {
    var availability := RollUp(levels);
    gaps := [];
    for i := 0 to |lines|
      invariant gaps == Gaps(levels, lines[..i], header)
      invariant forall key :: Lookup(availability, key) == Remaining(Stock(levels, key), lines[..i], header, key)
    {
      var line := lines[i];
      ghost var some := lines[..i + 1];
      NextLine(levels, lines, header, i);
      forall key ensures Remaining(Stock(levels, key), some, header, key) ==
        if !Takes(line, header, key) then Lookup(availability, key)
        else if line.quantity.NaN? then 0.0 else Lookup(availability, key) - line.quantity.value
      {
        NextRemaining(Stock(levels, key), lines, header, i, key);
      }
      if IsStocked(line) && !IsKitParent(line) {
        var gap;
        gap, availability := ServeLine(line, header, availability);
        if gap.Some? {
          gaps := gaps + [gap.value];
        }
      }
    }
    assert lines[..|lines|] == lines;
  }

  // ---- The gap of a line, read off the inputs ----

  /** A product of the catalogue with no type or of type inventory, and not the parent of a kit. */
  predicate FromStock(line: OrderLine) {
    && line.productId.Some? && line.productId.value != ""
    && line.productId.value != "00000000-0000-4000-8000-000000000000"
    && line.productId.value != "00000000-0000-0000-0000-000000000000"
    && (line.productType.None? || line.productType.value == "" || line.productType.value == "inventory")
    && !(line.structureType == Some("kit") && line.productType == Some("non-stock"))
  }

  /** Where the line is served from: its own location, or else the header's. */
  function ServedFrom(line: OrderLine, header: Option<string>): (location: Option<string>) {
    if line.fulfillmentLocationId.Some? && line.fulfillmentLocationId.value != "" then line.fulfillmentLocationId else header
  }

  /** The line draws on the stock under the key. */
  predicate DrawsOn(line: OrderLine, header: Option<string>, key: string) {
    FromStock(line) &&
    var location := ServedFrom(line, header);
    key == line.productId.value + "_" + if location.Some? then location.value else "null"
  }

  /** x is what a level adds to the stock under the key; text that is no number adds nothing. */
  predicate Adds(level: Level, key: string, x: real) {
    if level.productId != "" && level.locationId != "" && level.productId + "_" + level.locationId == key && level.quantityAvailable.Num?
    then x == level.quantityAvailable.value else x == 0.0
  }

  /** x is what a line takes from the stock under the key. */
  predicate Draws(line: OrderLine, header: Option<string>, key: string, x: real) {
    if DrawsOn(line, header, key) then line.quantity == Num(x) else x == 0.0
  }

  /** The last line before line i that had no number, if there is one, is line m - 1: it left nothing under the key. */
  predicate CountedFrom(lines: seq<OrderLine>, header: Option<string>, key: string, m: nat) {
    m == 0 || (m <= |lines| && DrawsOn(lines[m - 1], header, key) && lines[m - 1].quantity.NaN?)
  }

  lemma {:induction false} TakesIsDrawsOn(line: OrderLine, header: Option<string>, key: string)
    ensures Takes(line, header, key) <==> DrawsOn(line, header, key)
  {
  }

  lemma {:induction false} StockIsTotal(levels: seq<Level>, key: string, stock: seq<real>)
    requires |stock| == |levels| && forall k :: 0 <= k < |levels| ==> Adds(levels[k], key, stock[k])
    ensures Stock(levels, key) == Q.Total(stock)
    decreases levels
  {
    if levels == [] {
    } else {
      var n := |levels| - 1;
      assert Adds(levels[n], key, stock[n]);
      StockIsTotal(levels[..n], key, stock[..n]);
    }
  }

  lemma {:induction false} RemainingIsTotal(
    available: real, lines: seq<OrderLine>, header: Option<string>, key: string, m: nat, drawn: seq<real>)
    requires m <= |lines| && CountedFrom(lines, header, key, m)
    requires |drawn| == |lines| - m && forall k :: m <= k < |lines| ==> Draws(lines[k], header, key, drawn[k - m])
    ensures Remaining(available, lines, header, key) == (if m == 0 then available else 0.0) - Q.Total(drawn)
    decreases lines
  {
    var n := |lines| - 1;
    if |lines| == 0 {
    } else if m == |lines| {
      TakesIsDrawsOn(lines[n], header, key);
    } else {
      TakesIsDrawsOn(lines[n], header, key);
      assert Draws(lines[n], header, key, drawn[n - m]);
      RemainingIsTotal(available, lines[..n], header, key, m, drawn[..n - m]);
    }
  }

  /**
   What line i adds to the report: nothing if it does not order more than what is left for
   it, and otherwise one gap with what it ordered, what was left, what it is short of and
   where.  What is left is the stock of its product and location less what the lines before
   it took, or less what they took since one without a number wiped the stock out.
   */
  lemma {:induction false} GapByLine(
    levels: seq<Level>, lines: seq<OrderLine>, header: Option<string>, i: nat, key: string, m: nat, stock: seq<real>, drawn: seq<real>)
    requires m <= i < |lines| && DrawsOn(lines[i], header, key) && CountedFrom(lines[..i], header, key, m)
    requires |stock| == |levels| && forall k :: 0 <= k < |levels| ==> Adds(levels[k], key, stock[k])
    requires |drawn| == i - m && forall k :: m <= k < i ==> Draws(lines[k], header, key, drawn[k - m])
    ensures var left := (if m == 0 then Q.Total(stock) else 0.0) - Q.Total(drawn);
      var usable, line, location := if left > 0.0 then left else 0.0, lines[i], ServedFrom(lines[i], header);
      Gaps(levels, lines[..i + 1], header) == Gaps(levels, lines[..i], header) +
        if line.quantity.Num? && line.quantity.value > usable then
          [Gap(line.salesOrderLineId, line.productId.value, line.productDescription, line.quantity.value, left,
               line.quantity.value - usable, if location == Some("") then None else location)]
        else []
  {
    StockIsTotal(levels, key, stock);
    RemainingIsTotal(Stock(levels, key), lines[..i], header, key, m, drawn);
    TakesIsDrawsOn(lines[i], header, key);
    NextLine(levels, lines, header, i);
  }

  /** A line that is not from stock adds nothing to it. */
  lemma {:induction false} OthersHaveNoGap(levels: seq<Level>, lines: seq<OrderLine>, header: Option<string>, i: nat)
    requires i < |lines| && !FromStock(lines[i])
    ensures Gaps(levels, lines[..i + 1], header) == Gaps(levels, lines[..i], header)
  {
    NextLine(levels, lines, header, i);
  }

  // ---- First come, first served ----

  /** Every line that counts orders a number that is not negative. */
  ghost predicate Sensible(lines: seq<OrderLine>) {
    forall line :: line in lines && Counts(line) ==> line.quantity.Num? && line.quantity.value >= 0.0
  }

  /** What the lines of a key order in total. */
  function Ordered(lines: seq<OrderLine>, header: Option<string>, key: string): (x: real) {
    if lines == [] then 0.0
    else
      var line := lines[|lines| - 1];
      Ordered(lines[..|lines| - 1], header, key) + if Takes(line, header, key) then OrZero(line.quantity) else 0.0
  }

  /** What the last of some lines falls short of. */
  function LastShortage(levels: seq<Level>, lines: seq<OrderLine>, header: Option<string>): (x: real)
    requires lines != []
  {
    var g := LastGap(levels, lines, header);
    if g.Some? then g.value.shortage else 0.0
  }

  /** The shortages of the lines of one key, added up. */
  function Shortages(levels: seq<Level>, lines: seq<OrderLine>, header: Option<string>, key: string): (x: real) {
    if lines == [] then 0.0
    else
      Shortages(levels, lines[..|lines| - 1], header, key)
        + if Takes(lines[|lines| - 1], header, key) then LastShortage(levels, lines, header) else 0.0
  }

  lemma {:induction false} RemainingIsStockLessOrdered(stock: real, lines: seq<OrderLine>, header: Option<string>, key: string)
    requires Sensible(lines)
    ensures Remaining(stock, lines, header, key) == stock - Ordered(lines, header, key)
    ensures Ordered(lines, header, key) >= 0.0
    decreases lines
  {
    if lines == [] {
    } else {
      assert lines[|lines| - 1] in lines;
      RemainingIsStockLessOrdered(stock, lines[..|lines| - 1], header, key);
    }
  }

  /**
   Each line is served from what the lines before it have left: it gets the
   smaller of its order and the stock not yet ordered away, and is short of the rest.
   */
  lemma {:induction false} FirstComeFirstServed(levels: seq<Level>, lines: seq<OrderLine>, header: Option<string>, i: nat)
    requires Sensible(lines) && i < |lines| && Counts(lines[i])
    ensures var key := LineKey(lines[i], header);
      var left := Max(0.0, Stock(levels, key) - Ordered(lines[..i], header, key));
      LastShortage(levels, lines[..i + 1], header) == lines[i].quantity.value - Min(lines[i].quantity.value, left)
  {
    var key := LineKey(lines[i], header);
    assert lines[i] in lines && lines[..i + 1][..i] == lines[..i];
    RemainingIsStockLessOrdered(Stock(levels, key), lines[..i], header, key);
  }

  /**
   For every key, and whatever the order of the lines, the shortages add up to
   what is ordered beyond the stock (a negative stock counting as none).
   */
  lemma {:induction false} ShortagesAreExcessDemand(
    levels: seq<Level>, lines: seq<OrderLine>, header: Option<string>, key: string)
    requires Sensible(lines)
    ensures Shortages(levels, lines, header, key) == Max(0.0, Ordered(lines, header, key) - Max(0.0, Stock(levels, key)))
    decreases lines
  {
    if lines == [] {
    } else {
      var n := |lines| - 1;
      assert lines[n] in lines && lines[..n + 1] == lines;
      ShortagesAreExcessDemand(levels, lines[..n], header, key);
      RemainingIsStockLessOrdered(Stock(levels, key), lines[..n], header, key);
      if Takes(lines[n], header, key) {
        FirstComeFirstServed(levels, lines, header, n);
      }
    }
  }

  /** The key a reported gap stands for: an absent location is the header's. */
  function GapKey(g: Gap, header: Option<string>): (k: string) {
    Key(g.productId, if g.locationId.Some? then g.locationId.value else if header.Some? then header.value else "null")
  }

  lemma {:induction false} GapKeepsKey(line: OrderLine, header: Option<string>, available: real)
    requires line.productId.Some? && GapOf(line, header, available).Some?
    ensures GapKey(GapOf(line, header, available).value, header) == LineKey(line, header)
  {
  }

  /** The shortages of the reported gaps of one key, added up. */
  function GapTotal(gaps: seq<Gap>, header: Option<string>, key: string): (x: real) {
    if gaps == [] then 0.0
    else
      GapTotal(gaps[..|gaps| - 1], header, key)
        + if GapKey(gaps[|gaps| - 1], header) == key then gaps[|gaps| - 1].shortage else 0.0
  }

  lemma {:induction false} GapTotalAppend(gaps: seq<Gap>, g: Gap, header: Option<string>, key: string)
    ensures GapTotal(gaps + [g], header, key) == GapTotal(gaps, header, key) + if GapKey(g, header) == key then g.shortage else 0.0
  {
    assert (gaps + [g])[..|gaps|] == gaps;
  }

  lemma {:induction false} ReportedGapsAreTheShortages(
    levels: seq<Level>, lines: seq<OrderLine>, header: Option<string>, key: string)
    ensures GapTotal(Gaps(levels, lines, header), header, key) == Shortages(levels, lines, header, key)
    decreases lines
  {
    if lines == [] {
    } else {
      var init, line := lines[..|lines| - 1], lines[|lines| - 1];
      var g := LastGap(levels, lines, header);
      ReportedGapsAreTheShortages(levels, init, header, key);
      if g.Some? {
        GapKeepsKey(line, header, Remaining(Stock(levels, LineKey(line, header)), init, header, LineKey(line, header)));
        GapTotalAppend(Gaps(levels, init, header), g.value, header, key);
      } else {
        assert Gaps(levels, init, header) + [] == Gaps(levels, init, header);
      }
    }
  }

  /** The reported list, whatever the order of the lines: its gaps of a key add up to what is ordered beyond the stock. */
  lemma {:induction false} ReportedGapsAreExcessDemand(
    levels: seq<Level>, lines: seq<OrderLine>, header: Option<string>, key: string)
    requires Sensible(lines)
    ensures GapTotal(Gaps(levels, lines, header), header, key)
         == Max(0.0, Ordered(lines, header, key) - Max(0.0, Stock(levels, key)))
  {
    ReportedGapsAreTheShortages(levels, lines, header, key);
    ShortagesAreExcessDemand(levels, lines, header, key);
  }

  lemma {:induction false} OrderedGrows(lines: seq<OrderLine>, header: Option<string>, key: string, i: nat)
    requires Sensible(lines) && i <= |lines|
    ensures Ordered(lines[..i], header, key) <= Ordered(lines, header, key)
    decreases |lines| - i
  {
    if i < |lines| {
      assert lines[i] in lines && lines[..i + 1][..i] == lines[..i];
      OrderedGrows(lines, header, key, i + 1);
    } else {
      assert lines[..i] == lines;
    }
  }

  /** Once a line of a key falls short, every later line of the key is short of its whole order. */
  lemma {:induction false} AfterAShortageNothingIsServed(
    levels: seq<Level>, lines: seq<OrderLine>, header: Option<string>, i: nat, j: nat)
    requires Sensible(lines) && i < j < |lines| && Counts(lines[i]) && Counts(lines[j])
    requires LineKey(lines[i], header) == LineKey(lines[j], header)
    requires LastShortage(levels, lines[..i + 1], header) > 0.0
    ensures LastShortage(levels, lines[..j + 1], header) == lines[j].quantity.value
  {
    var key := LineKey(lines[i], header);
    assert lines[i] in lines && lines[j] in lines && lines[..i + 1][..i] == lines[..i];
    FirstComeFirstServed(levels, lines, header, i);
    FirstComeFirstServed(levels, lines, header, j);
    OrderedGrows(lines[..j], header, key, i + 1);
    assert lines[..j][..i + 1] == lines[..i + 1];
    assert Ordered(lines[..i + 1], header, key) == Ordered(lines[..i], header, key) + lines[i].quantity.value;
  }

  /** Some of the line's order is served and some is not. */
  ghost predicate PartlyServed(levels: seq<Level>, lines: seq<OrderLine>, header: Option<string>, i: nat)
    requires i < |lines|
  {
    0.0 < LastShortage(levels, lines[..i + 1], header) < OrZero(lines[i].quantity)
  }

  lemma {:induction false} AtMostOneLineIsPartlyServed(
    levels: seq<Level>, lines: seq<OrderLine>, header: Option<string>, i: nat, j: nat)
    requires Sensible(lines) && i < |lines| && j < |lines| && Counts(lines[i]) && Counts(lines[j])
    requires LineKey(lines[i], header) == LineKey(lines[j], header)
    requires PartlyServed(levels, lines, header, i) && PartlyServed(levels, lines, header, j)
    ensures i == j
  {
    if i < j {
      AfterAShortageNothingIsServed(levels, lines, header, i, j);
    } else if j < i {
      AfterAShortageNothingIsServed(levels, lines, header, j, i);
    }
  }

  lemma {:induction false} SkippedLineLeavesStock(
    stock: real, a: seq<OrderLine>, skipped: OrderLine, b: seq<OrderLine>, header: Option<string>, key: string)
    requires !Counts(skipped)
    ensures Remaining(stock, a + [skipped] + b, header, key) == Remaining(stock, a + b, header, key)
    decreases b
  {
    var with, without := a + [skipped] + b, a + b;
    if b == [] {
      assert with[..|with| - 1] == a == without;
    } else {
      var init := b[..|b| - 1];
      SkippedLineLeavesStock(stock, a, skipped, init, header, key);
      assert with[..|with| - 1] == a + [skipped] + init && without[..|without| - 1] == a + init;
    }
  }

  lemma {:induction false} SkippedLineLeavesGaps(
    levels: seq<Level>, a: seq<OrderLine>, skipped: OrderLine, b: seq<OrderLine>, header: Option<string>)
    requires !Counts(skipped)
    ensures Gaps(levels, a + [skipped] + b, header) == Gaps(levels, a + b, header)
    decreases b
  {
    var with, without := a + [skipped] + b, a + b;
    if b == [] {
      assert with[..|with| - 1] == a == without;
    } else {
      var init, last := b[..|b| - 1], b[|b| - 1];
      assert with[..|with| - 1] == a + [skipped] + init && without[..|without| - 1] == a + init;
      SkippedLineLeavesGaps(levels, a, skipped, init, header);
      if Counts(last) {
        var key := LineKey(last, header);
        SkippedLineLeavesStock(Stock(levels, key), a, skipped, init, header, key);
      }
    }
  }

  /** Non-stocked lines and kit parents might as well not be there. */
  lemma {:induction false} SkippedLinesChangeNothing(
    levels: seq<Level>, a: seq<OrderLine>, skipped: OrderLine, b: seq<OrderLine>, header: Option<string>, key: string)
    requires !IsStocked(skipped) || IsKitParent(skipped)
    ensures Gaps(levels, a + [skipped] + b, header) == Gaps(levels, a + b, header)
    ensures Remaining(Stock(levels, key), a + [skipped] + b, header, key) == Remaining(Stock(levels, key), a + b, header, key)
  {
    SkippedLineLeavesGaps(levels, a, skipped, b, header);
    SkippedLineLeavesStock(Stock(levels, key), a, skipped, b, header, key);
  }

  /** The order of the lines changes who is short, never by how much a key is short. */
  lemma {:induction false} OrderedIgnoresOrder(a: seq<OrderLine>, b: seq<OrderLine>, header: Option<string>, key: string)
    requires multiset(a) == multiset(b)
    ensures Ordered(a, header, key) == Ordered(b, header, key)
    decreases |a|
  {
    assert |a| == |multiset(a)| == |multiset(b)| == |b|;
    if a == [] {
    } else {
      var j := Q.FindInPermutation(a, b);
      OrderedIgnoresOrder(a[1..], Q.Without(b, j), header, key);
      OrderedWithoutOne(a, 0, header, key);
      OrderedWithoutOne(b, j, header, key);
      assert Q.Without(a, 0) == a[1..];
    }
  }

  lemma {:induction false} OrderedWithoutOne(lines: seq<OrderLine>, j: nat, header: Option<string>, key: string)
    requires j < |lines|
    ensures Ordered(lines, header, key)
         == Ordered(Q.Without(lines, j), header, key) + if Takes(lines[j], header, key) then OrZero(lines[j].quantity) else 0.0
  {
    var before, upTo, after := lines[..j], lines[..j + 1], lines[j + 1..];
    assert lines == upTo + after && Q.Without(lines, j) == before + after && upTo[..j] == before;
    OrderedConcat(upTo, after, header, key);
    OrderedConcat(before, after, header, key);
  }

  lemma {:induction false} OrderedConcat(a: seq<OrderLine>, b: seq<OrderLine>, header: Option<string>, key: string)
    ensures Ordered(a + b, header, key) == Ordered(a, header, key) + Ordered(b, header, key)
    decreases b
  {
    if b == [] {
      assert a + b == a;
    } else {
      assert (a + b)[..|a + b| - 1] == a + b[..|b| - 1];
      OrderedConcat(a, b[..|b| - 1], header, key);
    }
  }

  lemma {:induction false} ReorderingKeepsTotalShortage(
    levels: seq<Level>, a: seq<OrderLine>, b: seq<OrderLine>, header: Option<string>, key: string)
    requires multiset(a) == multiset(b) && Sensible(a)
    ensures GapTotal(Gaps(levels, a, header), header, key) == GapTotal(Gaps(levels, b, header), header, key)
  {
    forall line | line in b && Counts(line) ensures line.quantity.Num? && line.quantity.value >= 0.0 {
      assert line in multiset(a);
    }
    ReportedGapsAreExcessDemand(levels, a, header, key);
    ReportedGapsAreExcessDemand(levels, b, header, key);
    OrderedIgnoresOrder(a, b, header, key);
  }

  /** q begins with p and an underscore, and what follows has moved from the location to the product. */
  ghost predicate Shifted(p: string, l: string, q: string, m: string) {
    exists x :: q == p + "_" + x && l == x + "_" + m
  }

  lemma {:induction false} ShiftedShareKey(p: string, l: string, q: string, m: string)
    requires Shifted(p, l, q, m)
    ensures Key(p, l) == Key(q, m)
  {
    var x :| q == p + "_" + x && l == x + "_" + m;
    assert p + "_" + (x + "_" + m) == (p + "_" + x) + "_" + m;
  }

  lemma {:induction false} LongerProductIsShifted(p: string, l: string, q: string, m: string)
    requires |p| < |q| && Key(p, l) == Key(q, m)
    ensures Shifted(p, l, q, m)
  {
    var u, x := Key(p, l), q[|p| + 1..];
    assert u[..|p|] == p && u[|p|] == '_' && u[|p| + 1..] == l;
    assert q == u[..|q|] && q == p + "_" + x;
    assert u == q + ("_" + m);
    assert l == u[|p| + 1..] == x + "_" + m;
  }

  /** Two pairs share a key exactly when they are equal or an underscore can be read either way. */
  lemma {:induction false} KeysAreSharedExactly(p: string, l: string, q: string, m: string)
    ensures Key(p, l) == Key(q, m) <==> (p == q && l == m) || Shifted(p, l, q, m) || Shifted(q, m, p, l)
  {
    if Key(p, l) == Key(q, m) {
      if |p| < |q| {
        LongerProductIsShifted(p, l, q, m);
      } else if |q| < |p| {
        LongerProductIsShifted(q, m, p, l);
      } else {
        assert p == Key(p, l)[..|p|] == q && l == Key(p, l)[|p| + 1..] == m;
      }
    }
    if Shifted(p, l, q, m) {
      ShiftedShareKey(p, l, q, m);
    }
    if Shifted(q, m, p, l) {
      ShiftedShareKey(q, m, p, l);
    }
  }

  /** A key names one product and one location when product ids hold no underscore, as UUIDs do not. */
  lemma {:induction false} KeysTellProductsApart(p: string, l: string, q: string, m: string)
    requires '_' !in p && '_' !in q
    ensures Key(p, l) == Key(q, m) <==> p == q && l == m
  {
    KeysAreSharedExactly(p, l, q, m);
    assert forall a: string, x: string :: (a + "_" + x)[|a|] == '_';
  }
}
