/** The scan-to-pick barcode: PICK:{order}:{line}:{bin}:{quantity}. */
module PickBarcode {
  import opened Wrappers
  import opened Text

  datatype Payload = Payload(orderId: string, lineId: string, binId: string, quantity: string)

  const PREFIX := "PICK:"

  function Fields(p: Payload, quantity: string): (r: string) {
    p.orderId + ":" + (p.lineId + ":" + (p.binId + ":" + quantity))
  }

  function Format(p: Payload): (barcode: string) {
    PREFIX + Fields(p, p.quantity)
  }

  /** JavaScript's s.split(':'). */
  function Split(s: string): (parts: seq<string>)
    ensures |parts| > 0 && forall part :: part in parts ==> ':' !in part
  {
    if s == "" then [""]
    else
      var rest := Split(s[1..]);
      if s[0] == ':' then [""] + rest else [[s[0]] + rest[0]] + rest[1..]
  }

  /** What the parts of a code read as. */
  function Read(parts: seq<string>): (r: Option<Payload>) {
    if |parts| < 4 || parts[0] == "" || parts[1] == "" || parts[2] == "" then None
    else Some(Payload(parts[0], parts[1], parts[2], if parts[3] == "" then "1" else parts[3]))
  }

  function Parse(barcode: string): (r: Option<Payload>) {
    var trimmed := Trim(barcode);
    if trimmed == "" then None
    else
      var raw := if PREFIX <= trimmed then trimmed[|PREFIX|..] else trimmed;
      Read(Split(raw))
  }

  lemma {:induction false} SplitAtColon(a: string, b: string)
    requires ':' !in a
    ensures Split(a + ":" + b) == [a] + Split(b)
    decreases a
  {
    var s := a + ":" + b;
    if a == "" {
      assert s[1..] == b;
    } else {
      assert s[1..] == a[1..] + ":" + b;
      SplitAtColon(a[1..], b);
      assert [a[0]] + a[1..] == a;
    }
  }

  lemma {:induction false} SplitWithoutColon(a: string)
    requires ':' !in a
    ensures Split(a) == [a]
    decreases a
  {
    if a == "" {
    } else {
      SplitWithoutColon(a[1..]);
      assert [a[0]] + a[1..] == a;
    }
  }

  /** A barcode that begins with the prefix is read after it, with the white space at its end gone. */
  lemma {:induction false} PrefixedIsTrimmedAtEnd(raw: string)
    ensures Trim(PREFIX + raw) == PREFIX + TrimEnd(raw)
    ensures (PREFIX + TrimEnd(raw))[|PREFIX|..] == TrimEnd(raw)
  {
    assert (PREFIX + raw)[0] == 'P';
    TrimEndKeepsPrefix(PREFIX, raw);
  }

  lemma {:induction false} TrimmingFields(p: Payload, quantity: string)
    ensures TrimEnd(Fields(p, quantity)) == Fields(p, TrimEnd(quantity))
  {
    TrimEndKeepsPrefix(p.binId + ":", quantity);
    TrimEndKeepsPrefix(p.lineId + ":", p.binId + ":" + quantity);
    TrimEndKeepsPrefix(p.orderId + ":", p.lineId + ":" + (p.binId + ":" + quantity));
  }

  lemma {:induction false} SplittingFields(p: Payload, quantity: string)
    requires ':' !in p.orderId && ':' !in p.lineId && ':' !in p.binId
    ensures Split(Fields(p, quantity)) == [p.orderId, p.lineId, p.binId] + Split(quantity)
  {
    var fromBin := p.binId + ":" + quantity;
    var fromLine := p.lineId + ":" + fromBin;
    SplitAtColon(p.binId, quantity);
    SplitAtColon(p.lineId, fromBin);
    SplitAtColon(p.orderId, fromLine);
    assert [p.orderId] + ([p.lineId] + ([p.binId] + Split(quantity))) == [p.orderId, p.lineId, p.binId] + Split(quantity);
  }

  /** Scanning a printed code reads the fields after the prefix, trimmed at the end. */
  lemma {:induction false} ParsingFormatted(p: Payload)
    ensures Parse(Format(p)) == Read(Split(Fields(p, TrimEnd(p.quantity))))
  {
    PrefixedIsTrimmedAtEnd(Fields(p, p.quantity));
    TrimmingFields(p, p.quantity);
  }

  predicate Printable(p: Payload) {
    && p.orderId != "" && ':' !in p.orderId
    && p.lineId != "" && ':' !in p.lineId
    && p.binId != "" && ':' !in p.binId
    && p.quantity != "" && ':' !in p.quantity && !IsSpace(p.quantity[|p.quantity| - 1])
  }

  /**
   A payload survives printing and scanning exactly when its fields are non-empty
   and free of colons and its quantity does not end in white space.
   */
  lemma {:induction false} BarcodeRoundTrip(p: Payload)
    ensures Parse(Format(p)) == Some(p) <==> Printable(p)
  {
    var q := TrimEnd(p.quantity);
    ParsingFormatted(p);
    if ':' !in p.orderId && ':' !in p.lineId && ':' !in p.binId {
      SplittingFields(p, q);
      if ':' !in p.quantity {
        QuantityPart(p.quantity);
      }
    }
  }

  lemma {:induction false} FieldsInARow(p: Payload)
    ensures Fields(p, p.quantity) == p.orderId + ":" + p.lineId + ":" + p.binId + ":" + p.quantity
  {
  }

  lemma {:induction false} PrefixedFields(a: string, b: string, c: string, d: string)
    ensures "PICK:" + a + ":" + b + ":" + c + ":" + d == "PICK:" + (a + ":" + b + ":" + c + ":" + d)
  {
  }

  lemma {:induction false} FormatIsCode(p: Payload)
    ensures Format(p) == "PICK:" + p.orderId + ":" + p.lineId + ":" + p.binId + ":" + p.quantity
  {
    FieldsInARow(p);
    PrefixedFields(p.orderId, p.lineId, p.binId, p.quantity);
  }

  lemma {:induction false} FormattedReads(p: Payload)
    requires p.orderId != "" && ':' !in p.orderId && p.lineId != "" && ':' !in p.lineId && p.binId != "" && ':' !in p.binId
    requires ':' !in p.quantity && (p.quantity == "" || !IsSpace(p.quantity[|p.quantity| - 1]))
    ensures Parse(Format(p)) == Some(if p.quantity == "" then p.(quantity := "1") else p)
  {
    ParsingFormatted(p);
    SplittingFields(p, p.quantity);
    QuantityPart(p.quantity);
  }

  /**
   The code itself: four fields after "PICK:", in the order order, line, bin and quantity.
   A scanned code without quantity counts as one, and one with fewer fields is refused.
   */
  lemma {:induction false} CodeReads(p: Payload)
    requires p.orderId != "" && ':' !in p.orderId && p.lineId != "" && ':' !in p.lineId && p.binId != "" && ':' !in p.binId
    requires ':' !in p.quantity && (p.quantity == "" || !IsSpace(p.quantity[|p.quantity| - 1]))
    ensures var code := "PICK:" + p.orderId + ":" + p.lineId + ":" + p.binId + ":" + p.quantity;
      && Format(p) == code
      && Parse(code) == Some(if p.quantity == "" then p.(quantity := "1") else p)
    ensures Parse("PICK:" + p.orderId + ":" + p.lineId) == None
  {
    FormatIsCode(p);
    FormattedReads(p);
    TwoFieldsAreRefused(p.orderId, p.lineId);
  }

  lemma {:induction false} TwoFieldsAreRefused(a: string, b: string)
    requires ':' !in a && ':' !in b
    ensures Parse("PICK:" + a + ":" + b) == None
  {
    var raw := a + ":" + b;
    assert "PICK:" + a + ":" + b == PREFIX + raw;
    PrefixedIsTrimmedAtEnd(raw);
    TrimEndKeepsPrefix(a + ":", b);
    assert TrimEnd(raw) == a + ":" + TrimEnd(b);
    SplitAtColon(a, TrimEnd(b));
    SplitWithoutColon(TrimEnd(b));
  }

  lemma {:induction false} QuantityPart(q: string)
    requires ':' !in q
    ensures Split(TrimEnd(q)) == [TrimEnd(q)]
    ensures TrimEnd(q) == q <==> q == "" || !IsSpace(q[|q| - 1])
  {
    SplitWithoutColon(TrimEnd(q));
  }

  lemma {:induction false} ParsingPrefixed(raw: string)
    ensures Parse(PREFIX + raw) == Read(Split(TrimEnd(raw)))
  {
    PrefixedIsTrimmedAtEnd(raw);
  }

  /** No white space in front and no prefix: what the parser leaves as it is, but for its end. */
  predicate Clean(raw: string) {
    !(PREFIX <= raw) && (raw == "" || !IsSpace(raw[0]))
  }

  lemma {:induction false} SplitAfterTrim(u: string)
    ensures Split(TrimStart(u)) == [TrimStart(Split(u)[0])] + Split(u)[1..]
    decreases u
  {
    if u == "" {
    } else if IsSpace(u[0]) {
      SplitAfterTrim(u[1..]);
      assert Split(u)[0] == [u[0]] + Split(u[1..])[0] && Split(u)[0][1..] == Split(u[1..])[0];
    } else {
      assert Split(u) == [Split(u)[0]] + Split(u)[1..];
    }
  }

  /** Without the prefix in front the raw form reads like the prefixed one, but for white space before its order id. */
  lemma {:induction false} ParsingUnprefixed(raw: string)
    requires !(PREFIX <= Trim(raw))
    ensures var parts := Split(TrimEnd(raw));
      Parse(raw) == Read([TrimStart(parts[0])] + parts[1..])
  {
    TrimsCommute(raw);
    SplitAfterTrim(TrimEnd(raw));
    if Trim(raw) == "" {
      assert Split("") == [""];
    }
  }

  /** With the prefix in front, white space before it allowed, the raw form drops its first part. */
  lemma {:induction false} ParsingTwicePrefixed(raw: string)
    requires PREFIX <= Trim(raw)
    ensures var parts := Split(TrimEnd(raw));
      |parts| > 1 && TrimStart(parts[0]) == "PICK" && Parse(raw) == Read(parts[1..])
  {
    var u := TrimEnd(raw);
    TrimsCommute(raw);
    SplitAfterTrim(u);
    var t := TrimStart(u);
    assert t == "PICK" + ":" + t[|PREFIX|..];
    SplitAtColon("PICK", t[|PREFIX|..]);
    assert Split(t)[1..] == Split(t[|PREFIX|..]);
    assert ([TrimStart(Split(u)[0])] + Split(u)[1..])[1..] == Split(u)[1..];
  }

  /** The first five parts are the same: dropping one changes nothing the parser reads. */
  predicate FiveAlike(parts: seq<string>) {
    |parts| >= 5 && parts[0] == parts[1] == parts[2] == parts[3] == parts[4]
  }

  lemma {:induction false} FirstPartStartsAlike(u: string)
    requires u != "" && u[0] != ':'
    ensures Split(u)[0] != "" && Split(u)[0][0] == u[0]
  {
  }

  lemma {:induction false} CleanStaysClean(raw: string)
    requires Clean(raw)
    ensures !(PREFIX <= Trim(raw)) && TrimStart(Split(TrimEnd(raw))[0]) == Split(TrimEnd(raw))[0]
  {
    var u := TrimEnd(raw);
    assert TrimStart(raw) == raw && Trim(raw) == u;
    if u != "" && u[0] != ':' {
      FirstPartStartsAlike(u);
    }
  }

  lemma {:induction false} SpaceShows(raw: string)
    requires raw != "" && IsSpace(raw[0]) && TrimEnd(raw) != ""
    ensures Split(TrimEnd(raw))[0] != "" && TrimStart(Split(TrimEnd(raw))[0]) != Split(TrimEnd(raw))[0]
  {
    FirstPartStartsAlike(TrimEnd(raw));
  }

  lemma {:induction false} PrefixSurvivesTrim(raw: string)
    requires PREFIX <= raw
    ensures PREFIX <= Trim(raw)
  {
    assert raw == PREFIX + raw[|PREFIX|..];
    assert raw[0] == 'P' && TrimStart(raw) == raw;
    TrimEndKeepsPrefix(PREFIX, raw[|PREFIX|..]);
  }

  /** Dropping a first part `PICK` leaves the reading alone exactly when there was none, or five parts are alike. */
  lemma {:induction false} DroppingAPart(parts: seq<string>)
    requires parts != [] && TrimStart(parts[0]) == "PICK"
    ensures Read(parts) == Read(parts[1..]) <==> Read(parts) == None || FiveAlike(parts)
  {
    assert parts[0] != "" && parts[0] != "1" by {
      assert TrimStart("1") == "1";
    }
  }

  /** Trimming the first part leaves the reading alone exactly when there was none. */
  lemma {:induction false} TrimmingAPart(parts: seq<string>)
    requires parts != [] && parts[0] != "" && TrimStart(parts[0]) != parts[0]
    ensures Read(parts) == Read([TrimStart(parts[0])] + parts[1..]) <==> Read(parts) == None
  {
  }

  /**
   With and without the prefix the same code is read exactly when the raw form has
   neither prefix nor leading white space, or the prefixed form reads as nothing,
   or the raw form begins with the prefix and its first five parts are the same.
   */
  lemma {:induction false} PrefixIsOptional(raw: string)
    ensures Parse(PREFIX + raw) == Parse(raw)
       <==> Clean(raw) || Parse(PREFIX + raw) == None || (PREFIX <= Trim(raw) && FiveAlike(Split(TrimEnd(raw))))
  {
    var parts := Split(TrimEnd(raw));
    ParsingPrefixed(raw);
    if PREFIX <= Trim(raw) {
      ParsingTwicePrefixed(raw);
      DroppingAPart(parts);
      if Clean(raw) {
        CleanStaysClean(raw);
        assert false;
      }
    } else {
      ParsingUnprefixed(raw);
      if Clean(raw) {
        CleanStaysClean(raw);
        assert [parts[0]] + parts[1..] == parts;
      } else {
        if PREFIX <= raw {
          PrefixSurvivesTrim(raw);
          assert false;
        }
        if TrimEnd(raw) == "" {
          assert parts == [""];
        } else {
          SpaceShows(raw);
          TrimmingAPart(parts);
        }
      }
    }
  }
}
