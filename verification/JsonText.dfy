/**
 JSON text as JSON.stringify writes it (RFC 8259, section 7 for strings), for
 the values a journal payload is made of: null, integers, strings, arrays and
 objects with their keys in insertion order.

 A printer takes the text that follows its value: ValueThen(v, rest) is the
 text of v followed by rest.  The reader is written from the grammar of RFC 8259,
 not from the printer, and reads every printed text back.
 */
module JsonText {
  import opened Wrappers

  datatype Json =
    | Null
    | Num(n: int)
    | Str(s: string)
    | Arr(items: seq<Json>)
    | Obj(fields: seq<Field>)

  datatype Field = Field(key: string, value: Json)

  // ---- Printers ----

  function HexDigit(d: nat): (c: char)
    requires d < 16
  {
    if d < 10 then '0' + d as char else 'a' + (d - 10) as char
  }

  function EscapeChar(c: char): (r: string) {
    if c == '"' then "\\\""
    else if c == '\\' then "\\\\"
    else if c == 8 as char then "\\b"
    else if c == 12 as char then "\\f"
    else if c == '\n' then "\\n"
    else if c == '\r' then "\\r"
    else if c == '\t' then "\\t"
    else if c < ' ' then "\\u00" + [HexDigit(c as int / 16), HexDigit(c as int % 16)]
    else [c]
  }

  function CharsThen(s: string, rest: string): (r: string) {
    if s == "" then "\"" + rest else EscapeChar(s[0]) + CharsThen(s[1..], rest)
  }

  function StringThen(s: string, rest: string): (r: string) {
    "\"" + CharsThen(s, rest)
  }

  predicate IsDigit(c: char) { '0' <= c <= '9' }

  function Digits(n: nat): (r: string)
    ensures r != "" && forall i :: 0 <= i < |r| ==> IsDigit(r[i])
  {
    (if n < 10 then "" else Digits(n / 10)) + ['0' + (n % 10) as char]
  }

  function IntText(n: int): (r: string)
    ensures r != "" && (IsDigit(r[0]) || r[0] == '-')
    ensures forall i :: 0 < i < |r| ==> IsDigit(r[i])
  {
    if n < 0 then "-" + Digits(-n) else Digits(n)
  }

  function ValueThen(v: Json, rest: string): (r: string)
    decreases v, 0
  {
    match v
    case Null => "null" + rest
    case Num(n) => IntText(n) + rest
    case Str(s) => StringThen(s, rest)
    case Arr(items) =>
      if items == [] then "[]" + rest
      else "[" + ValueThen(items[0], ItemsThen(items[1..], rest))
    case Obj(fields) =>
      if fields == [] then "{}" + rest
      else "{" + FieldThen(fields[0], FieldsThen(fields[1..], rest))
  }

  function ItemsThen(items: seq<Json>, rest: string): (r: string)
    decreases items, 0
  {
    if items == [] then "]" + rest
    else "," + ValueThen(items[0], ItemsThen(items[1..], rest))
  }

  function FieldThen(field: Field, rest: string): (r: string)
    decreases field, 0
  {
    StringThen(field.key, ":" + ValueThen(field.value, rest))
  }

  function FieldsThen(fields: seq<Field>, rest: string): (r: string)
    decreases fields, 0
  {
    if fields == [] then "}" + rest
    else "," + FieldThen(fields[0], FieldsThen(fields[1..], rest))
  }

  /** The whole text of a value. */
  function Stringify(v: Json): (r: string) {
    ValueThen(v, "")
  }

  // ---- Reader ----

  /** The control character or mark that follows a backslash, where one letter names it. */
  function Named(c: char): (r: char)
    requires c in "\"\\/bfnrt"
  {
    match c
    case 'b' => 8 as char
    case 'f' => 12 as char
    case 'n' => 10 as char
    case 'r' => 13 as char
    case 't' => 9 as char
    case _ => c
  }

  predicate IsHex(c: char) {
    '0' <= c <= '9' || 'a' <= c <= 'f' || 'A' <= c <= 'F'
  }

  function HexValue(c: char): (d: nat)
    requires IsHex(c)
    ensures d < 16
  {
    if c <= '9' then c as int - '0' as int
    else if c <= 'F' then c as int - 'A' as int + 10
    else c as int - 'a' as int + 10
  }

  function HexCode(t: string): (n: nat)
    requires |t| == 4 && forall c :: c in t ==> IsHex(c)
    ensures n < 0x1_0000
  {
    HexValue(t[0]) * 4096 + HexValue(t[1]) * 256 + HexValue(t[2]) * 16 + HexValue(t[3])
  }

  predicate IsSurrogate(n: nat) {
    0xD800 <= n < 0xE000
  }

  /** One character of a string (RFC 8259, section 7), and what follows it. */
  function ReadChar(t: string): (r: Option<(char, string)>)
    ensures r.Some? ==> |r.value.1| < |t|
  {
    if t == "" || t[0] == '"' || t[0] < ' ' then None
    else if t[0] != '\\' then Some((t[0], t[1..]))
    else if |t| >= 2 && t[1] in "\"\\/bfnrt" then Some((Named(t[1]), t[2..]))
    else if |t| >= 6 && t[1] == 'u' && (forall c :: c in t[2..6] ==> IsHex(c)) && !IsSurrogate(HexCode(t[2..6])) then
      Some((HexCode(t[2..6]) as char, t[6..]))
    else None
  }

  /** The rest of a string after its opening quote. */
  function ReadChars(t: string): (r: Option<(string, string)>)
    ensures r.Some? ==> |r.value.1| < |t|
    decreases |t|
  {
    if t != "" && t[0] == '"' then Some(("", t[1..]))
    else
      var c := ReadChar(t);
      if c.None? then None
      else
        var more := ReadChars(c.value.1);
        if more.None? then None else Some(([c.value.0] + more.value.0, more.value.1))
  }

  function LeadingDigits(t: string): (n: nat)
    ensures n <= |t| && forall i :: 0 <= i < n ==> IsDigit(t[i])
    ensures n < |t| ==> !IsDigit(t[n])
  {
    if t == "" || !IsDigit(t[0]) then 0 else 1 + LeadingDigits(t[1..])
  }

  /** The number a digit string denotes. */
  function DigitsValue(s: string): (n: nat)
    requires forall i :: 0 <= i < |s| ==> IsDigit(s[i])
  {
    if s == "" then 0
    else
      var last := s[|s| - 1];
      assert IsDigit(last);
      10 * DigitsValue(s[..|s| - 1]) + (last as int - '0' as int)
  }

  /** Digits without a leading zero, and no fraction or exponent after them. */
  function ReadNatural(t: string): (r: Option<(int, string)>)
    ensures r.Some? ==> |r.value.1| < |t|
  {
    var n := LeadingDigits(t);
    if n == 0 || (n > 1 && t[0] == '0') || (n < |t| && (t[n] == '.' || t[n] == 'e' || t[n] == 'E')) then None
    else Some((DigitsValue(t[..n]), t[n..]))
  }

  /** An integer (section 6). */
  function ReadNumber(t: string): (r: Option<(int, string)>)
    ensures r.Some? ==> |r.value.1| < |t|
  {
    if t != "" && t[0] == '-' then
      var m := ReadNatural(t[1..]);
      if m.None? then None else Some((-m.value.0, m.value.1))
    else ReadNatural(t)
  }

  /** A value (section 3), and what follows it; white space is not skipped. */
  function ReadValue(t: string): (r: Option<(Json, string)>)
    ensures r.Some? ==> |r.value.1| < |t|
    decreases |t|, 0
  {
    if t == "" then None
    else if t[0] == 'n' then
      if "null" <= t then Some((Null, t[4..])) else None
    else if t[0] == '"' then
      var s := ReadChars(t[1..]);
      if s.None? then None else Some((Str(s.value.0), s.value.1))
    else if t[0] == '[' then
      if |t| > 1 && t[1] == ']' then Some((Arr([]), t[2..]))
      else
        var items := ReadItems(t[1..]);
        if items.None? then None else Some((Arr(items.value.0), items.value.1))
    else if t[0] == '{' then
      if |t| > 1 && t[1] == '}' then Some((Obj([]), t[2..]))
      else
        var fields := ReadFields(t[1..]);
        if fields.None? then None else Some((Obj(fields.value.0), fields.value.1))
    else
      var n := ReadNumber(t);
      if n.None? then None else Some((Num(n.value.0), n.value.1))
  }

  /** The items of an array up to its bracket (section 5). */
  function ReadItems(t: string): (r: Option<(seq<Json>, string)>)
    ensures r.Some? ==> |r.value.1| < |t|
    decreases |t|, 1
  {
    var first := ReadValue(t);
    if first.None? then None
    else
      var u := first.value.1;
      if u != "" && u[0] == ']' then Some(([first.value.0], u[1..]))
      else if u != "" && u[0] == ',' then
        var more := ReadItems(u[1..]);
        if more.None? then None else Some(([first.value.0] + more.value.0, more.value.1))
      else None
  }

  function ReadField(t: string): (r: Option<(Field, string)>)
    ensures r.Some? ==> |r.value.1| < |t|
    decreases |t|, 1
  {
    if t == "" || t[0] != '"' then None
    else
      var key := ReadChars(t[1..]);
      if key.None? || key.value.1 == "" || key.value.1[0] != ':' then None
      else
        var v := ReadValue(key.value.1[1..]);
        if v.None? then None else Some((Field(key.value.0, v.value.0), v.value.1))
  }

  /** The members of an object up to its brace (section 4). */
  function ReadFields(t: string): (r: Option<(seq<Field>, string)>)
    ensures r.Some? ==> |r.value.1| < |t|
    decreases |t|, 2
  {
    var first := ReadField(t);
    if first.None? then None
    else
      var u := first.value.1;
      if u != "" && u[0] == '}' then Some(([first.value.0], u[1..]))
      else if u != "" && u[0] == ',' then
        var more := ReadFields(u[1..]);
        if more.None? then None else Some(([first.value.0] + more.value.0, more.value.1))
      else None
  }

  /** The value of a whole text. */
  function Read(text: string): (r: Option<Json>) {
    var v := ReadValue(text);
    if v.Some? && v.value.1 == "" then Some(v.value.0) else None
  }

  // ---- What is printed is read back ----

  lemma {:induction false} CancelPrefix(k: string, s: string, t: string)
    requires k + s == k + t
    ensures s == t
  {
    assert s == (k + s)[|k|..] == (k + t)[|k|..] == t;
  }

  lemma {:induction false} CharReadsBack(c: char, rest: string)
    ensures ReadChar(EscapeChar(c) + rest) == Some((c, rest))
  {
    var x, t := EscapeChar(c), EscapeChar(c) + rest;
    assert t[|x|..] == rest && t[0] == x[0];
    if x[0] == '\\' {
      assert t[1] == x[1];
      if x[1] == 'u' {
        assert t[2..6] == x[2..6];
        ControlCodeReadsBack(c);
      }
    }
  }

  lemma {:induction false} ControlCodeReadsBack(c: char)
    requires c < ' '
    ensures var x := "\\u00" + [HexDigit(c as int / 16), HexDigit(c as int % 16)];
      (forall d :: d in x[2..6] ==> IsHex(d)) && HexCode(x[2..6]) == c as int
  {
    var x := "\\u00" + [HexDigit(c as int / 16), HexDigit(c as int % 16)];
    assert x[2..6] == ['0', '0', HexDigit(c as int / 16), HexDigit(c as int % 16)];
  }

  /** An escaped character can be told from any other, whatever follows. */
  lemma {:induction false} EscapeIsUnambiguous(a: char, b: char, s: string, t: string)
    requires EscapeChar(a) + s == EscapeChar(b) + t
    ensures a == b && s == t
  {
    CharReadsBack(a, s);
    CharReadsBack(b, t);
  }

  lemma {:induction false} CharsReadBack(s: string, rest: string)
    ensures ReadChars(CharsThen(s, rest)) == Some((s, rest))
    decreases s
  {
    var t := CharsThen(s, rest);
    if s == "" {
      assert t[1..] == rest;
    } else {
      CharReadsBack(s[0], CharsThen(s[1..], rest));
      CharsReadBack(s[1..], rest);
      assert s == [s[0]] + s[1..];
    }
  }

  lemma {:induction false} StringReadsBack(s: string, rest: string)
    ensures StringThen(s, rest)[0] == '"' && ReadChars(StringThen(s, rest)[1..]) == Some((s, rest))
  {
    assert StringThen(s, rest)[1..] == CharsThen(s, rest);
    CharsReadBack(s, rest);
  }

  lemma {:induction false} DigitsRoundTrip(n: nat)
    ensures DigitsValue(Digits(n)) == n
  {
    var r := Digits(n);
    if n < 10 {
      assert r[..|r| - 1] == "";
    } else {
      DigitsRoundTrip(n / 10);
      assert r[..|r| - 1] == Digits(n / 10);
    }
  }

  lemma {:induction false} NoLeadingZero(n: nat)
    ensures |Digits(n)| > 1 ==> Digits(n)[0] != '0'
  {
    if n < 10 {
    } else {
      NoLeadingZero(n / 10);
      assert Digits(n)[0] == Digits(n / 10)[0];
    }
  }

  /** What may follow a value inside or after a JSON text. */
  predicate EndsValue(rest: string) {
    rest == "" || rest[0] == ',' || rest[0] == ']' || rest[0] == '}'
  }

  lemma {:induction false} DigitsLead(n: nat, rest: string)
    requires rest == "" || !IsDigit(rest[0])
    ensures LeadingDigits(Digits(n) + rest) == |Digits(n)|
  {
    var t, k := Digits(n) + rest, LeadingDigits(Digits(n) + rest);
    assert forall i :: 0 <= i < |Digits(n)| ==> t[i] == Digits(n)[i];
    assert rest != "" ==> t[|Digits(n)|] == rest[0];
  }

  lemma {:induction false} NaturalReads(t: string, digits: string, rest: string)
    requires t == digits + rest && LeadingDigits(t) == |digits| > 0 && EndsValue(rest)
    requires |digits| > 1 ==> digits[0] != '0'
    ensures (forall i :: 0 <= i < |digits| ==> IsDigit(digits[i])) && ReadNatural(t) == Some((DigitsValue(digits), rest))
  {
    var k := |digits|;
    assert t[..k] == digits && t[k..] == rest && t[0] == digits[0];
    assert rest != "" ==> t[k] == rest[0];
  }

  lemma {:induction false} NaturalReadsBack(n: nat, rest: string)
    requires EndsValue(rest)
    ensures ReadNatural(Digits(n) + rest) == Some((n, rest))
  {
    DigitsLead(n, rest);
    DigitsRoundTrip(n);
    NoLeadingZero(n);
    NaturalReads(Digits(n) + rest, Digits(n), rest);
  }

  lemma {:induction false} MinusReads(u: string)
    ensures ReadNumber("-" + u) == if ReadNatural(u).None? then None else Some((-ReadNatural(u).value.0, ReadNatural(u).value.1))
  {
    assert ("-" + u)[1..] == u;
  }

  lemma {:induction false} UnsignedReads(t: string)
    requires t != "" && t[0] != '-'
    ensures ReadNumber(t) == ReadNatural(t)
  {
  }

  lemma {:induction false} NumberReadsBack(n: int, rest: string)
    requires EndsValue(rest)
    ensures ReadNumber(IntText(n) + rest) == Some((n, rest))
  {
    if n < 0 {
      NaturalReadsBack(-n, rest);
      MinusReads(Digits(-n) + rest);
      assert IntText(n) + rest == "-" + (Digits(-n) + rest);
    } else {
      NaturalReadsBack(n, rest);
      assert (Digits(n) + rest)[0] == Digits(n)[0];
      UnsignedReads(Digits(n) + rest);
    }
  }

  lemma {:induction false} IntTextIsInjective(m: int, n: int)
    requires IntText(m) == IntText(n)
    ensures m == n
  {
    NumberReadsBack(m, "");
    NumberReadsBack(n, "");
    assert IntText(m) + "" == IntText(n) + "";
  }

  /** Whatever follows it, a printed value is read back, and what follows is left. */
  lemma {:induction false} ValueReadsBack(v: Json, rest: string)
    requires EndsValue(rest)
    ensures ReadValue(ValueThen(v, rest)) == Some((v, rest))
    decreases v, 0
  {
    match v
    case Null => assert ("null" + rest)[4..] == rest;
    case Num(n) =>
      NumberReadsBack(n, rest);
      assert (IntText(n) + rest)[0] == IntText(n)[0];
    case Str(s) => StringReadsBack(s, rest);
    case Arr(items) => ArrayReadsBack(items, rest);
    case Obj(fields) => ObjectReadsBack(fields, rest);
  }

  lemma {:induction false} ArrayReadsBack(items: seq<Json>, rest: string)
    requires EndsValue(rest)
    ensures ReadValue(ValueThen(Arr(items), rest)) == Some((Arr(items), rest))
    decreases items, 2
  {
    var t := ValueThen(Arr(items), rest);
    if items == [] {
      assert t[2..] == rest;
    } else {
      ItemsReadBack(items, rest);
      ValueIsNoBracket(items[0], ItemsThen(items[1..], rest));
      assert t[1..] == ValueThen(items[0], ItemsThen(items[1..], rest));
    }
  }

  lemma {:induction false} ObjectReadsBack(fields: seq<Field>, rest: string)
    requires EndsValue(rest)
    ensures ReadValue(ValueThen(Obj(fields), rest)) == Some((Obj(fields), rest))
    decreases fields, 2
  {
    var t := ValueThen(Obj(fields), rest);
    if fields == [] {
      assert t[2..] == rest;
    } else {
      FieldsReadBack(fields, rest);
      assert t[1..] == FieldThen(fields[0], FieldsThen(fields[1..], rest));
    }
  }

  lemma {:induction false} ValueIsNoBracket(v: Json, rest: string)
    ensures ValueThen(v, rest) != "" && ValueThen(v, rest)[0] != ']'
  {
  }

  lemma {:induction false} ItemsReadBack(items: seq<Json>, rest: string)
    requires items != [] && EndsValue(rest)
    ensures ReadItems(ValueThen(items[0], ItemsThen(items[1..], rest))) == Some((items, rest))
    decreases items, 1
  {
    var u := ItemsThen(items[1..], rest);
    ValueReadsBack(items[0], u);
    if |items| == 1 {
      assert u[1..] == rest && items == [items[0]];
    } else {
      ItemsReadBack(items[1..], rest);
      assert u[1..] == ValueThen(items[1], ItemsThen(items[1..][1..], rest));
      assert items == [items[0]] + items[1..];
    }
  }

  lemma {:induction false} FieldReadsBack(field: Field, rest: string)
    requires EndsValue(rest)
    ensures ReadField(FieldThen(field, rest)) == Some((field, rest))
    decreases field, 0
  {
    StringReadsBack(field.key, ":" + ValueThen(field.value, rest));
    ValueReadsBack(field.value, rest);
    assert (":" + ValueThen(field.value, rest))[1..] == ValueThen(field.value, rest);
  }

  lemma {:induction false} FieldsReadBack(fields: seq<Field>, rest: string)
    requires fields != [] && EndsValue(rest)
    ensures ReadFields(FieldThen(fields[0], FieldsThen(fields[1..], rest))) == Some((fields, rest))
    decreases fields, 1
  {
    var u := FieldsThen(fields[1..], rest);
    FieldReadsBack(fields[0], u);
    if |fields| == 1 {
      assert u[1..] == rest && fields == [fields[0]];
    } else {
      FieldsReadBack(fields[1..], rest);
      assert u[1..] == FieldThen(fields[1], FieldsThen(fields[1..][1..], rest));
      assert fields == [fields[0]] + fields[1..];
    }
  }

  /** The printed text of a value reads as the value. */
  lemma {:induction false} StringifyReadsBack(v: Json)
    ensures Read(Stringify(v)) == Some(v)
  {
    ValueReadsBack(v, "");
  }

  /**
   No two values share a text, whatever follows them: equal texts come from
   equal values and equal continuations.
   */
  lemma {:induction false} ValuesAreUnambiguous(v: Json, w: Json, s: string, t: string)
    requires EndsValue(s) && EndsValue(t)
    requires ValueThen(v, s) == ValueThen(w, t)
    ensures v == w && s == t
  {
    ValueReadsBack(v, s);
    ValueReadsBack(w, t);
  }

  /** Stringify never writes two different values as the same text. */
  lemma {:induction false} StringifyIsInjective(v: Json, w: Json)
    requires Stringify(v) == Stringify(w)
    ensures v == w
  {
    StringifyReadsBack(v);
    StringifyReadsBack(w);
  }
}
