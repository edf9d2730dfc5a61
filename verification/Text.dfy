/** White space as JavaScript's \s and trim() define it. */
module Text {

  predicate IsSpace(c: char) {
    || '\t' <= c <= '\r' || c == ' ' || c == '\U{A0}' || c == '\U{1680}'
    || '\U{2000}' <= c <= '\U{200A}' || c == '\U{2028}' || c == '\U{2029}'
    || c == '\U{202F}' || c == '\U{205F}' || c == '\U{3000}' || c == '\U{FEFF}'
  }

  function TrimStart(s: string): (r: string)
    ensures r == "" || !IsSpace(r[0])
  {
    if s != "" && IsSpace(s[0]) then TrimStart(s[1..]) else s
  }

  function TrimEnd(s: string): (r: string)
    ensures r <= s && (r == "" || !IsSpace(r[|r| - 1]))
    ensures forall i :: |r| <= i < |s| ==> IsSpace(s[i])
  {
    if s != "" && IsSpace(s[|s| - 1]) then TrimEnd(s[..|s| - 1]) else s
  }

  function Trim(s: string): (r: string) {
    TrimEnd(TrimStart(s))
  }

  /** Trimming the end stops at a character that is not white space. */
  lemma {:induction false} TrimEndKeepsPrefix(a: string, b: string)
    requires a != "" && !IsSpace(a[|a| - 1])
    ensures TrimEnd(a + b) == a + TrimEnd(b)
    decreases b
  {
    if b == "" {
      assert a + b == a;
    } else if IsSpace(b[|b| - 1]) {
      assert (a + b)[..|a + b| - 1] == a + b[..|b| - 1];
      TrimEndKeepsPrefix(a, b[..|b| - 1]);
    }
  }

  lemma {:induction false} TrimsCommute(s: string)
    ensures Trim(s) == TrimStart(TrimEnd(s))
    decreases s
  {
    if s == "" {
    } else if !IsSpace(s[0]) {
      assert TrimStart(s) == s;
      assert TrimEnd(s) == "" || TrimEnd(s)[0] == s[0];
    } else {
      TrimsCommute(s[1..]);
      TrimEndOfTail(s);
    }
  }

  lemma {:induction false} TrimEndOfTail(s: string)
    requires s != "" && IsSpace(s[0])
    ensures TrimEnd(s) == if TrimEnd(s[1..]) == "" then "" else [s[0]] + TrimEnd(s[1..])
    decreases s
  {
    if |s| == 1 {
      assert s[..0] == "";
    } else if IsSpace(s[|s| - 1]) {
      assert s[..|s| - 1][1..] == s[1..][..|s| - 2];
      TrimEndOfTail(s[..|s| - 1]);
    } else {
      assert s == [s[0]] + s[1..];
    }
  }
}
