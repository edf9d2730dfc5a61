/** The command line tokenizer of the read-only git tool. */
module QueryGit {
  import opened Text
  import Q = Sequences

  /** The scanner's variables. */
  datatype Scan = Scan(tokens: seq<string>, current: string, inDoubleQuote: bool, inSingleQuote: bool, escaped: bool)

  const START := Scan([], "", false, false, false)

  function Feed(s: Scan, c: char): (t: Scan) {
    if s.escaped then s.(current := s.current + [c], escaped := false)
    else if c == '\\' && !s.inSingleQuote then s.(escaped := true)
    else if c == '"' && !s.inSingleQuote then s.(inDoubleQuote := !s.inDoubleQuote)
    else if c == '\'' && !s.inDoubleQuote then s.(inSingleQuote := !s.inSingleQuote)
    else if IsSpace(c) && !s.inDoubleQuote && !s.inSingleQuote then Break(s)
    else s.(current := s.current + [c])
  }

  /** Ends the current token, if there is one. */
  function Break(s: Scan): (t: Scan) {
    if s.current == "" then s else s.(tokens := s.tokens + [s.current], current := "")
  }

  function FeedAll(s: Scan, cmd: string): (t: Scan)
    decreases cmd
  {
    if cmd == "" then s else FeedAll(Feed(s, cmd[0]), cmd[1..])
  }

  function Tokens(cmd: string): (r: seq<string>) {
    Break(FeedAll(START, cmd)).tokens
  }

  method TokenizeCommandLine(cmd: string) returns (tokens: seq<string>)
    ensures tokens == Tokens(cmd)
  {
    tokens := [];
    var current := "";
    var inDoubleQuote, inSingleQuote, escaped := false, false, false;
    for i := 0 to |cmd|
      invariant FeedAll(Scan(tokens, current, inDoubleQuote, inSingleQuote, escaped), cmd[i..]) == FeedAll(START, cmd)
    {
      var c := cmd[i];
      assert cmd[i..][0] == c && cmd[i..][1..] == cmd[i + 1..];
      if escaped {
        current := current + [c];
        escaped := false;
        continue;
      }
      if c == '\\' && !inSingleQuote {
        escaped := true;
        continue;
      }
      if c == '"' && !inSingleQuote {
        inDoubleQuote := !inDoubleQuote;
        continue;
      }
      if c == '\'' && !inDoubleQuote {
        inSingleQuote := !inSingleQuote;
        continue;
      }
      if IsSpace(c) && !inDoubleQuote && !inSingleQuote {
        if |current| > 0 {
          tokens := tokens + [current];
          current := "";
        }
        continue;
      }
      current := current + [c];
    }
    if |current| > 0 {
      tokens := tokens + [current];
    }
  }

  // ---- Scanning is compositional ----

  lemma {:induction false} FeedAllConcat(s: Scan, a: string, b: string)
    ensures FeedAll(s, a + b) == FeedAll(FeedAll(s, a), b)
    decreases a
  {
    if a == "" {
      assert a + b == b;
    } else {
      assert (a + b)[1..] == a[1..] + b;
      FeedAllConcat(Feed(s, a[0]), a[1..], b);
    }
  }

  /** s with some finished tokens in front. */
  function Shift(before: seq<string>, s: Scan): (t: Scan) {
    s.(tokens := before + s.tokens)
  }

  lemma {:induction false} FinishedTokensStay(before: seq<string>, s: Scan, cmd: string)
    ensures FeedAll(Shift(before, s), cmd) == Shift(before, FeedAll(s, cmd))
    decreases cmd
  {
    if cmd == "" {
    } else {
      assert Feed(Shift(before, s), cmd[0]) == Shift(before, Feed(s, cmd[0])) by {
        assert before + (s.tokens + [s.current]) == before + s.tokens + [s.current];
      }
      FinishedTokensStay(before, Feed(s, cmd[0]), cmd[1..]);
    }
  }

  /** Outside quotes and with no escape pending. */
  predicate Neutral(s: Scan) {
    !s.inDoubleQuote && !s.inSingleQuote && !s.escaped
  }

  lemma {:induction false} NeutralSpaceSplits(a: string, space: string, b: string)
    requires Neutral(FeedAll(START, a)) && |space| == 1 && IsSpace(space[0])
    ensures Tokens(a + space + b) == Tokens(a) + Tokens(b)
  {
    var s := FeedAll(START, a);
    FeedAllConcat(START, a, space + b);
    assert a + space + b == a + (space + b) && (space + b)[1..] == b;
    var t := Feed(s, space[0]);
    assert t == Shift(Tokens(a), START);
    FinishedTokensStay(Tokens(a), START, b);
    var u := FeedAll(START, b);
    assert Break(Shift(Tokens(a), u)) == Shift(Tokens(a), Break(u)) by {
      assert Tokens(a) + (u.tokens + [u.current]) == Tokens(a) + u.tokens + [u.current];
    }
  }

  /**
   A space separates two command lines, whatever the second one is, exactly when
   the first one ends outside quotes and escapes.
   */
  lemma {:induction false} SpaceSeparatesExactly(a: string)
    ensures (forall b :: Tokens(a + " " + b) == Tokens(a) + Tokens(b)) <==> Neutral(FeedAll(START, a))
  {
    if Neutral(FeedAll(START, a)) {
      forall b ensures Tokens(a + " " + b) == Tokens(a) + Tokens(b) {
        NeutralSpaceSplits(a, " ", b);
      }
    } else {
      var s := FeedAll(START, a);
      FeedAllConcat(START, a, " ");
      assert " "[1..] == "" && FeedAll(s, " ") == s.(current := s.current + " ", escaped := false);
      assert Tokens(a + " ") == s.tokens + [s.current + " "];
      assert Tokens("") == [] && a + " " + "" == a + " ";
      assert Tokens(a) + Tokens("") == Tokens(a);
      LongerTokenDiffers(s);
    }
  }

  lemma {:induction false} LongerTokenDiffers(s: Scan)
    ensures Break(s).tokens != s.tokens + [s.current + " "]
  {
    if s.current != "" {
      assert (s.tokens + [s.current])[|s.tokens|] != (s.tokens + [s.current + " "])[|s.tokens|];
    }
  }

  // ---- Rendering and reading back ----

  predicate Special(c: char) {
    c == '\\' || c == '"' || c == '\'' || IsSpace(c)
  }

  function Escape(arg: string): (r: string) {
    if arg == "" then ""
    else (if Special(arg[0]) then ['\\', arg[0]] else [arg[0]]) + Escape(arg[1..])
  }

  /** Arguments escaped with backslashes and joined with spaces. */
  function Render(args: seq<string>): (r: string) {
    if args == [] then ""
    else if |args| == 1 then Escape(args[0])
    else Escape(args[0]) + " " + Render(args[1..])
  }

  lemma {:induction false} EscapedTextIsRead(s: Scan, arg: string)
    requires Neutral(s)
    ensures FeedAll(s, Escape(arg)) == s.(current := s.current + arg)
    decreases arg
  {
    if arg == "" {
      assert s.current + arg == s.current;
    } else {
      var c := arg[0];
      var head := if Special(c) then ['\\', c] else [c];
      var next := s.(current := s.current + [c]);
      FeedAllConcat(s, head, Escape(arg[1..]));
      assert FeedAll(s, head) == next by {
        if Special(c) {
          assert head[1..] == [c] && [c][1..] == "";
          assert FeedAll(s, head) == FeedAll(s.(escaped := true), [c]) == FeedAll(next, "");
        } else {
          assert head[1..] == "";
        }
      }
      EscapedTextIsRead(next, arg[1..]);
      assert s.current + [c] + arg[1..] == s.current + arg;
    }
  }

  lemma {:induction false} RenderedArgumentsAreRead(args: seq<string>)
    requires "" !in args
    ensures Tokens(Render(args)) == args
    decreases args
  {
    if args == [] {
    } else {
      var arg := args[0];
      EscapedTextIsRead(START, arg);
      assert arg in args && "" + arg == arg;
      assert Tokens(Escape(arg)) == [arg];
      if |args| > 1 {
        RenderedArgumentsAreRead(args[1..]);
        NeutralSpaceSplits(Escape(arg), " ", Render(args[1..]));
      }
    }
  }

  // ---- Every way of quoting ----

  /** A stretch of an argument: with backslashes, between single quotes or between double quotes. */
  datatype Piece = Bare(text: string) | Single(text: string) | Double(text: string)

  /** Between double quotes only the quote and the backslash need a backslash. */
  function EscapeInDouble(text: string): (r: string) {
    if text == "" then ""
    else (if text[0] == '\\' || text[0] == '"' then ['\\', text[0]] else [text[0]]) + EscapeInDouble(text[1..])
  }

  function Written(p: Piece): (r: string) {
    match p
    case Bare(text) => Escape(text)
    case Single(text) => "'" + text + "'"
    case Double(text) => "\"" + EscapeInDouble(text) + "\""
  }

  /** Single quotes can hold anything but a single quote. */
  predicate Writable(ps: seq<Piece>) {
    forall p :: p in ps ==> p.Single? ==> '\'' !in p.text
  }

  function WrittenAll(ps: seq<Piece>): (r: string) {
    if ps == [] then "" else Written(ps[0]) + WrittenAll(ps[1..])
  }

  function TextOf(ps: seq<Piece>): (r: string) {
    if ps == [] then "" else ps[0].text + TextOf(ps[1..])
  }

  /** Arguments written piece by piece, with white space between them. */
  function WrittenLine(args: seq<seq<Piece>>, space: char): (r: string) {
    if args == [] then ""
    else if |args| == 1 then WrittenAll(args[0])
    else WrittenAll(args[0]) + [space] + WrittenLine(args[1..], space)
  }

  lemma {:induction false} SingleTextIsRead(s: Scan, text: string)
    requires s.inSingleQuote && !s.inDoubleQuote && !s.escaped && '\'' !in text
    ensures FeedAll(s, text) == s.(current := s.current + text)
    decreases text
  {
    if text == "" {
      assert s.current + text == s.current;
    } else {
      SingleTextIsRead(Feed(s, text[0]), text[1..]);
      assert s.current + [text[0]] + text[1..] == s.current + text;
    }
  }

  lemma {:induction false} DoubleTextIsRead(s: Scan, text: string)
    requires s.inDoubleQuote && !s.inSingleQuote && !s.escaped
    ensures FeedAll(s, EscapeInDouble(text)) == s.(current := s.current + text)
    decreases text
  {
    if text == "" {
      assert s.current + text == s.current;
    } else {
      var c := text[0];
      var head := if c == '\\' || c == '"' then ['\\', c] else [c];
      var next := s.(current := s.current + [c]);
      FeedAllConcat(s, head, EscapeInDouble(text[1..]));
      assert FeedAll(s, head) == next by {
        if |head| == 2 {
          assert head[1..] == [c] && [c][1..] == "";
          assert FeedAll(s, head) == FeedAll(s.(escaped := true), [c]) == FeedAll(next, "");
        } else {
          assert head[1..] == "";
        }
      }
      DoubleTextIsRead(next, text[1..]);
      assert s.current + [c] + text[1..] == s.current + text;
    }
  }

  lemma {:induction false} QuotedIsRead(s: Scan, quote: char, inside: string, t: Scan)
    requires FeedAll(Feed(s, quote), inside) == t
    ensures FeedAll(s, [quote] + inside + [quote]) == Feed(t, quote)
  {
    FeedAllConcat(s, [quote] + inside, [quote]);
    FeedAllConcat(s, [quote], inside);
    assert [quote][1..] == "" && FeedAll(s, [quote]) == Feed(s, quote) && FeedAll(t, [quote]) == Feed(t, quote);
  }

  lemma {:induction false} PieceIsRead(s: Scan, p: Piece)
    requires Neutral(s) && Writable([p])
    ensures FeedAll(s, Written(p)) == s.(current := s.current + p.text)
  {
    assert p in [p];
    match p
    case Bare(text) => EscapedTextIsRead(s, text);
    case Single(text) =>
      SingleTextIsRead(s.(inSingleQuote := true), text);
      QuotedIsRead(s, '\'', text, s.(inSingleQuote := true, current := s.current + text));
    case Double(text) =>
      DoubleTextIsRead(s.(inDoubleQuote := true), text);
      QuotedIsRead(s, '"', EscapeInDouble(text), s.(inDoubleQuote := true, current := s.current + text));
  }

  lemma {:induction false} Regroup(a: string, b: string, c: string)
    ensures a + b + c == a + (b + c)
  {
  }

  lemma {:induction false} PiecesAreRead(s: Scan, ps: seq<Piece>)
    requires Neutral(s) && Writable(ps)
    ensures FeedAll(s, WrittenAll(ps)) == s.(current := s.current + TextOf(ps))
    decreases ps
  {
    if ps == [] {
      assert s.current + "" == s.current;
    } else {
      var next := s.(current := s.current + ps[0].text);
      PieceIsRead(s, ps[0]);
      FeedAllConcat(s, Written(ps[0]), WrittenAll(ps[1..]));
      PiecesAreRead(next, ps[1..]);
      Regroup(s.current, ps[0].text, TextOf(ps[1..]));
    }
  }

  function IsText(): (p: string -> bool) { text => text != "" }

  /**
   However its arguments are quoted, a command line reads as their texts; an argument
   without text, quoted or not, is lost.
   */
  lemma {:induction false} QuotedArgumentsAreRead(args: seq<seq<Piece>>, space: char)
    requires IsSpace(space) && forall arg :: arg in args ==> Writable(arg)
    ensures Tokens(WrittenLine(args, space)) == Q.Filter(IsText(), Q.Map(TextOf, args))
    decreases args
  {
    if args == [] {
    } else {
      var rest := args[1..];
      PiecesAreRead(START, args[0]);
      assert "" + TextOf(args[0]) == TextOf(args[0]);
      var first := if TextOf(args[0]) == "" then [] else [TextOf(args[0])];
      assert Tokens(WrittenAll(args[0])) == first;
      assert Q.Map(TextOf, args)[1..] == Q.Map(TextOf, rest);
      assert Q.Filter(IsText(), Q.Map(TextOf, args)) == first + Q.Filter(IsText(), Q.Map(TextOf, rest));
      if |args| == 1 {
        assert rest == [] && Q.Filter(IsText(), Q.Map(TextOf, rest)) == [];
      } else {
        QuotedArgumentsAreRead(rest, space);
        NeutralSpaceSplits(WrittenAll(args[0]), [space], WrittenLine(rest, space));
      }
    }
  }

  lemma {:induction false} TokensAreNeverEmpty(s: Scan, cmd: string)
    requires "" !in s.tokens
    ensures "" !in FeedAll(s, cmd).tokens && "" !in Break(FeedAll(s, cmd)).tokens
    decreases cmd
  {
    if cmd == "" {
    } else {
      TokensAreNeverEmpty(Feed(s, cmd[0]), cmd[1..]);
    }
  }

  /**
   What the tokenizer can produce: a list of arguments is the reading of some
   command line exactly when none of them is empty, and then its rendering reads
   back as the list.
   */
  lemma {:induction false} TokenizerImage(args: seq<string>)
    ensures (exists cmd :: Tokens(cmd) == args) <==> "" !in args
    ensures "" !in args ==> Tokens(Render(args)) == args
  {
    if "" !in args {
      RenderedArgumentsAreRead(args);
    } else {
      forall cmd ensures Tokens(cmd) != args {
        TokensAreNeverEmpty(START, cmd);
      }
    }
  }
}
