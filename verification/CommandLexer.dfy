/**
 The shell-style lexer and its inverse (platform/agentlaunch/splitargs.go,
 joinargs.go): a command is cut into tokens that keep both the text as written and
 the argument it stands for.
 */
module CommandLexer {
  import opened Wrappers

  datatype Mode = Bare | Single | Double

  /** `ArgToken`. */
  datatype Token = Token(raw: string, value: string)

  datatype LexError = UnterminatedEscape | UnterminatedSingleQuote | UnterminatedDoubleQuote

  predicate Separator(c: char) {
    c == ' ' || c == '\t' || c == '\n'
  }

  /** What the lexer does at one position: end a token, or take some text with the value it stands for. */
  datatype Reading = Dangling | Space | Take(n: nat, next: Mode, value: string)

  function Read(s: string, mode: Mode): (r: Reading)
    requires s != ""
    ensures r.Take? ==> 1 <= r.n <= |s|
  {
    if s[0] == '\\' && !mode.Single? then if |s| < 2 then Dangling else Take(2, mode, [s[1]])
    else
      match mode
      case Bare =>
        if Separator(s[0]) then Space
        else if s[0] == '\'' then Take(1, Single, "")
        else if s[0] == '"' then Take(1, Double, "")
        else Take(1, Bare, [s[0]])
      case Single => if s[0] == '\'' then Take(1, Bare, "") else Take(1, Single, [s[0]])
      case Double => if s[0] == '"' then Take(1, Bare, "") else Take(1, Double, [s[0]])
  }

  /** The token being read, with more text and more value. */
  function Grow(open: Option<Token>, raw: string, value: string): Option<Token> {
    if open.None? then Some(Token(raw, value)) else Some(Token(open.value.raw + raw, open.value.value + value))
  }

  function Prepend(open: Option<Token>, rest: Result<seq<Token>, LexError>): Result<seq<Token>, LexError> {
    if open.None? then rest else match rest case Ok(ts) => Ok([open.value] + ts) case Err(e) => Err(e)
  }

  function AtEnd(mode: Mode, open: Option<Token>): Result<seq<Token>, LexError> {
    match mode
    case Bare => Prepend(open, Ok([]))
    case Single => Err(UnterminatedSingleQuote)
    case Double => Err(UnterminatedDoubleQuote)
  }

  /** The tokens of `s`, read in `mode` with `open` the token begun before it. */
  function Lex(s: string, mode: Mode, open: Option<Token>): Result<seq<Token>, LexError>
    decreases |s|
  {
    if s == "" then AtEnd(mode, open)
    else
      match Read(s, mode)
      case Dangling => Err(UnterminatedEscape)
      case Space => Prepend(open, Lex(s[1..], Bare, None))
      case Take(n, next, value) => Lex(s[n..], next, Grow(open, s[..n], value))
  }

  function LexArgs(command: string): Result<seq<Token>, LexError> {
    Lex(command, Bare, None)
  }

  // ------------------------------------------------------------- pieces of a token

  /** What a piece of text does inside a token: the mode it ends in and the value it adds; None if it is not one piece. */
  function Consume(a: string, mode: Mode): Option<(Mode, string)>
    decreases |a|
  {
    if a == "" then Some((mode, ""))
    else
      match Read(a, mode)
      case Take(n, next, value) => Add(value, Consume(a[n..], next))
      case _ => None
  }

  function Add(value: string, rest: Option<(Mode, string)>): Option<(Mode, string)> {
    if rest.None? then None else Some((rest.value.0, value + rest.value.1))
  }

  /** Text that reads as one whole token. */
  predicate Whole(t: Token) {
    t.raw != "" && Consume(t.raw, Bare) == Some((Bare, t.value))
  }

  lemma ReadMore(a: string, b: string, mode: Mode)
    requires a != "" && !Read(a, mode).Dangling?
    ensures Read(a + b, mode) == Read(a, mode)
  {
  }

  lemma AddAdd(u: string, v: string, rest: Option<(Mode, string)>)
    ensures Add(u, Add(v, rest)) == Add(u + v, rest)
  {
    if rest.Some? { assert u + (v + rest.value.1) == u + v + rest.value.1; }
  }

  lemma {:induction false} ConsumeConcat(a: string, b: string, mode: Mode)
    requires Consume(a, mode).Some?
    ensures Consume(a + b, mode) == Add(Consume(a, mode).value.1, Consume(b, Consume(a, mode).value.0))
    decreases |a|
  {
    if a == "" {
      assert a + b == b;
      var rest := Consume(b, mode);
      if rest.Some? { assert "" + rest.value.1 == rest.value.1; }
    } else {
      var r := Read(a, mode);
      ReadMore(a, b, mode);
      assert (a + b)[r.n..] == a[r.n..] + b;
      ConsumeConcat(a[r.n..], b, r.next);
      var c := Consume(a[r.n..], r.next).value;
      AddAdd(r.value, c.1, Consume(b, c.0));
    }
  }

  /** A token grown twice is a token grown once. */
  lemma GrowTwice(open: Token, a: string, n: nat, u: string, v: string)
    requires n <= |a|
    ensures Token(open.raw + a[..n] + a[n..], open.value + u + v) == Token(open.raw + a, open.value + (u + v))
  {
    assert open.raw + a[..n] + a[n..] == open.raw + a;
    assert open.value + u + v == open.value + (u + v);
  }

  lemma LexTakes(a: string, rest: string, mode: Mode, open: Token)
    requires a != "" && Read(a, mode).Take?
    ensures var r := Read(a, mode);
            Lex(a + rest, mode, Some(open)) ==
              Lex(a[r.n..] + rest, r.next, Some(Token(open.raw + a[..r.n], open.value + r.value)))
  {
    ReadMore(a, rest, mode);
    var r := Read(a, mode);
    assert (a + rest)[r.n..] == a[r.n..] + rest && (a + rest)[..r.n] == a[..r.n];
  }

  /** Reading a piece inside a token. */
  lemma {:induction false} LexConsumes(a: string, rest: string, mode: Mode, open: Token, end: Mode, value: string)
    requires Consume(a, mode) == Some((end, value))
    ensures Lex(a + rest, mode, Some(open)) == Lex(rest, end, Some(Token(open.raw + a, open.value + value)))
    decreases |a|
  {
    if a == "" {
      assert a + rest == rest && open.raw + a == open.raw && open.value + value == open.value;
    } else {
      var r := Read(a, mode);
      var c := Consume(a[r.n..], r.next).value.1;
      LexTakes(a, rest, mode, open);
      LexConsumes(a[r.n..], rest, r.next, Token(open.raw + a[..r.n], open.value + r.value), end, c);
      GrowTwice(open, a, r.n, r.value, c);
    }
  }

  lemma LexStarts(a: string, rest: string)
    requires a != "" && Read(a, Bare).Take?
    ensures var r := Read(a, Bare);
            Lex(a + rest, Bare, None) == Lex(a[r.n..] + rest, r.next, Some(Token(a[..r.n], r.value)))
  {
    ReadMore(a, rest, Bare);
    var r := Read(a, Bare);
    assert (a + rest)[r.n..] == a[r.n..] + rest && (a + rest)[..r.n] == a[..r.n];
  }

  lemma WholeParts(t: Token)
    requires Whole(t)
    ensures var r := Read(t.raw, Bare);
            && r.Take? && Consume(t.raw[r.n..], r.next).Some?
            && var c := Consume(t.raw[r.n..], r.next).value;
            && c.0 == Bare && t == Token(t.raw[..r.n] + t.raw[r.n..], r.value + c.1)
  {
    var r := Read(t.raw, Bare);
    assert t.raw[..r.n] + t.raw[r.n..] == t.raw;
  }

  /** Reading a whole token. */
  lemma LexWhole(t: Token, rest: string)
    requires Whole(t)
    ensures Lex(t.raw + rest, Bare, None) == Lex(rest, Bare, Some(t))
  {
    WholeParts(t);
    var r := Read(t.raw, Bare);
    LexStarts(t.raw, rest);
    LexConsumes(t.raw[r.n..], rest, r.next, Token(t.raw[..r.n], r.value), Bare, Consume(t.raw[r.n..], r.next).value.1);
  }

  // ----------------------------------------------------------------- round trips

  function Raws(ts: seq<Token>): seq<string> {
    seq(|ts|, i requires 0 <= i < |ts| => ts[i].raw)
  }

  function Values(ts: seq<Token>): seq<string> {
    seq(|ts|, i requires 0 <= i < |ts| => ts[i].value)
  }

  /** `strings.Join(parts, " ")`. */
  function Join(parts: seq<string>): string {
    if parts == [] then "" else if |parts| == 1 then parts[0] else parts[0] + " " + Join(parts[1..])
  }

  /** Whole tokens written with a space between them read as themselves. */
  lemma {:induction false} LexJoin(ts: seq<Token>)
    requires forall i :: 0 <= i < |ts| ==> Whole(ts[i])
    ensures LexArgs(Join(Raws(ts))) == Ok(ts)
  {
    if |ts| == 1 {
      LexWhole(ts[0], "");
      assert ts[0].raw + "" == ts[0].raw;
      assert [ts[0]] + [] == ts;
    } else if |ts| > 1 {
      LexJoin(ts[1..]);
      assert Raws(ts)[1..] == Raws(ts[1..]);
      LexBeforeSpace(ts[0], Join(Raws(ts[1..])));
      assert [ts[0]] + ts[1..] == ts;
    }
  }

  lemma LexBeforeSpace(t: Token, rest: string)
    requires Whole(t)
    ensures LexArgs(t.raw + " " + rest) == Prepend(Some(t), LexArgs(rest))
  {
    LexWhole(t, " " + rest);
    assert t.raw + " " + rest == t.raw + (" " + rest);
    assert (" " + rest)[1..] == rest;
  }

  /** An open token is a piece that ends in the current mode. */
  predicate OpenOk(mode: Mode, open: Option<Token>) {
    if open.None? then mode.Bare?
    else open.value.raw != "" && Consume(open.value.raw, Bare) == Some((mode, open.value.value))
  }

  lemma GrowOk(mode: Mode, open: Option<Token>, s: string)
    requires OpenOk(mode, open) && s != "" && Read(s, mode).Take?
    ensures var r := Read(s, mode); OpenOk(r.next, Grow(open, s[..r.n], r.value))
  {
    var r := Read(s, mode);
    assert Read(s[..r.n], mode) == r;
    assert s[..r.n][r.n..] == "" && r.value + "" == r.value;
    assert Consume(s[..r.n], mode) == Some((r.next, r.value));
    if open.Some? { ConsumeConcat(open.value.raw, s[..r.n], Bare); }
  }

  /** Every token the lexer yields is a whole token. */
  lemma {:induction false} LexYieldsWhole(s: string, mode: Mode, open: Option<Token>)
    requires OpenOk(mode, open) && Lex(s, mode, open).Ok?
    ensures var ts := Lex(s, mode, open).value; forall i :: 0 <= i < |ts| ==> Whole(ts[i])
    decreases |s|
  {
    if s != "" {
      var r := Read(s, mode);
      if r.Take? {
        GrowOk(mode, open, s);
        LexYieldsWhole(s[r.n..], r.next, Grow(open, s[..r.n], r.value));
      } else {
        LexYieldsWhole(s[1..], Bare, None);
      }
    }
  }

  /** Re-reading the kept texts of a command's tokens gives the tokens back, byte for byte. */
  lemma RawsReadBack(command: string)
    requires LexArgs(command).Ok?
    ensures LexArgs(Join(Raws(LexArgs(command).value))) == LexArgs(command)
  {
    LexYieldsWhole(command, Bare, None);
    LexJoin(LexArgs(command).value);
  }

  function OpenLength(open: Option<Token>): nat {
    if open.None? then 0 else |open.value.raw|
  }

  /** The tokens with one space between each are no longer than what was read. */
  lemma {:induction false} LexShrinks(s: string, mode: Mode, open: Option<Token>)
    requires Lex(s, mode, open).Ok?
    ensures |Join(Raws(Lex(s, mode, open).value))| <= OpenLength(open) + |s|
    decreases |s|
  {
    if s != "" {
      var r := Read(s, mode);
      if r.Take? {
        LexShrinks(s[r.n..], r.next, Grow(open, s[..r.n], r.value));
      } else {
        LexShrinks(s[1..], Bare, None);
        if open.Some? {
          var ts := Lex(s[1..], Bare, None).value;
          assert Raws([open.value] + ts)[1..] == Raws(ts);
        }
      }
    }
  }

  /** Text that does not begin, or end, in a separator begins, or ends, in a token. */
  lemma {:induction false} LexEnds(s: string, mode: Mode, open: Option<Token>)
    requires Lex(s, mode, open).Ok? && (open.Some? ==> open.value.raw != "")
    requires s == "" ==> open.Some?
    ensures var ts := Lex(s, mode, open).value;
            && (open.Some? ==> ts != [] && ts[0].raw != "" && ts[0].raw[0] == open.value.raw[0])
            && (open.None? && mode.Bare? && !Separator(s[0]) ==> ts != [] && ts[0].raw != "" && ts[0].raw[0] == s[0])
            && (s != "" && !Separator(s[|s| - 1]) ==>
                  ts != [] && ts[|ts| - 1].raw != "" && ts[|ts| - 1].raw[|ts[|ts| - 1].raw| - 1] == s[|s| - 1])
            && (s == "" ==> ts == [open.value])
    decreases |s|
  {
    if s != "" {
      var r := Read(s, mode);
      if r.Take? {
        LexEnds(s[r.n..], r.next, Grow(open, s[..r.n], r.value));
      } else if s[1..] != "" {
        LexEnds(s[1..], Bare, None);
      }
    }
  }

  // --------------------------------------------------------------------- quoting

  predicate SafeChar(c: char) {
    'a' <= c <= 'z' || 'A' <= c <= 'Z' || '0' <= c <= '9' || c in "@%_+=:,./-"
  }

  predicate SafeArg(arg: string) {
    forall i :: 0 <= i < |arg| ==> SafeChar(arg[i])
  }

  /** Each single quote closes the quotes, stands escaped, and opens them again. */
  function Escape(arg: string): string {
    if arg == "" then "" else (if arg[0] == '\'' then "'\\''" else [arg[0]]) + Escape(arg[1..])
  }

  /** `quoteArg`. */
  function Quote(arg: string): string {
    if arg == "" then "''" else if SafeArg(arg) then arg else "'" + Escape(arg) + "'"
  }

  function QuoteAll(argv: seq<string>): seq<Token> {
    seq(|argv|, i requires 0 <= i < |argv| => Token(Quote(argv[i]), argv[i]))
  }

  /** `JoinArgs`. */
  function JoinArgs(argv: seq<string>): string {
    Join(Raws(QuoteAll(argv)))
  }

  lemma SafeReads(arg: string)
    requires arg != "" && SafeChar(arg[0])
    ensures Read(arg, Bare) == Take(1, Bare, [arg[0]])
  {
  }

  lemma {:induction false} SafeConsumes(arg: string)
    requires SafeArg(arg)
    ensures Consume(arg, Bare) == Some((Bare, arg))
  {
    if arg != "" {
      SafeReads(arg);
      SafeConsumes(arg[1..]);
      ConsumeNext(arg, Bare, arg[1..]);
      assert [arg[0]] + arg[1..] == arg;
    }
  }

  lemma ConsumeNext(a: string, mode: Mode, rest: string)
    requires a != "" && Read(a, mode).Take? && a[Read(a, mode).n..] == rest
    ensures Consume(a, mode) == Add(Read(a, mode).value, Consume(rest, Read(a, mode).next))
  {
  }

  lemma AddNothing(c: Option<(Mode, string)>)
    ensures Add("", c) == c
  {
    if c.Some? { assert "" + c.value.1 == c.value.1; }
  }

  lemma QuoteMark(rest: string)
    ensures Consume("'\\''" + rest, Single) == Add("'", Consume(rest, Single))
  {
    var open, escaped, closed := "'" + rest, "\\''" + rest, "'\\''" + rest;
    ConsumeNext(closed, Single, escaped);
    ConsumeNext(escaped, Bare, open);
    ConsumeNext(open, Bare, rest);
    AddNothing(Consume(rest, Single));
    AddNothing(Add("'", Consume(rest, Single)));
  }

  lemma {:induction false} EscapeConsumes(arg: string)
    ensures Consume(Escape(arg) + "'", Single) == Some((Bare, arg))
  {
    if arg == "" {
      assert Escape(arg) + "'" == "'";
      ConsumeNext("'", Single, "");
      AddNothing(Consume("", Bare));
    } else {
      EscapeConsumes(arg[1..]);
      var rest := Escape(arg[1..]) + "'";
      assert [arg[0]] + arg[1..] == arg;
      if arg[0] == '\'' {
        assert Escape(arg) + "'" == "'\\''" + rest;
        QuoteMark(rest);
      } else {
        assert Escape(arg) + "'" == [arg[0]] + rest;
        ConsumeNext([arg[0]] + rest, Single, rest);
      }
    }
  }

  lemma QuoteIsWhole(arg: string)
    ensures Whole(Token(Quote(arg), arg))
  {
    if arg == "" || !SafeArg(arg) {
      EscapeConsumes(arg);
      var rest := Escape(arg) + "'";
      assert Quote(arg) == "'" + rest;
      ConsumeNext(Quote(arg), Bare, rest);
      AddNothing(Some((Bare, arg)));
    } else {
      SafeConsumes(arg);
    }
  }

  /** Each character behind a backslash. */
  function Backslashed(arg: string): string {
    if arg == "" then "" else "\\" + [arg[0]] + Backslashed(arg[1..])
  }

  lemma BackslashNext(c: char, rest: string, mode: Mode)
    requires !mode.Single?
    ensures Consume("\\" + [c] + rest, mode) == Add([c], Consume(rest, mode))
  {
    var a := "\\" + [c] + rest;
    assert a[0] == '\\' && a[1] == c && a[2..] == rest;
    ConsumeNext(a, mode, rest);
  }

  lemma {:induction false} BackslashedConsumes(arg: string, rest: string, mode: Mode)
    requires !mode.Single?
    ensures Consume(Backslashed(arg) + rest, mode) == Add(arg, Consume(rest, mode))
  {
    if arg == "" {
      assert Backslashed(arg) + rest == rest;
      AddNothing(Consume(rest, mode));
    } else {
      BackslashedConsumes(arg[1..], rest, mode);
      var tail := Backslashed(arg[1..]) + rest;
      assert Backslashed(arg) + rest == "\\" + [arg[0]] + tail;
      BackslashNext(arg[0], tail, mode);
      AddAdd([arg[0]], arg[1..], Consume(rest, mode));
      assert [arg[0]] + arg[1..] == arg;
    }
  }

  /** Backslashes and double quotes spell any argument too. */
  lemma OtherSpellings(arg: string)
    ensures Whole(Token("\"" + Backslashed(arg) + "\"", arg))
    ensures arg != "" ==> Whole(Token(Backslashed(arg), arg))
  {
    var body := Backslashed(arg) + "\"";
    BackslashedConsumes(arg, "\"", Double);
    ConsumeNext("\"", Double, "");
    AddNothing(Consume("", Bare));
    assert arg + "" == arg;
    assert "\"" + Backslashed(arg) + "\"" == "\"" + body;
    ConsumeNext("\"" + body, Bare, body);
    AddNothing(Consume(body, Double));
    BackslashedConsumes(arg, "", Bare);
    assert Backslashed(arg) + "" == Backslashed(arg);
  }

  /** A separator ends a token only outside quotes. */
  lemma QuotedSeparator(c: char, double: bool)
    requires Separator(c)
    ensures var q := if double then '"' else '\''; Whole(Token([q, c, q], [c]))
    ensures Read([c], Bare) == Space
  {
    var q, mode := if double then '"' else '\'', if double then Double else Single;
    assert [q, c, q][1..] == [c, q] && [c, q][1..] == [q] && [q][1..] == "";
    ConsumeNext([q], mode, "");
    ConsumeNext([c, q], mode, [q]);
    ConsumeNext([q, c, q], Bare, [c, q]);
    AddNothing(Consume("", Bare));
    AddNothing(Consume([c, q], mode));
    assert [c] + "" == [c];
  }

  /** Joining and splitting: every list of arguments, whatever is in them, comes back. */
  lemma SplitJoin(argv: seq<string>)
    ensures LexArgs(JoinArgs(argv)) == Ok(QuoteAll(argv))
    ensures Values(LexArgs(JoinArgs(argv)).value) == argv
  {
    forall i | 0 <= i < |argv| ensures Whole(QuoteAll(argv)[i]) { QuoteIsWhole(argv[i]); }
    LexJoin(QuoteAll(argv));
  }
}
