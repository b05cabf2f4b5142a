/** `LexArgs` as it runs: one pass for the arguments, a second over the same text for the spans (splitargs.go). */
module LexerPasses {
  import opened Wrappers
  import opened CommandLexer

  /** Tokens finished, then whatever the rest of the text gives. */
  function Before(done: seq<Token>, rest: Result<seq<Token>, LexError>): Result<seq<Token>, LexError> {
    match rest
    case Ok(ts) => Ok(done + ts)
    case Err(e) => Err(e)
  }

  ghost predicate At(command: string, i: nat, done: seq<Token>, mode: Mode, open: Option<Token>) {
    && i <= |command| && (open.None? ==> mode.Bare?)
    && LexArgs(command) == Before(done, Lex(command[i..], mode, open))
  }

  lemma TakeAt(command: string, i: nat, done: seq<Token>, mode: Mode, open: Option<Token>)
    requires At(command, i, done, mode, open) && i < |command| && Read(command[i..], mode).Take?
    ensures var r := Read(command[i..], mode);
            At(command, i + r.n, done, r.next, Grow(open, command[i..i + r.n], r.value))
  {
    var r := Read(command[i..], mode);
    assert command[i..][r.n..] == command[i + r.n..] && command[i..][..r.n] == command[i..i + r.n];
  }

  lemma SpaceAt(command: string, i: nat, done: seq<Token>, mode: Mode, open: Option<Token>)
    requires At(command, i, done, mode, open) && i < |command| && Read(command[i..], mode).Space?
    ensures At(command, i + 1, if open.Some? then done + [open.value] else done, Bare, None)
    ensures open.Some? && LexArgs(command).Ok? ==>
              |done| < |LexArgs(command).value| && LexArgs(command).value[|done|] == open.value
  {
    assert command[i..][1..] == command[i + 1..];
    var rest := Lex(command[i + 1..], Bare, None);
    if open.Some? && rest.Ok? { assert done + ([open.value] + rest.value) == done + [open.value] + rest.value; }
  }

  lemma EndAt(command: string, done: seq<Token>, mode: Mode, open: Option<Token>)
    requires At(command, |command|, done, mode, open)
    ensures LexArgs(command) == Before(done, AtEnd(mode, open))
    ensures open.Some? && mode.Bare? ==> LexArgs(command) == Ok(done + [open.value])
  {
    assert command[|command|..] == "";
    if open.Some? { assert done + ([open.value] + []) == done + [open.value]; }
  }

  /** `Grow`, whether or not a token had begun. */
  lemma GrowIs(inToken: bool, raw: string, cur: string, text: string, value: string)
    requires !inToken ==> raw == "" && cur == ""
    ensures Grow(if inToken then Some(Token(raw, cur)) else None, text, value) == Some(Token(raw + text, cur + value))
  {
    assert "" + text == text && "" + value == value;
  }

  lemma StartAt(command: string)
    ensures At(command, 0, [], Bare, None)
  {
    assert command[0..] == command;
    assert LexArgs(command).Ok? ==> [] + LexArgs(command).value == LexArgs(command).value;
  }

  lemma ValuesSnoc(ts: seq<Token>, t: Token)
    ensures Values(ts + [t]) == Values(ts) + [t.value]
  {
  }

  /** What both passes do with the character at `i`. */
  method ReadAt(command: string, i: nat, mode: Mode) returns (r: Reading)
    requires i < |command|
    ensures r == Read(command[i..], mode)
    ensures r.Take? ==> i + r.n <= |command|
  {
    var c := command[i];
    assert command[i..][0] == c;
    if mode.Single? {
      return if c == '\'' then Take(1, Bare, "") else Take(1, Single, [c]);
    }
    if c == '\\' {
      if i + 1 >= |command| { return Dangling; }
      assert command[i..][1] == command[i + 1];
      return Take(2, mode, [command[i + 1]]);
    }
    if mode.Double? {
      return if c == '"' then Take(1, Bare, "") else Take(1, Double, [c]);
    }
    if Separator(c) { return Space; }
    if c == '\'' { return Take(1, Single, ""); }
    if c == '"' { return Take(1, Double, ""); }
    return Take(1, Bare, [c]);
  }

  lemma DanglingAt(command: string, i: nat, done: seq<Token>, mode: Mode, open: Option<Token>)
    requires At(command, i, done, mode, open) && i < |command| && Read(command[i..], mode).Dangling?
    ensures LexArgs(command) == Err(UnterminatedEscape)
  {
  }

  lemma NotDangling(command: string, i: nat, done: seq<Token>, mode: Mode, open: Option<Token>)
    requires At(command, i, done, mode, open) && i < |command| && LexArgs(command).Ok?
    ensures !Read(command[i..], mode).Dangling?
  {
  }

  /** A pass between two characters: tokens finished, and the one under way. */
  datatype Pass = Pass(done: seq<Token>, mode: Mode, inToken: bool, raw: string, cur: string)

  function OpenOf(p: Pass): Option<Token> {
    if p.inToken then Some(Token(p.raw, p.cur)) else None
  }

  ghost predicate PassAt(command: string, i: nat, p: Pass) {
    At(command, i, p.done, p.mode, OpenOf(p)) && (!p.inToken ==> p.raw == "" && p.cur == "")
  }

  /** What one character, or an escaped pair, does to a pass. */
  function Advance(p: Pass, r: Reading, text: string): Pass {
    match r
    case Take(_, next, value) => Pass(p.done, next, true, p.raw + text, p.cur + value)
    case _ => Pass(if p.inToken then p.done + [Token(p.raw, p.cur)] else p.done, Bare, false, "", "")
  }

  lemma AdvanceAt(command: string, i: nat, p: Pass)
    requires PassAt(command, i, p) && i < |command| && !Read(command[i..], p.mode).Dangling?
    ensures var r := Read(command[i..], p.mode);
            var n := if r.Take? then r.n else 1;
            i + n <= |command| && PassAt(command, i + n, Advance(p, r, command[i..i + n]))
  {
    var r := Read(command[i..], p.mode);
    if r.Take? {
      TakeAt(command, i, p.done, p.mode, OpenOf(p));
      GrowIs(p.inToken, p.raw, p.cur, command[i..i + r.n], r.value);
    } else {
      SpaceAt(command, i, p.done, p.mode, OpenOf(p));
    }
  }

  /** A token that ends at a separator is the next of the command's tokens. */
  lemma EndsToken(command: string, i: nat, p: Pass)
    requires PassAt(command, i, p) && i < |command| && Read(command[i..], p.mode).Space? && p.inToken
    requires LexArgs(command).Ok?
    ensures |p.done| < |LexArgs(command).value| && LexArgs(command).value[|p.done|].value == p.cur
  {
    SpaceAt(command, i, p.done, p.mode, OpenOf(p));
  }

  lemma StartPass(command: string)
    ensures PassAt(command, 0, Pass([], Bare, false, "", ""))
  {
    StartAt(command);
  }

  /** `lexCookedArgs`. */
  method LexCookedArgs(command: string) returns (r: Result<seq<string>, LexError>)
    ensures match LexArgs(command) case Ok(ts) => r == Ok(Values(ts)) case Err(e) => r == Err(e)
  {
    var args: seq<string> := [];
    var cur, inToken, mode := "", false, Bare;
    ghost var p := Pass([], Bare, false, "", "");
    var i := 0;
    StartPass(command);
    while i < |command|
      invariant i <= |command| && PassAt(command, i, p)
      invariant cur == p.cur && inToken == p.inToken && mode == p.mode && args == Values(p.done)
    {
      var seen := ReadAt(command, i, mode);
      if seen.Dangling? {
        DanglingAt(command, i, p.done, p.mode, OpenOf(p));
        return Err(UnterminatedEscape);
      }
      AdvanceAt(command, i, p);
      if seen.Space? {
        ghost var p0 := p;
        p := Advance(p, seen, command[i..i + 1]);
        if inToken {
          ValuesSnoc(p0.done, Token(p0.raw, p0.cur));
          args := args + [cur];
        }
        cur, inToken, mode := "", false, Bare;
        i := i + 1;
      } else {
        p := Advance(p, seen, command[i..i + seen.n]);
        cur, inToken, mode := cur + seen.value, true, seen.next;
        i := i + seen.n;
      }
    }
    EndAt(command, p.done, p.mode, OpenOf(p));
    if mode.Single? { return Err(UnterminatedSingleQuote); }
    if mode.Double? { return Err(UnterminatedDoubleQuote); }
    FinishAt(command, p.done, p.mode, OpenOf(p));
    if inToken {
      ValuesSnoc(p.done, Token(p.raw, p.cur));
      args := args + [cur];
    }
    return Ok(args);
  }

  /** `lexRawSpans`: the second walk, pairing each span with its argument by position. */
  method LexRawSpans(command: string, args: seq<string>) returns (tokens: seq<Token>)
    requires LexArgs(command).Ok? && args == Values(LexArgs(command).value)
    ensures LexArgs(command) == Ok(tokens)
  {
    var inToken, mode, tokenStart, i := false, Bare, 0, 0;
    ghost var p := Pass([], Bare, false, "", "");
    tokens := [];
    StartPass(command);
    while i < |command|
      invariant 0 <= tokenStart <= i <= |command| && PassAt(command, i, p)
      invariant tokens == p.done && inToken == p.inToken && mode == p.mode && p.raw == command[tokenStart..i]
    {
      p, tokens, inToken, mode, tokenStart, i := SpanStep(command, args, p, tokens, inToken, mode, tokenStart, i);
    }
    FinishAt(command, p.done, p.mode, OpenOf(p));
    if inToken {
      tokens := tokens + [Token(command[tokenStart..i], args[|tokens|])];
    }
  }

  /** One turn of the second walk. */
  method SpanStep(command: string, args: seq<string>, ghost p: Pass, tokens: seq<Token>, inToken: bool, mode: Mode,
                  tokenStart: nat, i: nat)
    returns (ghost p': Pass, tokens': seq<Token>, inToken': bool, mode': Mode, tokenStart': nat, i': nat)
    requires LexArgs(command).Ok? && args == Values(LexArgs(command).value)
    requires tokenStart <= i < |command| && PassAt(command, i, p)
    requires tokens == p.done && inToken == p.inToken && mode == p.mode && p.raw == command[tokenStart..i]
    ensures i < i' && tokenStart' <= i' <= |command| && PassAt(command, i', p')
    ensures tokens' == p'.done && inToken' == p'.inToken && mode' == p'.mode && p'.raw == command[tokenStart'..i']
  {
    var seen := ReadAt(command, i, mode);
    NotDangling(command, i, p.done, p.mode, OpenOf(p));
    AdvanceAt(command, i, p);
    if seen.Space? {
      p' := Advance(p, seen, command[i..i + 1]);
      tokens' := tokens;
      if inToken {
        EndsToken(command, i, p);
        SpanIs(command, args, p, command[tokenStart..i]);
        tokens' := tokens + [Token(command[tokenStart..i], args[|tokens|])];
      }
      inToken', mode', tokenStart', i' := false, Bare, i + 1, i + 1;
    } else {
      assert command[tokenStart..i] + command[i..i + seen.n] == command[tokenStart..i + seen.n];
      p' := Advance(p, seen, command[i..i + seen.n]);
      tokens', inToken', mode', tokenStart', i' := tokens, true, seen.next, tokenStart, i + seen.n;
    }
  }

  /** The open token, closed by a separator or by the end, is the next of the command's tokens. */
  lemma SpanIs(command: string, args: seq<string>, p: Pass, span: string)
    requires LexArgs(command).Ok? && args == Values(LexArgs(command).value) && p.inToken && p.raw == span
    requires |p.done| < |args| && LexArgs(command).value[|p.done|].value == p.cur
    ensures p.done + [Token(span, args[|p.done|])] == p.done + [Token(p.raw, p.cur)]
  {
  }

  /** At the end of a command that reads, quotes are closed and the last token is complete. */
  lemma FinishAt(command: string, done: seq<Token>, mode: Mode, open: Option<Token>)
    requires At(command, |command|, done, mode, open) && LexArgs(command).Ok?
    ensures LexArgs(command) == Ok(if open.Some? then done + [open.value] else done)
  {
    EndAt(command, done, mode, open);
    assert done + [] == done;
  }

  /** `LexArgs`: the two passes together. */
  method LexBothPasses(command: string) returns (r: Result<seq<Token>, LexError>)
    ensures r == LexArgs(command)
  {
    var cooked := LexCookedArgs(command);
    if cooked.Err? { return Err(cooked.error); }
    var tokens := LexRawSpans(command, cooked.value);
    return Ok(tokens);
  }
}
