/**
 Flag rewriting on command text: cut into tokens, rewritten, joined with the kept
 texts, and trimmed (host/driver/worktree.go).
 */
module CommandText {
  import opened Wrappers
  import opened Text
  import opened CommandLexer
  import opened FlagRewrite
  import LexerPasses

  function SplitCommand(command: string): Result<seq<Token>, LexError> {
    LexArgs(TrimSpace(command))
  }

  function JoinText(parts: seq<string>): string {
    TrimSpace(Join(parts))
  }

  /** `appendFlagValue`. */
  function AppendFlagValue(command: string, flag: string, value: string): string {
    var c, v := TrimSpace(command), TrimSpace(value);
    if c == "" || v == "" then c
    else
      match SplitCommand(c)
      case Ok(ts) => JoinText(Raws(ts + Pair(flag, v)))
      case Err(_) => TrimSpace(c + " " + flag + " " + v)
  }

  /** `replaceFlagValue`. */
  function ReplaceFlagValue(command: string, flags: seq<string>, value: string): string
    requires flags != []
  {
    var v := TrimSpace(value);
    if v == "" then TrimSpace(command)
    else
      match SplitCommand(command)
      case Ok(ts) =>
        if ts == [] then AppendFlagValue(command, flags[0], v)
        else JoinText(Raws(Rewrite(flags, Pair(flags[0], v), ts, false)))
      case Err(_) => AppendFlagValue(command, flags[0], v)
  }

  /** `stripFlagValues`. */
  function StripFlagValues(command: string, flags: seq<string>): string {
    match SplitCommand(command)
    case Ok(ts) => if ts == [] then TrimSpace(command) else JoinText(Raws(Strip(flags, ts)))
    case Err(_) => TrimSpace(command)
  }

  /** `parseWorktreeFlags`. */
  function ParseWorktreeFlags(command: string, flags: seq<string>): (Request, string) {
    match SplitCommand(command)
    case Ok(ts) => var (req, out) := Parse(flags, ts, Request(false, "")); (req, JoinText(Raws(out)))
    case Err(_) => (Request(false, ""), TrimSpace(command))
  }

  // -------------------------------------------------------------------- trimming

  lemma TrimLength(s: string)
    ensures |TrimSpace(s)| <= |s| && (|TrimSpace(s)| == |s| ==> TrimSpace(s) == s)
  {
    TrimLeftFacts(s);
    TrimRightFacts(TrimLeft(s));
  }

  lemma TrimIdempotent(s: string)
    ensures TrimSpace(TrimSpace(s)) == TrimSpace(s)
  {
    TrimSpaceFacts(s);
    TrimSpaceFacts(TrimSpace(s));
  }

  /** No space at either end of the parts, so that trimming their join changes nothing. */
  predicate TrimSafe(parts: seq<string>) {
    parts == [] ||
    (parts[0] != "" && !IsSpace(parts[0][0]) &&
     parts[|parts| - 1] != "" && !IsSpace(parts[|parts| - 1][|parts[|parts| - 1]| - 1]))
  }

  lemma {:induction false} JoinEnds(parts: seq<string>)
    requires parts != [] && forall i :: 0 <= i < |parts| ==> parts[i] != ""
    ensures Join(parts) != "" && Join(parts)[0] == parts[0][0]
    ensures var last := parts[|parts| - 1]; Join(parts)[|Join(parts)| - 1] == last[|last| - 1]
  {
    if |parts| > 1 {
      JoinEnds(parts[1..]);
      assert parts[1..][|parts| - 2] == parts[|parts| - 1];
    }
  }

  lemma TrimSafeIff(parts: seq<string>)
    requires forall i :: 0 <= i < |parts| ==> parts[i] != ""
    ensures TrimSafe(parts) <==> JoinText(parts) == Join(parts)
  {
    TrimSpaceFacts(Join(parts));
    if parts != [] { JoinEnds(parts); }
  }

  /** Whole tokens joined and trimmed read back as themselves exactly when trimming changes nothing. */
  lemma ReadBackIff(ts: seq<Token>)
    requires forall i :: 0 <= i < |ts| ==> Whole(ts[i])
    ensures SplitCommand(JoinText(Raws(ts))) == Ok(ts) <==> TrimSafe(Raws(ts))
  {
    var text := Join(Raws(ts));
    TrimIdempotent(text);
    TrimSafeIff(Raws(ts));
    TrimLength(text);
    LexJoin(ts);
    if LexArgs(TrimSpace(text)) == Ok(ts) {
      LexShrinks(TrimSpace(text), Bare, None);
    }
  }

  // -------------------------------------------------------------------- on text

  lemma {:induction false} RewriteWhole(flags: seq<string>, put: seq<Token>, ts: seq<Token>, replaced: bool)
    requires forall i :: 0 <= i < |ts| ==> Whole(ts[i])
    requires forall i :: 0 <= i < |put| ==> Whole(put[i])
    ensures forall i :: 0 <= i < |Rewrite(flags, put, ts, replaced)| ==> Whole(Rewrite(flags, put, ts, replaced)[i])
    decreases |ts|
  {
    if ts != [] {
      RewriteWhole(flags, put, ts[if IsFlag(flags, ts[0].value) then Width(flags, ts) else 1..],
                   replaced || IsFlag(flags, ts[0].value));
    }
  }

  lemma {:induction false} StripWhole(flags: seq<string>, ts: seq<Token>)
    requires forall i :: 0 <= i < |ts| ==> Whole(ts[i])
    ensures forall i :: 0 <= i < |Strip(flags, ts)| ==> Whole(Strip(flags, ts)[i])
    decreases |ts|
  {
    if ts != [] { StripWhole(flags, ts[if IsFlag(flags, ts[0].value) then Width(flags, ts) else 1..]); }
  }

  /** The tokens of the command with the flag replaced. */
  function Replaced(command: string, flags: seq<string>, value: string): seq<Token>
    requires flags != [] && SplitCommand(command).Ok?
  {
    Rewrite(flags, Pair(flags[0], TrimSpace(value)), SplitCommand(command).value, false)
  }

  lemma ReplacedWhole(command: string, flags: seq<string>, value: string)
    requires flags != [] && SplitCommand(command).Ok?
    ensures forall i :: 0 <= i < |Replaced(command, flags, value)| ==> Whole(Replaced(command, flags, value)[i])
  {
    var v := TrimSpace(value);
    LexYieldsWhole(TrimSpace(command), Bare, None);
    QuoteIsWhole(flags[0]);
    QuoteIsWhole(v);
    var put := Pair(flags[0], v);
    assert Whole(put[0]) && Whole(put[1]);
    RewriteWhole(flags, put, SplitCommand(command).value, false);
  }

  predicate Replaceable(command: string, value: string) {
    TrimSpace(value) != "" && SplitCommand(command).Ok? && SplitCommand(command).value != []
  }

  predicate EndsInSpace(text: string) {
    text != "" && IsSpace(text[|text| - 1])
  }

  /** The last token kept behind the first occurrence, if any, does not end in a space. */
  predicate KeepsEnd(flags: seq<string>, ts: seq<Token>) {
    var kept := Strip(flags, Behind(flags, ts));
    kept != [] ==> !EndsInSpace(kept[|kept| - 1].raw)
  }

  /** A trimmed command begins in a token. */
  lemma SplitEnds(command: string)
    requires SplitCommand(command).Ok? && SplitCommand(command).value != []
    ensures var raw := SplitCommand(command).value[0].raw; raw != "" && !IsSpace(raw[0])
  {
    var text := TrimSpace(command);
    TrimSpaceFacts(command);
    assert text != "";
    LexEnds(text, Bare, None);
  }

  lemma QuoteEnds(arg: string)
    ensures Quote(arg) != "" && !IsSpace(Quote(arg)[0]) && !IsSpace(Quote(arg)[|Quote(arg)| - 1])
  {
  }

  lemma ReplacedEnds(command: string, flags: seq<string>, value: string)
    requires flags != [] && Replaceable(command, value)
    ensures TrimSafe(Raws(Replaced(command, flags, value))) <==> KeepsEnd(flags, SplitCommand(command).value)
  {
    var ts, put := SplitCommand(command).value, Pair(flags[0], TrimSpace(value));
    var out, ahead, kept := Replaced(command, flags, value), Ahead(flags, ts), Strip(flags, Behind(flags, ts));
    RewriteAround(flags, put, ts);
    SplitEnds(command);
    QuoteEnds(flags[0]);
    QuoteEnds(TrimSpace(value));
    LexYieldsWhole(TrimSpace(command), Bare, None);
    BehindWhole(flags, ts);
    StripWhole(flags, Behind(flags, ts));
    assert kept != [] ==> Whole(kept[|kept| - 1]);
    AheadFirst(flags, ts);
    AroundEnds(ahead, put, kept);
  }

  lemma AheadFirst(flags: seq<string>, ts: seq<Token>)
    ensures Ahead(flags, ts) != [] ==> ts != [] && Ahead(flags, ts)[0] == ts[0]
  {
  }

  predicate CleanEnds(raw: string) {
    raw != "" && !IsSpace(raw[0]) && !EndsInSpace(raw)
  }

  lemma AroundEnds(ahead: seq<Token>, put: seq<Token>, kept: seq<Token>)
    requires |put| == 2 && CleanEnds(put[0].raw) && CleanEnds(put[1].raw)
    requires ahead != [] ==> ahead[0].raw != "" && !IsSpace(ahead[0].raw[0])
    requires kept != [] ==> kept[|kept| - 1].raw != ""
    ensures TrimSafe(Raws(ahead + put + kept)) <==> kept == [] || !EndsInSpace(kept[|kept| - 1].raw)
  {
    var out := ahead + put + kept;
    assert out[0] == if ahead == [] then put[0] else ahead[0];
    assert out[|out| - 1] == if kept == [] then put[1] else kept[|kept| - 1];
  }

  lemma {:induction false} BehindWhole(flags: seq<string>, ts: seq<Token>)
    requires forall i :: 0 <= i < |ts| ==> Whole(ts[i])
    ensures forall i :: 0 <= i < |Behind(flags, ts)| ==> Whole(Behind(flags, ts)[i])
  {
    if ts != [] && !IsFlag(flags, ts[0].value) { BehindWhole(flags, ts[1..]); }
  }

  /**
   The rewritten text reads as the rewritten tokens exactly when the last token kept
   behind the first occurrence does not end in a space, which trimming would take.
   */
  lemma ReplaceReadsBackIff(command: string, flags: seq<string>, value: string)
    requires flags != [] && Replaceable(command, value)
    ensures SplitCommand(ReplaceFlagValue(command, flags, value)) == Ok(Replaced(command, flags, value)) <==>
              KeepsEnd(flags, SplitCommand(command).value)
  {
    ReplacedWhole(command, flags, value);
    ReadBackIff(Replaced(command, flags, value));
    ReplacedEnds(command, flags, value);
  }

  const ESCAPED := "-n x f\\  -n"
  const ESCAPED_TOKENS := [Token("-n", "-n"), Token("x", "x"), Token("f\\ ", "f "), Token("-n", "-n")]

  lemma EscapedWhole()
    ensures Whole(Token("f\\ ", "f "))
  {
    BackslashNext(' ', "", Bare);
    assert "\\" + [' '] + "" == "\\ " && [' '] + "" == " ";
    assert Consume("\\ ", Bare) == Some((Bare, " "));
    ConsumeNext("f\\ ", Bare, "\\ ");
    assert ['f'] + " " == "f ";
  }

  lemma JoinFour(a: string, b: string, c: string, d: string)
    ensures Join([a, b, c, d]) == a + " " + (b + " " + (c + " " + d))
  {
    assert [a, b, c, d][1..] == [b, c, d] && [b, c, d][1..] == [c, d] && [c, d][1..] == [d];
    assert Join([d]) == d && Join([c, d]) == c + " " + d;
    assert Join([b, c, d]) == b + " " + (c + " " + d);
  }

  lemma EscapedText()
    ensures Join(Raws(ESCAPED_TOKENS)) == ESCAPED && TrimSpace(ESCAPED) == ESCAPED
  {
    assert Raws(ESCAPED_TOKENS) == ["-n", "x", "f\\ ", "-n"];
    JoinFour("-n", "x", "f\\ ", "-n");
    assert ESCAPED == "-n" + " " + ("x" + " " + ("f\\ " + " " + "-n"));
    TrimSpaceFacts(ESCAPED);
  }

  lemma EscapedTokensWhole()
    ensures forall i :: 0 <= i < |ESCAPED_TOKENS| ==> Whole(ESCAPED_TOKENS[i])
  {
    SafeConsumes("-n");
    SafeConsumes("x");
    EscapedWhole();
  }

  lemma EscapedSplits()
    ensures SplitCommand(ESCAPED) == Ok(ESCAPED_TOKENS)
  {
    EscapedTokensWhole();
    EscapedText();
    LexJoin(ESCAPED_TOKENS);
  }

  lemma EscapedBehind()
    ensures Strip(["-n"], Behind(["-n"], ESCAPED_TOKENS)) == [Token("f\\ ", "f ")]
  {
    var flags, n, f, ts := ["-n"], Token("-n", "-n"), Token("f\\ ", "f "), ESCAPED_TOKENS;
    InFlags(flags, "-n");
    assert !IsFlag(flags, "f ");
    assert Width(flags, ts) == 2 && ts[2..] == [f, n] && [f, n] == [f] + [n];
    assert [n][1..] == [] && Strip(flags, [n]) == [];
    StripCons(flags, f, [n]);
    assert [f] + [] == [f];
  }

  /** A later flag at the end gives way to an escaped space, and trimming leaves a bare backslash. */
  lemma TrimmedEscape()
    ensures Replaceable(ESCAPED, "v") && !KeepsEnd(["-n"], SplitCommand(ESCAPED).value)
    ensures SplitCommand(ReplaceFlagValue(ESCAPED, ["-n"], "v")) != Ok(Replaced(ESCAPED, ["-n"], "v"))
  {
    EscapedSplits();
    EscapedBehind();
    TrimSpaceFacts("v");
    ReplaceReadsBackIff(ESCAPED, ["-n"], "v");
  }

  /**
   Flag replacement on text: exactly one matching flag, the first spelling followed by
   the value; the same other tokens in the same order; a second replacement and a
   strip afterwards do what they would have done to the original.
   */
  lemma ReplaceFlag(command: string, flags: seq<string>, value: string)
    requires flags != [] && Replaceable(command, value) && !Dashed(TrimSpace(value))
    requires KeepsEnd(flags, SplitCommand(command).value)
    ensures var text, v := ReplaceFlagValue(command, flags, value), TrimSpace(value);
            && SplitCommand(text).Ok?
            && Occurrences(flags, SplitCommand(text).value) == [Pair(flags[0], v)]
            && Strip(flags, SplitCommand(text).value) == Strip(flags, SplitCommand(command).value)
            && ReplaceFlagValue(text, flags, value) == text
            && StripFlagValues(text, flags) == StripFlagValues(command, flags)
            && (Proper(flags) ==>
                  ParseWorktreeFlags(text, flags) ==
                    (Request(true, v), JoinText(Raws(Strip(flags, SplitCommand(command).value)))))
  {
    var v := TrimSpace(value);
    var ts, put := SplitCommand(command).value, Pair(flags[0], v);
    ReplaceReadsBackIff(command, flags, value);
    StripRewrite(flags, put, ts, false);
    OneOccurrence(flags, put, ts, false);
    RewriteIdempotent(flags, put, ts);
    assert Rewrite(flags, put, ts, false) != [];
    if Proper(flags) { ParseRewrite(flags, put, ts, Request(false, "")); }
  }

  /** An empty command gets no flag. */
  lemma ReplaceOnEmpty(command: string, flags: seq<string>, value: string)
    requires flags != [] && TrimSpace(command) == ""
    ensures ReplaceFlagValue(command, flags, value) == "" && SplitCommand("") == Ok([])
  {
  }

  // ---------------------------------------------------------------- as it runs

  lemma {:induction false} JoinSnoc(xs: seq<string>, y: string)
    requires xs != []
    ensures Join(xs + [y]) == Join(xs) + " " + y
  {
    if |xs| == 1 {
      assert (xs + [y])[1..] == [y];
    } else {
      assert (xs + [y])[1..] == xs[1..] + [y];
      JoinSnoc(xs[1..], y);
      assert xs[0] + " " + (Join(xs[1..]) + " " + y) == xs[0] + " " + Join(xs[1..]) + " " + y;
    }
  }

  /** The texts written so far stand for the tokens kept so far. */
  predicate Stands(out: seq<string>, kept: seq<Token>) {
    (out == [] <==> kept == []) && Join(out) == Join(Raws(kept))
  }

  lemma StandsOne(out: seq<string>, kept: seq<Token>, t: Token)
    requires Stands(out, kept)
    ensures Stands(out + [t.raw], kept + [t])
  {
    assert Raws(kept + [t]) == Raws(kept) + [t.raw];
    if out != [] {
      JoinSnoc(out, t.raw);
      JoinSnoc(Raws(kept), t.raw);
    }
  }

  /** A pair is written as one part. */
  lemma StandsPair(out: seq<string>, kept: seq<Token>, a: Token, b: Token)
    requires Stands(out, kept)
    ensures Stands(out + [a.raw + " " + b.raw], kept + [a, b])
  {
    var text := a.raw + " " + b.raw;
    assert Raws(kept + [a, b]) == Raws(kept) + [a.raw] + [b.raw];
    JoinSnoc(Raws(kept) + [a.raw], b.raw);
    if out != [] {
      JoinSnoc(out, text);
      JoinSnoc(Raws(kept), a.raw);
      assert Join(out) + " " + a.raw + " " + b.raw == Join(out) + " " + (a.raw + " " + b.raw);
    } else {
      assert [] + [text] == [text] && [] + [a.raw] == [a.raw];
    }
  }

  /** The scan for a matching spelling. */
  method MatchesFlag(flags: seq<string>, arg: string) returns (matched: bool, exact: bool)
    ensures matched == IsFlag(flags, arg) && exact == (arg in flags)
  {
    matched, exact := false, false;
    for k := 0 to |flags|
      invariant matched == IsFlag(flags[..k], arg) && exact == (arg in flags[..k])
    {
      IsFlagSnoc(flags[..k], flags[k], arg);
      assert flags[..k + 1] == flags[..k] + [flags[k]];
      if arg == flags[k] || Assigns(flags[k], arg) { matched := true; }
      if arg == flags[k] { exact := true; }
    }
    assert flags[..|flags|] == flags;
  }

  lemma IsFlagSnoc(flags: seq<string>, flag: string, arg: string)
    ensures IsFlag(flags + [flag], arg) <==> IsFlag(flags, arg) || arg == flag || Assigns(flag, arg)
  {
    var all := flags + [flag];
    assert all[|flags|] == flag;
    if IsFlag(flags, arg) {
      var i :| 0 <= i < |flags| && (arg == flags[i] || Assigns(flags[i], arg));
      assert all[i] == flags[i];
    }
  }

  /** What is kept so far, and what rewriting the rest will add. */
  ghost predicate RewrittenTo(flags: seq<string>, put: seq<Token>, ts: seq<Token>, i: nat, kept: seq<Token>, replaced: bool)
  {
    i <= |ts| && kept + Rewrite(flags, put, ts[i..], replaced) == Rewrite(flags, put, ts, false)
  }

  lemma RewriteFlag(flags: seq<string>, put: seq<Token>, ts: seq<Token>, i: nat, kept: seq<Token>, replaced: bool)
    requires RewrittenTo(flags, put, ts, i, kept, replaced) && i < |ts| && IsFlag(flags, ts[i].value)
    ensures RewrittenTo(flags, put, ts, i + Width(flags, ts[i..]), kept + (if replaced then [] else put), true)
  {
    var rest := ts[i..];
    var tail := Rewrite(flags, put, rest[Width(flags, rest)..], true);
    assert rest[Width(flags, rest)..] == ts[i + Width(flags, rest)..];
    var now := if replaced then [] else put;
    assert kept + (now + tail) == kept + now + tail;
  }

  lemma RewriteKeep(flags: seq<string>, put: seq<Token>, ts: seq<Token>, i: nat, kept: seq<Token>, replaced: bool)
    requires RewrittenTo(flags, put, ts, i, kept, replaced) && i < |ts| && !IsFlag(flags, ts[i].value)
    ensures RewrittenTo(flags, put, ts, i + 1, kept + [ts[i]], replaced)
  {
    var tail := Rewrite(flags, put, ts[i + 1..], replaced);
    assert ts[i..][1..] == ts[i + 1..];
    assert kept + ([ts[i]] + tail) == kept + [ts[i]] + tail;
  }

  lemma RewriteEnd(flags: seq<string>, put: seq<Token>, ts: seq<Token>, kept: seq<Token>, replaced: bool)
    requires RewrittenTo(flags, put, ts, |ts|, kept, replaced)
    ensures Rewrite(flags, put, ts, false) == kept + (if replaced then [] else put)
  {
    assert ts[|ts|..] == [];
  }

  /** The text of a flag put in, or nothing if one has been. */
  method PutOnce(out: seq<string>, ghost kept: seq<Token>, put: seq<Token>, replaced: bool) returns (next: seq<string>)
    requires |put| == 2 && Stands(out, kept)
    ensures Stands(next, kept + if replaced then [] else put)
  {
    if replaced {
      assert kept + [] == kept;
      return out;
    }
    StandsPair(out, kept, put[0], put[1]);
    assert put == [put[0], put[1]];
    return out + [put[0].raw + " " + put[1].raw];
  }

  /** How far a flag token reaches. */
  method FlagEnd(tokens: seq<Token>, ghost flags: seq<string>, i: nat, exact: bool) returns (next: nat)
    requires i < |tokens| && exact == (tokens[i].value in flags)
    ensures next == i + Width(flags, tokens[i..])
  {
    next := i;
    if exact && next + 1 < |tokens| && !Dashed(tokens[next + 1].value) { next := next + 1; }
    next := next + 1;
  }

  /** The loop of `replaceFlagValue`, with the flag and value already quoted. */
  method ReplaceLoop(tokens: seq<Token>, flags: seq<string>, put: seq<Token>) returns (out: seq<string>)
    requires |put| == 2
    ensures Join(out) == Join(Raws(Rewrite(flags, put, tokens, false)))
  {
    out := [];
    var replaced, i := false, 0;
    ghost var kept: seq<Token> := [];
    assert tokens[0..] == tokens && [] + Rewrite(flags, put, tokens, false) == Rewrite(flags, put, tokens, false);
    while i < |tokens|
      invariant i <= |tokens| && Stands(out, kept) && RewrittenTo(flags, put, tokens, i, kept, replaced)
    {
      var matched, exact := MatchesFlag(flags, tokens[i].value);
      if matched {
        RewriteFlag(flags, put, tokens, i, kept, replaced);
        out := PutOnce(out, kept, put, replaced);
        kept, replaced := kept + (if replaced then [] else put), true;
        i := FlagEnd(tokens, flags, i, exact);
      } else {
        RewriteKeep(flags, put, tokens, i, kept, replaced);
        StandsOne(out, kept, tokens[i]);
        out, kept := out + [tokens[i].raw], kept + [tokens[i]];
        i := i + 1;
      }
    }
    RewriteEnd(flags, put, tokens, kept, replaced);
    out := PutOnce(out, kept, put, replaced);
  }

  /** The loop of `stripFlagValues`. */
  method StripLoop(tokens: seq<Token>, flags: seq<string>) returns (out: seq<string>)
    ensures out == Raws(Strip(flags, tokens))
  {
    out := [];
    var i := 0;
    assert tokens[0..] == tokens;
    while i < |tokens|
      invariant i <= |tokens| && out + Raws(Strip(flags, tokens[i..])) == Raws(Strip(flags, tokens))
    {
      ghost var rest := tokens[i..];
      var matched, exact := MatchesFlag(flags, tokens[i].value);
      assert rest[1..] == tokens[i + 1..];
      if matched {
        assert rest[Width(flags, rest)..] == tokens[i + Width(flags, rest)..];
        if exact && i + 1 < |tokens| && !Dashed(tokens[i + 1].value) { i := i + 1; }
      } else {
        assert Raws([tokens[i]] + Strip(flags, rest[1..])) == [tokens[i].raw] + Raws(Strip(flags, rest[1..]));
        out := out + [tokens[i].raw];
      }
      i := i + 1;
    }
    assert tokens[i..] == [] && out + [] == out;
  }

  /** `replaceFlagValue`, whole. */
  method ReplaceFlagValueOn(command: string, flags: seq<string>, value: string) returns (text: string)
    requires flags != []
    ensures text == ReplaceFlagValue(command, flags, value)
  {
    var v := TrimSpace(value);
    if v == "" { return TrimSpace(command); }
    var split := LexerPasses.LexBothPasses(TrimSpace(command));
    if split.Err? || split.value == [] { return AppendFlagValue(command, flags[0], v); }
    var out := ReplaceLoop(split.value, flags, Pair(flags[0], v));
    return TrimSpace(Join(out));
  }

  /** `stripFlagValues`, whole. */
  method StripFlagValuesOn(command: string, flags: seq<string>) returns (text: string)
    ensures text == StripFlagValues(command, flags)
  {
    var split := LexerPasses.LexBothPasses(TrimSpace(command));
    if split.Err? || split.value == [] { return TrimSpace(command); }
    var out := StripLoop(split.value, flags);
    return TrimSpace(Join(out));
  }
}
