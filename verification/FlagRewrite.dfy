/**
 Replacing, stripping and reading a flag on a list of tokens (host/driver/worktree.go).
 A flag token may carry its value after "=", or in the next token if that does not
 begin with "-".
 */
module FlagRewrite {
  import opened Wrappers
  import opened Sequences
  import opened CommandLexer

  predicate Dashed(arg: string) {
    arg != "" && arg[0] == '-'
  }

  predicate Assigns(flag: string, arg: string) {
    flag + "=" <= arg
  }

  predicate IsFlag(flags: seq<string>, arg: string) {
    exists i :: 0 <= i < |flags| && (arg == flags[i] || Assigns(flags[i], arg))
  }

  /** How many tokens a flag at the head takes up. */
  function Width(flags: seq<string>, ts: seq<Token>): (n: nat)
    requires ts != []
    ensures 1 <= n <= |ts|
  {
    if ts[0].value in flags && |ts| > 1 && !Dashed(ts[1].value) then 2 else 1
  }

  /** The tokens that belong to no flag. */
  function Strip(flags: seq<string>, ts: seq<Token>): seq<Token>
    decreases |ts|
  {
    if ts == [] then []
    else if IsFlag(flags, ts[0].value) then Strip(flags, ts[Width(flags, ts)..])
    else [ts[0]] + Strip(flags, ts[1..])
  }

  /** The flag occurrences: the flag token with the value token it takes up, if any. */
  function Occurrences(flags: seq<string>, ts: seq<Token>): seq<seq<Token>>
    decreases |ts|
  {
    if ts == [] then []
    else if IsFlag(flags, ts[0].value) then [ts[..Width(flags, ts)]] + Occurrences(flags, ts[Width(flags, ts)..])
    else Occurrences(flags, ts[1..])
  }

  /** The flag and value as `renderCommandArgs` writes them. */
  function Pair(flag: string, value: string): seq<Token> {
    [Token(Quote(flag), flag), Token(Quote(value), value)]
  }

  /** The first occurrence becomes `put`, later ones go; with none, `put` is added at the end. */
  function Rewrite(flags: seq<string>, put: seq<Token>, ts: seq<Token>, replaced: bool): seq<Token>
    decreases |ts|
  {
    if ts == [] then if replaced then [] else put
    else if IsFlag(flags, ts[0].value) then
      (if replaced then [] else put) + Rewrite(flags, put, ts[Width(flags, ts)..], true)
    else [ts[0]] + Rewrite(flags, put, ts[1..], replaced)
  }

  // ---------------------------------------------------------------- what it keeps

  /** The pair a rewrite puts in reads as one occurrence. */
  predicate PutOk(flags: seq<string>, put: seq<Token>) {
    |put| == 2 && put[0].value in flags && !Dashed(put[1].value)
  }

  lemma InFlags(flags: seq<string>, arg: string)
    requires arg in flags
    ensures IsFlag(flags, arg)
  {
  }

  lemma PutReads(flags: seq<string>, put: seq<Token>, rest: seq<Token>)
    requires PutOk(flags, put)
    ensures Strip(flags, put + rest) == Strip(flags, rest)
    ensures Occurrences(flags, put + rest) == [put] + Occurrences(flags, rest)
    ensures Rewrite(flags, put, put + rest, false) == put + Rewrite(flags, put, rest, true)
  {
    var all := put + rest;
    InFlags(flags, all[0].value);
    assert Width(flags, all) == 2 && all[2..] == rest && all[..2] == put;
  }

  /** All other tokens stay, in order: stripping what was replaced is stripping the original. */
  lemma {:induction false} StripRewrite(flags: seq<string>, put: seq<Token>, ts: seq<Token>, replaced: bool)
    requires PutOk(flags, put)
    ensures Strip(flags, Rewrite(flags, put, ts, replaced)) == Strip(flags, ts)
    decreases |ts|
  {
    if ts == [] {
      PutReads(flags, put, []);
      assert put + [] == put;
    } else if IsFlag(flags, ts[0].value) {
      var rest := Rewrite(flags, put, ts[Width(flags, ts)..], true);
      StripRewrite(flags, put, ts[Width(flags, ts)..], true);
      if replaced { assert [] + rest == rest; } else { PutReads(flags, put, rest); }
    } else {
      StripRewrite(flags, put, ts[1..], replaced);
      var rest := Rewrite(flags, put, ts[1..], replaced);
      assert ([ts[0]] + rest)[1..] == rest;
    }
  }

  /** Exactly one occurrence remains, and it is the pair put in. */
  lemma {:induction false} OneOccurrence(flags: seq<string>, put: seq<Token>, ts: seq<Token>, replaced: bool)
    requires PutOk(flags, put)
    ensures Occurrences(flags, Rewrite(flags, put, ts, replaced)) == if replaced then [] else [put]
    decreases |ts|
  {
    if ts == [] {
      PutReads(flags, put, []);
      assert put + [] == put;
    } else if IsFlag(flags, ts[0].value) {
      var rest := Rewrite(flags, put, ts[Width(flags, ts)..], true);
      OneOccurrence(flags, put, ts[Width(flags, ts)..], true);
      if replaced { assert [] + rest == rest; } else { PutReads(flags, put, rest); }
    } else {
      OneOccurrence(flags, put, ts[1..], replaced);
      var rest := Rewrite(flags, put, ts[1..], replaced);
      assert ([ts[0]] + rest)[1..] == rest;
    }
  }

  lemma {:induction false} NothingToRewrite(flags: seq<string>, put: seq<Token>, ts: seq<Token>)
    requires Occurrences(flags, ts) == []
    ensures Rewrite(flags, put, ts, true) == ts
  {
    if ts != [] { NothingToRewrite(flags, put, ts[1..]); }
  }

  /** Replacing twice is replacing once. */
  lemma {:induction false} RewriteIdempotent(flags: seq<string>, put: seq<Token>, ts: seq<Token>)
    requires PutOk(flags, put)
    ensures var once := Rewrite(flags, put, ts, false); Rewrite(flags, put, once, false) == once
    decreases |ts|
  {
    if ts == [] {
      PutReads(flags, put, []);
      assert put + [] == put;
    } else if IsFlag(flags, ts[0].value) {
      var rest := Rewrite(flags, put, ts[Width(flags, ts)..], true);
      OneOccurrence(flags, put, ts[Width(flags, ts)..], true);
      NothingToRewrite(flags, put, rest);
      PutReads(flags, put, rest);
    } else {
      RewriteIdempotent(flags, put, ts[1..]);
      var rest := Rewrite(flags, put, ts[1..], false);
      assert ([ts[0]] + rest)[1..] == rest;
    }
  }

  // ----------------------------------------------------- around the first occurrence

  /** The tokens ahead of the first occurrence. */
  function Ahead(flags: seq<string>, ts: seq<Token>): seq<Token> {
    if ts == [] || IsFlag(flags, ts[0].value) then [] else [ts[0]] + Ahead(flags, ts[1..])
  }

  /** The tokens behind the first occurrence. */
  function Behind(flags: seq<string>, ts: seq<Token>): seq<Token> {
    if ts == [] then []
    else if IsFlag(flags, ts[0].value) then ts[Width(flags, ts)..]
    else Behind(flags, ts[1..])
  }

  lemma {:induction false} RewriteTail(flags: seq<string>, put: seq<Token>, ts: seq<Token>)
    ensures Rewrite(flags, put, ts, true) == Strip(flags, ts)
    decreases |ts|
  {
    if ts != [] {
      var n := if IsFlag(flags, ts[0].value) then Width(flags, ts) else 1;
      RewriteTail(flags, put, ts[n..]);
      assert [] + Rewrite(flags, put, ts[n..], true) == Rewrite(flags, put, ts[n..], true);
    }
  }

  /** Replacing keeps what is ahead of the first occurrence and strips what is behind it. */
  lemma {:induction false} RewriteAround(flags: seq<string>, put: seq<Token>, ts: seq<Token>)
    ensures Rewrite(flags, put, ts, false) == Ahead(flags, ts) + put + Strip(flags, Behind(flags, ts))
    ensures Strip(flags, ts) == Ahead(flags, ts) + Strip(flags, Behind(flags, ts))
    decreases |ts|
  {
    if ts == [] {
      assert [] + put + [] == put;
    } else if IsFlag(flags, ts[0].value) {
      RewriteTail(flags, put, ts[Width(flags, ts)..]);
      assert [] + put == put && [] + Strip(flags, Behind(flags, ts)) == Strip(flags, Behind(flags, ts));
    } else {
      RewriteAround(flags, put, ts[1..]);
      var ahead, rest := Ahead(flags, ts[1..]), Strip(flags, Behind(flags, ts));
      assert [ts[0]] + (ahead + put + rest) == [ts[0]] + ahead + put + rest;
      assert [ts[0]] + (ahead + rest) == [ts[0]] + ahead + rest;
    }
  }

  lemma StripCons(flags: seq<string>, t: Token, rest: seq<Token>)
    requires !IsFlag(flags, t.value)
    ensures Strip(flags, [t] + rest) == [t] + Strip(flags, rest)
  {
    assert ([t] + rest)[1..] == rest;
  }

  /** What stands ahead of the first occurrence is no flag, so stripping passes it by. */
  lemma {:induction false} StripAhead(flags: seq<string>, ts: seq<Token>, rest: seq<Token>)
    ensures Strip(flags, Ahead(flags, ts) + rest) == Ahead(flags, ts) + Strip(flags, rest)
    decreases |ts|
  {
    if ts == [] || IsFlag(flags, ts[0].value) {
      assert [] + rest == rest && [] + Strip(flags, rest) == Strip(flags, rest);
    } else {
      StripAhead(flags, ts[1..], rest);
      var ahead := Ahead(flags, ts[1..]);
      Assoc([ts[0]], ahead, rest);
      StripCons(flags, ts[0], ahead + rest);
      Assoc([ts[0]], ahead, Strip(flags, rest));
    }
  }

  lemma {:induction false} StripTwice(flags: seq<string>, ts: seq<Token>)
    ensures forall i :: 0 <= i < |Strip(flags, ts)| ==> !IsFlag(flags, Strip(flags, ts)[i].value)
    ensures Strip(flags, Strip(flags, ts)) == Strip(flags, ts)
    decreases |ts|
  {
    if ts != [] {
      var n := if IsFlag(flags, ts[0].value) then Width(flags, ts) else 1;
      StripTwice(flags, ts[n..]);
      if n == 1 && !IsFlag(flags, ts[0].value) {
        assert ([ts[0]] + Strip(flags, ts[1..]))[1..] == Strip(flags, ts[1..]);
      }
    }
  }

  // --------------------------------------------------- values that look like flags

  /** A value that is itself a flag in full would take up the first token kept behind it. */
  predicate Swallows(flags: seq<string>, value: string, rest: seq<Token>) {
    value in flags && rest != [] && !Dashed(rest[0].value)
  }

  lemma StripPut(flags: seq<string>, put: seq<Token>, rest: seq<Token>)
    requires |put| == 2 && put[0].value in flags && Dashed(put[1].value)
    requires Strip(flags, rest) == rest
    ensures Strip(flags, put + rest) ==
            if !IsFlag(flags, put[1].value) then [put[1]] + rest
            else if Swallows(flags, put[1].value, rest) then Strip(flags, rest[1..])
            else rest
  {
    var all, tail := put + rest, [put[1]] + rest;
    InFlags(flags, put[0].value);
    assert Width(flags, all) == 1 && all[1..] == tail && tail[1..] == rest;
    if Swallows(flags, put[1].value, rest) {
      assert Width(flags, tail) == 2 && tail[2..] == rest[1..];
    } else if IsFlag(flags, put[1].value) {
      assert Width(flags, tail) == 1;
    }
  }

  lemma {:induction false} StripShrinks(flags: seq<string>, ts: seq<Token>)
    ensures |Strip(flags, ts)| <= |ts|
    decreases |ts|
  {
    if ts != [] {
      StripShrinks(flags, ts[if IsFlag(flags, ts[0].value) then Width(flags, ts) else 1..]);
    }
  }

  lemma StripPutIff(flags: seq<string>, put: seq<Token>, rest: seq<Token>)
    requires |put| == 2 && put[0].value in flags && Dashed(put[1].value)
    requires Strip(flags, rest) == rest
    ensures Strip(flags, put + rest) == rest <==>
            IsFlag(flags, put[1].value) && !Swallows(flags, put[1].value, rest)
  {
    StripPut(flags, put, rest);
    assert |[put[1]] + rest| == |rest| + 1;
    if rest != [] { StripShrinks(flags, rest[1..]); }
  }

  /**
   The other tokens are kept exactly when the value does not begin with "-", or is
   itself spelled like one of the flags and takes up no token behind it.
   */
  lemma OthersKeptIff(flags: seq<string>, flag: string, value: string, ts: seq<Token>)
    requires flag in flags
    ensures Strip(flags, Rewrite(flags, Pair(flag, value), ts, false)) == Strip(flags, ts) <==>
            || !Dashed(value)
            || (IsFlag(flags, value) && !Swallows(flags, value, Strip(flags, Behind(flags, ts))))
  {
    var put := Pair(flag, value);
    if !Dashed(value) {
      StripRewrite(flags, put, ts, false);
    } else {
      var ahead, rest := Ahead(flags, ts), Strip(flags, Behind(flags, ts));
      RewriteAround(flags, put, ts);
      Assoc(ahead, put, rest);
      StripAhead(flags, ts, put + rest);
      Cancel(ahead, Strip(flags, put + rest), rest);
      StripTwice(flags, Behind(flags, ts));
      StripPutIff(flags, put, rest);
    }
  }

  // ------------------------------------------------------------- reading it back

  datatype Request = Request(enabled: bool, name: string)

  /** The first flag that matches, in the order given. */
  function FirstMatch(flags: seq<string>, arg: string): Option<string> {
    if flags == [] then None
    else if arg == flags[0] || Assigns(flags[0], arg) then Some(flags[0])
    else FirstMatch(flags[1..], arg)
  }

  /** `parseWorktreeFlags` on tokens: a later occurrence overrides the name, one without a value does not. */
  function Parse(flags: seq<string>, ts: seq<Token>, req: Request): (Request, seq<Token>)
    decreases |ts|
  {
    if ts == [] then (req, [])
    else
      var arg := ts[0].value;
      match FirstMatch(flags, arg)
      case None =>
        var (r, out) := Parse(flags, ts[1..], req);
        (r, [ts[0]] + out)
      case Some(flag) =>
        if arg != flag then Parse(flags, ts[1..], Request(true, arg[if |flag| < |arg| then |flag| + 1 else |arg|..]))
        else if |ts| > 1 && !Dashed(ts[1].value) then Parse(flags, ts[2..], Request(true, ts[1].value))
        else Parse(flags, ts[1..], Request(true, req.name))
  }

  /** No flag spells another flag with a value. */
  predicate Proper(flags: seq<string>) {
    forall i, j :: 0 <= i < |flags| && 0 <= j < |flags| ==> !Assigns(flags[i], flags[j])
  }

  lemma {:induction false} FirstMatchIff(flags: seq<string>, arg: string)
    ensures FirstMatch(flags, arg).Some? <==> IsFlag(flags, arg)
    ensures FirstMatch(flags, arg).Some? ==>
              var flag := FirstMatch(flags, arg).value; flag in flags && (arg == flag || Assigns(flag, arg))
  {
    if flags != [] {
      FirstMatchIff(flags[1..], arg);
      if IsFlag(flags, arg) {
        var i :| 0 <= i < |flags| && (arg == flags[i] || Assigns(flags[i], arg));
        assert i > 0 ==> flags[1..][i - 1] == flags[i];
      }
      if IsFlag(flags[1..], arg) {
        var i :| 0 <= i < |flags[1..]| && (arg == flags[1..][i] || Assigns(flags[1..][i], arg));
        assert flags[i + 1] == flags[1..][i];
      }
    }
  }

  lemma ExactIff(flags: seq<string>, arg: string)
    requires Proper(flags) && FirstMatch(flags, arg).Some?
    ensures arg == FirstMatch(flags, arg).value <==> arg in flags
  {
    FirstMatchIff(flags, arg);
  }

  /** What parsing leaves is what stripping leaves, and it is enabled exactly when a flag occurs. */
  lemma {:induction false} ParseStrips(flags: seq<string>, ts: seq<Token>, req: Request)
    requires Proper(flags)
    ensures Parse(flags, ts, req).1 == Strip(flags, ts)
    ensures Parse(flags, ts, req).0.enabled <==> req.enabled || Occurrences(flags, ts) != []
    ensures Occurrences(flags, ts) == [] ==> Parse(flags, ts, req).0 == req
    decreases |ts|
  {
    if ts != [] {
      var arg := ts[0].value;
      FirstMatchIff(flags, arg);
      if FirstMatch(flags, arg).None? {
        ParseStrips(flags, ts[1..], req);
      } else {
        ExactIff(flags, arg);
        var flag := FirstMatch(flags, arg).value;
        var next := if arg != flag then Request(true, arg[if |flag| < |arg| then |flag| + 1 else |arg|..])
                    else if |ts| > 1 && !Dashed(ts[1].value) then Request(true, ts[1].value) else Request(true, req.name);
        ParseStrips(flags, ts[Width(flags, ts)..], next);
      }
    }
  }

  /** What replacing puts in, parsing reads back, and the rest is what stripping leaves. */
  lemma {:induction false} ParseRewrite(flags: seq<string>, put: seq<Token>, ts: seq<Token>, req: Request)
    requires Proper(flags) && PutOk(flags, put)
    ensures Parse(flags, Rewrite(flags, put, ts, false), req) == (Request(true, put[1].value), Strip(flags, ts))
    decreases |ts|
  {
    if ts == [] || IsFlag(flags, ts[0].value) {
      var rest := if ts == [] then [] else Rewrite(flags, put, ts[Width(flags, ts)..], true);
      var all := Rewrite(flags, put, ts, false);
      assert put + [] == put && all == put + rest;
      InFlags(flags, put[0].value);
      FirstMatchIff(flags, put[0].value);
      ExactIff(flags, put[0].value);
      assert all[2..] == rest;
      ParseStrips(flags, rest, Request(true, put[1].value));
      if ts != [] {
        OneOccurrence(flags, put, ts[Width(flags, ts)..], true);
        StripRewrite(flags, put, ts[Width(flags, ts)..], true);
      }
    } else {
      FirstMatchIff(flags, ts[0].value);
      ParseRewrite(flags, put, ts[1..], req);
      var rest := Rewrite(flags, put, ts[1..], false);
      assert ([ts[0]] + rest)[1..] == rest;
    }
  }
}
