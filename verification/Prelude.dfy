/** Failure-compatible results shared by every model in the project. */
module Wrappers {

  datatype Option<+T> = None | Some(value: T)

  datatype Result<+T, +E> = Ok(value: T) | Err(error: E)
}

/** Facts about concatenation that proofs call for by name. */
module Sequences {

  lemma Assoc<T>(a: seq<T>, b: seq<T>, c: seq<T>)
    ensures a + (b + c) == a + b + c
  {
  }

  lemma Cancel<T>(a: seq<T>, b: seq<T>, c: seq<T>)
    ensures a + b == a + c <==> b == c
  {
    if a + b == a + c {
      assert b == (a + b)[|a|..] && c == (a + c)[|a|..];
    }
  }
}

/** Steps of a transition relation, one after the other. */
module Chains {

  /** `steps` lead from `s` to `t`. */
  ghost predicate Chain<S(!new), T>(next: (S, T, S) -> bool, s: S, steps: seq<T>, t: S) {
    if steps == [] then s == t
    else
      var init, last := steps[..|steps| - 1], steps[|steps| - 1];
      exists u :: Chain(next, s, init, u) && next(u, last, t)
  }

  lemma ChainMore<S(!new), T>(next: (S, T, S) -> bool, s: S, steps: seq<T>, t: S, step: T, u: S)
    requires Chain(next, s, steps, t) && next(t, step, u)
    ensures Chain(next, s, steps + [step], u)
  {
    assert (steps + [step])[..|steps + [step]| - 1] == steps;
  }

  lemma ChainOne<S(!new), T>(next: (S, T, S) -> bool, s: S, step: T, t: S)
    requires next(s, step, t)
    ensures Chain(next, s, [step], t)
  {
    assert Chain(next, s, [], s);
    ChainMore(next, s, [], s, step, t);
    assert [] + [step] == [step];
  }

  lemma {:induction false} ChainConcat<S(!new), T>(
    next: (S, T, S) -> bool, s: S, a: seq<T>, t: S, b: seq<T>, u: S)
    requires Chain(next, s, a, t) && Chain(next, t, b, u)
    ensures Chain(next, s, a + b, u)
    decreases |b|
  {
    if b == [] {
      assert a + b == a;
    } else {
      var init, last := b[..|b| - 1], b[|b| - 1];
      var v :| Chain(next, t, init, v) && next(v, last, u);
      ChainConcat(next, s, a, t, init, v);
      ChainMore(next, s, a + init, v, last, u);
      assert a + b == a + init + [last];
    }
  }

  /** Steps taken from where a run is extend the run. */
  lemma {:induction false} ChainRuns<S(!new), T(!new)>(
    next: (S, T, S) -> bool, possible: seq<T> -> bool, run: seq<T> -> S, ran: seq<T>, steps: seq<T>, t: S)
    requires possible(ran) && Chain(next, run(ran), steps, t)
    requires forall before, step, u :: possible(before) && next(run(before), step, u) ==>
               possible(before + [step]) && run(before + [step]) == u
    ensures possible(ran + steps) && run(ran + steps) == t
    decreases |steps|
  {
    if steps == [] {
      assert ran + steps == ran;
    } else {
      var init, last := steps[..|steps| - 1], steps[|steps| - 1];
      var v :| Chain(next, run(ran), init, v) && next(v, last, t);
      ChainRuns(next, possible, run, ran, init, v);
      assert ran + steps == ran + init + [last];
    }
  }
}

/** The string helpers of Go's `strings` package that the models rely on. */
module Text {

  /** `unicode.IsSpace`. */
  predicate IsSpace(c: char) {
    c == '\t' || c == '\n' || c == '\U{0B}' || c == '\U{0C}' || c == '\r' || c == ' ' ||
    c == '\U{85}' || c == '\U{A0}' || c == '\U{1680}' || ('\U{2000}' <= c <= '\U{200A}') ||
    c == '\U{2028}' || c == '\U{2029}' || c == '\U{202F}' || c == '\U{205F}' || c == '\U{3000}'
  }

  function TrimLeft(s: string): string {
    if s != [] && IsSpace(s[0]) then TrimLeft(s[1..]) else s
  }

  function TrimRight(s: string): string {
    if s != [] && IsSpace(s[|s| - 1]) then TrimRight(s[..|s| - 1]) else s
  }

  /** `strings.TrimSpace`. */
  function TrimSpace(s: string): string {
    TrimRight(TrimLeft(s))
  }

  predicate IsBlank(s: string) {
    forall i :: 0 <= i < |s| ==> IsSpace(s[i])
  }

  lemma {:induction false} TrimLeftFacts(s: string)
    ensures var r := TrimLeft(s); |r| <= |s| && r == s[|s| - |r|..] && (r == [] || !IsSpace(r[0]))
    ensures IsBlank(s[..|s| - |TrimLeft(s)|])
  {
    if s != [] && IsSpace(s[0]) {
      TrimLeftFacts(s[1..]);
      var n := |s| - |TrimLeft(s)|;
      forall i | 0 <= i < n ensures IsSpace(s[..n][i]) {
        if i > 0 { assert s[i] == s[1..][..n - 1][i - 1]; }
      }
    } else {
      assert s[0..] == s;
    }
  }

  lemma {:induction false} TrimRightFacts(s: string)
    ensures var r := TrimRight(s); r <= s && (r == [] || !IsSpace(r[|r| - 1]))
    ensures IsBlank(s[|TrimRight(s)|..])
  {
    if s != [] && IsSpace(s[|s| - 1]) {
      TrimRightFacts(s[..|s| - 1]);
      var n := |TrimRight(s)|;
      forall i | 0 <= i < |s| - n ensures IsSpace(s[n..][i]) {
        if i < |s| - n - 1 { assert s[n..][i] == s[..|s| - 1][n..][i]; }
      }
    }
  }

  /** Trimming removes nothing but leading and trailing space. */
  lemma TrimSpaceFacts(s: string)
    ensures TrimSpace(s) == [] <==> IsBlank(s)
    ensures var r := TrimSpace(s); r == [] || (!IsSpace(r[0]) && !IsSpace(r[|r| - 1]))
    ensures s == [] || (!IsSpace(s[0]) && !IsSpace(s[|s| - 1])) ==> TrimSpace(s) == s
  {
    TrimLeftFacts(s);
    TrimRightFacts(TrimLeft(s));
    var left := TrimLeft(s);
    var n := |s| - |left|;
    if left == [] {
      assert s[..n] == s;
    } else {
      assert left[0] == s[n];
      assert TrimRight(left) != [] by { assert left[0..] == left; }
    }
  }

  /** `firstNonEmpty`: the first value that is not blank, untrimmed. */
  function FirstNonEmpty(values: seq<string>): string {
    if values == [] then "" else if TrimSpace(values[0]) != "" then values[0] else FirstNonEmpty(values[1..])
  }

  /** `strings.Fields`: the maximal runs of non-space characters. */
  function Fields(s: string): (r: seq<string>)
    ensures forall f :: f in r ==> f != [] && forall i :: 0 <= i < |f| ==> !IsSpace(f[i])
    ensures r == [] <==> forall i :: 0 <= i < |s| ==> IsSpace(s[i])
  {
    if s == [] then []
    else if IsSpace(s[0]) then Fields(s[1..])
    else
      var n := FieldLength(s);
      [s[..n]] + Fields(s[n..])
  }

  function FieldLength(s: string): (n: nat)
    ensures n <= |s|
    ensures forall i :: 0 <= i < n ==> !IsSpace(s[i])
    ensures n < |s| ==> IsSpace(s[n])
  {
    if s == [] || IsSpace(s[0]) then 0 else 1 + FieldLength(s[1..])
  }

  /** `strings.Join(parts, " ")`. */
  function JoinSpace(parts: seq<string>): (r: string) {
    if parts == [] then ""
    else if |parts| == 1 then parts[0]
    else parts[0] + " " + JoinSpace(parts[1..])
  }
}
