/**
 What the Claude and Codex drivers share: the state and handlers of CommonState,
 the summary job, and the in-flight guards around every job they start
 (common_state.go, summary_job.go). Only the effects that start a job or watch a
 file are modelled; log and tool-log lines are not.
 */
module DriverGuards {
  import opened Wrappers
  import S = StatusEvidence

  type Time = S.Time

  datatype JobKind = Transcript | Branch | Summary

  datatype Effect = WatchFile(path: string) | StartJob(kind: JobKind, input: string)

  /** The fields of a driver's state that guard or feed jobs and watches. */
  datatype Driven = Driven(
    status: S.Common, project: string, startDir: string, transcriptPath: string, watchedFile: string,
    branchTarget: string, branchAt: Time,
    transcriptInFlight: bool, branchInFlight: bool, summaryInFlight: bool)

  predicate InFlight(d: Driven, kind: JobKind) {
    match kind
    case Transcript => d.transcriptInFlight
    case Branch => d.branchInFlight
    case Summary => d.summaryInFlight
  }

  const BRANCH_REFRESH := 30

  datatype Stepped = Stepped(next: Driven, effs: seq<Effect>)

  /** `HandleTick`. */
  function HandleTick(d: Driven, project: string, watched: bool, now: Time): Stepped {
    var c := d.(project := project, startDir := if d.startDir == "" then project else d.startDir);
    if c.status.status.Idle? || c.status.status.Stopped? || !watched then Stepped(c, [])
    else
      var target := if c.startDir == "" then project else c.startDir;
      if target != "" && !c.branchInFlight && (target != c.branchTarget || now - c.branchAt >= BRANCH_REFRESH)
      then Stepped(c.(branchInFlight := true, branchTarget := target), [StartJob(Branch, target)])
      else Stepped(c, [])
  }

  /** The branch detection a session start triggers at once. */
  function DetectBranch(d: Driven): Stepped {
    if d.startDir != "" && !d.branchInFlight
    then Stepped(d.(branchInFlight := true, branchTarget := d.startDir), [StartJob(Branch, d.startDir)])
    else Stepped(d, [])
  }

  /** `enqueueSummaryJob`: the prompt opens with fixed text, so it is never blank. */
  function EnqueueSummary(d: Driven, prompt: string): Stepped {
    if d.summaryInFlight then Stepped(d, []) else Stepped(d.(summaryInFlight := true), [StartJob(Summary, prompt)])
  }

  function ParseTranscript(d: Driven, path: string): Stepped {
    if d.transcriptInFlight || path == "" then Stepped(d, [])
    else Stepped(d.(transcriptInFlight := true), [StartJob(Transcript, path)])
  }

  function Watch(d: Driven, path: string): Stepped {
    if path == "" || d.watchedFile == path then Stepped(d, [])
    else Stepped(d.(watchedFile := path), [WatchFile(path)])
  }

  /** One handler after another. */
  function Then(a: Stepped, b: Stepped): Stepped {
    Stepped(b.next, a.effs + b.effs)
  }

  function WatchThenParse(d: Driven, path: string): Stepped {
    Then(Watch(d, path), ParseTranscript(Watch(d, path).next, path))
  }

  function SummaryThenParse(d: Driven, prompt: string, path: string): Stepped {
    Then(EnqueueSummary(d, prompt), ParseTranscript(EnqueueSummary(d, prompt).next, path))
  }

  function ParseThenDetect(d: Driven, path: string): Stepped {
    Then(ParseTranscript(d, path), DetectBranch(ParseTranscript(d, path).next))
  }

  /** `handleJobResult` on the fields modelled; a branch result that found a branch sets its time. */
  function JobResult(d: Driven, kind: JobKind, found: bool, now: Time): Driven {
    match kind
    case Transcript => d.(transcriptInFlight := false)
    case Branch => d.(branchInFlight := false, branchAt := if found then now else d.branchAt)
    case Summary => d.(summaryInFlight := false)
  }

  /** `ApplyCommandExited`. */
  function CommandExited(d: Driven, code: int, at: Time): Driven {
    var c := if code != 0 then S.Observe(d.status, S.Process, S.Stopped, at) else d.status;
    d.(status := if at != 0 then c.(changedAt := at) else c)
  }

  // --------------------------------------------------------------- guarded steps

  function Starts(effs: seq<Effect>, kind: JobKind): nat {
    if effs == [] then 0
    else (if effs[0].StartJob? && effs[0].kind == kind then 1 else 0) + Starts(effs[1..], kind)
  }

  lemma {:induction false} StartsConcat(a: seq<Effect>, b: seq<Effect>, kind: JobKind)
    ensures Starts(a + b, kind) == Starts(a, kind) + Starts(b, kind)
  {
    if a == [] {
      assert a + b == b;
    } else {
      assert (a + b)[1..] == a[1..] + b;
      StartsConcat(a[1..], b, kind);
    }
  }

  function Watches(effs: seq<Effect>): seq<string> {
    if effs == [] then []
    else (if effs[0].WatchFile? then [effs[0].path] else []) + Watches(effs[1..])
  }

  lemma {:induction false} WatchesConcat(a: seq<Effect>, b: seq<Effect>)
    ensures Watches(a + b) == Watches(a) + Watches(b)
  {
    if a == [] {
      assert a + b == b;
    } else {
      assert (a + b)[1..] == a[1..] + b;
      WatchesConcat(a[1..], b);
    }
  }

  function Bit(b: bool): nat { if b then 1 else 0 }

  /** A job starts exactly when its flag goes up, and only then. */
  predicate Guarded(d: Driven, s: Stepped, kind: JobKind) {
    Bit(InFlight(s.next, kind)) == Bit(InFlight(d, kind)) + Starts(s.effs, kind)
  }

  /** The watched file changes exactly with a watch effect for the new one. */
  predicate WatchKept(d: Driven, s: Stepped) {
    Watches(s.effs) == if s.next.watchedFile == d.watchedFile then [] else [s.next.watchedFile]
  }

  /** A handler that has nothing to do with the watched file. */
  predicate Unwatched(d: Driven, s: Stepped) {
    Watches(s.effs) == [] && s.next.watchedFile == d.watchedFile
  }

  lemma ThenGuarded(d: Driven, a: Stepped, b: Stepped, kind: JobKind)
    requires Guarded(d, a, kind) && Guarded(a.next, b, kind)
    ensures Guarded(d, Then(a, b), kind)
  {
    StartsConcat(a.effs, b.effs, kind);
  }

  lemma ThenWatchKept(d: Driven, a: Stepped, b: Stepped)
    requires WatchKept(d, a) && Unwatched(a.next, b)
    ensures WatchKept(d, Then(a, b))
    ensures Unwatched(d, a) ==> Unwatched(d, Then(a, b))
  {
    WatchesConcat(a.effs, b.effs);
  }

  /** A handler that starts jobs as guarded and leaves the watched file alone. */
  predicate Plain(d: Driven, s: Stepped, kind: JobKind) {
    Guarded(d, s, kind) && Unwatched(d, s)
  }

  predicate Fine(d: Driven, s: Stepped, kind: JobKind) {
    Guarded(d, s, kind) && WatchKept(d, s)
  }

  lemma ThenFine(d: Driven, a: Stepped, b: Stepped, kind: JobKind)
    requires Fine(d, a, kind) && Plain(a.next, b, kind)
    ensures Fine(d, Then(a, b), kind) && (Plain(d, a, kind) ==> Plain(d, Then(a, b), kind))
  {
    ThenGuarded(d, a, b, kind);
    ThenWatchKept(d, a, b);
  }

  lemma TickPlain(d: Driven, project: string, watched: bool, now: Time, kind: JobKind)
    ensures Plain(d, HandleTick(d, project, watched, now), kind)
    ensures HandleTick(d, project, watched, now).next.transcriptPath == d.transcriptPath
  {
  }

  lemma DetectPlain(d: Driven, kind: JobKind)
    ensures Plain(d, DetectBranch(d), kind) && DetectBranch(d).next.transcriptPath == d.transcriptPath
  {
  }

  lemma SummaryPlain(d: Driven, prompt: string, kind: JobKind)
    ensures Plain(d, EnqueueSummary(d, prompt), kind) && EnqueueSummary(d, prompt).next.transcriptPath == d.transcriptPath
  {
  }

  lemma ParsePlain(d: Driven, path: string, kind: JobKind)
    ensures Plain(d, ParseTranscript(d, path), kind) && ParseTranscript(d, path).next.transcriptPath == d.transcriptPath
  {
  }

  lemma WatchFine(d: Driven, path: string, kind: JobKind)
    ensures Fine(d, Watch(d, path), kind) && Watch(d, path).next.transcriptPath == d.transcriptPath
    ensures Watch(d, path).next.watchedFile == if path == "" then d.watchedFile else path
  {
  }

  lemma WatchThenParseFine(d: Driven, path: string, kind: JobKind)
    ensures Fine(d, WatchThenParse(d, path), kind) && WatchThenParse(d, path).next.transcriptPath == d.transcriptPath
    ensures WatchThenParse(d, path).next.watchedFile == if path == "" then d.watchedFile else path
  {
    var w := Watch(d, path);
    WatchFine(d, path, kind);
    ParsePlain(w.next, path, kind);
    ThenFine(d, w, ParseTranscript(w.next, path), kind);
  }

  lemma SummaryThenParsePlain(d: Driven, prompt: string, path: string, kind: JobKind)
    ensures Plain(d, SummaryThenParse(d, prompt, path), kind)
    ensures SummaryThenParse(d, prompt, path).next.transcriptPath == d.transcriptPath
  {
    var m := EnqueueSummary(d, prompt);
    SummaryPlain(d, prompt, kind);
    ParsePlain(m.next, path, kind);
    ThenFine(d, m, ParseTranscript(m.next, path), kind);
  }

  lemma ParseThenDetectPlain(d: Driven, path: string, kind: JobKind)
    ensures Plain(d, ParseThenDetect(d, path), kind) && ParseThenDetect(d, path).next.transcriptPath == d.transcriptPath
  {
    var t := ParseTranscript(d, path);
    ParsePlain(d, path, kind);
    DetectPlain(t.next, kind);
    ThenFine(d, t, DetectBranch(t.next), kind);
  }

  /** Same flags, same watched file. */
  predicate SameGuards(a: Driven, b: Driven) {
    && a.transcriptInFlight == b.transcriptInFlight && a.branchInFlight == b.branchInFlight
    && a.summaryInFlight == b.summaryInFlight && a.watchedFile == b.watchedFile
  }

  /** Fields that guard nothing may change before and after. */
  lemma Around(d: Driven, d': Driven, s: Stepped, s': Stepped, kind: JobKind)
    requires SameGuards(d, d') && SameGuards(s.next, s'.next) && s'.effs == s.effs
    ensures Fine(d', s', kind) == Fine(d, s, kind) && Plain(d', s', kind) == Plain(d, s, kind)
  {
  }

  // ------------------------------------------------------------------- traces

  /** One step of a driver seen from outside: what it started, and the result it was given. */
  datatype Record = Record(before: Driven, after: Stepped, result: Option<JobKind>)

  predicate StepOk(r: Record, kind: JobKind) {
    if r.result == Some(kind) then Starts(r.after.effs, kind) == 0 && !InFlight(r.after.next, kind)
    else Guarded(r.before, r.after, kind)
  }

  predicate Chained(d: Driven, trace: seq<Record>) {
    trace == [] || (Chained(d, trace[..|trace| - 1]) && trace[|trace| - 1].before == After(d, trace[..|trace| - 1]))
  }

  /** Jobs of one kind started less results received. */
  function Outstanding(trace: seq<Record>, kind: JobKind): int {
    if trace == [] then 0
    else
      var r := trace[|trace| - 1];
      Outstanding(trace[..|trace| - 1], kind) + Starts(r.after.effs, kind) - Bit(r.result == Some(kind))
  }

  /** The worker pool returns at most one result for each job it was given. */
  predicate ResultsHaveJobs(trace: seq<Record>, kind: JobKind) {
    forall i :: 0 <= i < |trace| && trace[i].result == Some(kind) ==> Outstanding(trace[..i], kind) > 0
  }

  function After(d: Driven, trace: seq<Record>): Driven {
    if trace == [] then d else trace[|trace| - 1].after.next
  }

  /**
   In-flight guards: over any sequence of steps, jobs started less results received
   is 0 or 1, and is the flag.
   */
  lemma {:induction false} OutstandingIsFlag(d: Driven, trace: seq<Record>, kind: JobKind)
    requires !InFlight(d, kind) && Chained(d, trace) && ResultsHaveJobs(trace, kind)
    requires forall i :: 0 <= i < |trace| ==> StepOk(trace[i], kind)
    ensures Outstanding(trace, kind) == Bit(InFlight(After(d, trace), kind))
  {
    if trace != [] {
      var init, r := trace[..|trace| - 1], trace[|trace| - 1];
      assert ResultsHaveJobs(init, kind) by {
        forall i | 0 <= i < |init| && init[i].result == Some(kind) ensures Outstanding(init[..i], kind) > 0 {
          assert init[..i] == trace[..i] && init[i] == trace[i];
        }
      }
      OutstandingIsFlag(d, init, kind);
      assert StepOk(r, kind);
      assert r.before == After(d, init);
      assert r.result == Some(kind) ==> Outstanding(trace[..|trace| - 1], kind) > 0;
    }
  }

  /** While no result comes back, a job in flight keeps every other of its kind from starting. */
  lemma {:induction false} NoResultNoJob(d: Driven, trace: seq<Record>, kind: JobKind)
    requires InFlight(d, kind) && Chained(d, trace)
    requires forall i :: 0 <= i < |trace| ==> StepOk(trace[i], kind) && trace[i].result != Some(kind)
    ensures Outstanding(trace, kind) == 0 && InFlight(After(d, trace), kind)
  {
    if trace != [] {
      var init, r := trace[..|trace| - 1], trace[|trace| - 1];
      NoResultNoJob(d, init, kind);
      assert StepOk(r, kind) && r.before == After(d, init);
    }
  }

  // ----------------------------------------------------------------- reducers

  /** A driver's reducer: its step, how a step is seen from outside, and the guarded part of its state. */
  datatype Reducer<!S, !E> = Reducer(step: (S, E) -> S, seen: (S, E) -> Record, driven: S -> Driven)

  function Run<S, E>(r: Reducer<S, E>, s: S, evs: seq<E>): S {
    if evs == [] then s else r.step(Run(r, s, evs[..|evs| - 1]), evs[|evs| - 1])
  }

  function Trace<S, E>(r: Reducer<S, E>, s: S, evs: seq<E>): seq<Record> {
    if evs == [] then []
    else Trace(r, s, evs[..|evs| - 1]) + [r.seen(Run(r, s, evs[..|evs| - 1]), evs[|evs| - 1])]
  }

  predicate Seeing<S, E>(r: Reducer<S, E>, s: S, e: E, kind: JobKind) {
    r.seen(s, e).before == r.driven(s) && r.seen(s, e).after.next == r.driven(r.step(s, e)) && StepOk(r.seen(s, e), kind)
  }

  lemma {:induction false} TraceOk<S(!new), E(!new)>(r: Reducer<S, E>, s: S, evs: seq<E>, kind: JobKind)
    requires forall t, e :: Seeing(r, t, e, kind)
    ensures var trace := Trace(r, s, evs);
            && Chained(r.driven(s), trace) && After(r.driven(s), trace) == r.driven(Run(r, s, evs))
            && forall i :: 0 <= i < |trace| ==> StepOk(trace[i], kind)
  {
    if evs != [] {
      var init, last := evs[..|evs| - 1], evs[|evs| - 1];
      TraceOk(r, s, init, kind);
      assert Seeing(r, Run(r, s, init), last, kind);
      var trace := Trace(r, s, evs);
      assert trace[..|trace| - 1] == Trace(r, s, init);
    }
  }

  predicate Without(trace: seq<Record>, kind: JobKind) {
    forall i :: 0 <= i < |trace| ==> trace[i].result != Some(kind)
  }

  lemma {:induction false} TraceResults<S(!new), E>(r: Reducer<S, E>, s: S, evs: seq<E>, kind: JobKind)
    requires forall t, i :: 0 <= i < |evs| ==> r.seen(t, evs[i]).result != Some(kind)
    ensures Without(Trace(r, s, evs), kind)
  {
    if evs != [] {
      var init := evs[..|evs| - 1];
      forall t, i | 0 <= i < |init| ensures r.seen(t, init[i]).result != Some(kind) { assert init[i] == evs[i]; }
      TraceResults(r, s, init, kind);
      assert r.seen(Run(r, s, init), evs[|evs| - 1]).result != Some(kind);
    }
  }
}
