/** The Codex driver's reducer, on the fields that guard jobs and the file watch (codex.go, codex_event.go). */
module CodexDriver {
  import opened Wrappers
  import opened DriverGuards
  import S = StatusEvidence
  import opened Text

  datatype Kind =
    | SessionReady | Failed | PromptSubmitted(prompt: string) | MetadataUpdated(prompt: string)
    | TurnStarted | TurnCompleted | ToolStarted | ToolCompleted
    | ApprovalRequested | ApprovalResolved(denied: bool) | OtherKind

  datatype Event =
    | Subsystem(kind: Kind, transcriptPath: string, at: Time)
    | Tick(project: string, watched: bool, now: Time)
    | FileChanged(path: string)
    | Result(job: JobKind, found: bool, now: Time)
    | StatusLineClick
    | WorktreeResolved(startDir: string)
    | CommandExited(code: int, exitedAt: Time)
    | Bootstrap(now: Time)
    | WarmStart

  /** `applyHookStatus`. */
  function HookStatus(d: Driven, status: S.Status, at: Time): Driven {
    d.(status := d.status.(status := status, changedAt := if at != 0 then at else d.status.changedAt))
  }

  /** `applySessionStart` on a root or other frame. */
  function ApplySessionStart(d: Driven, root: bool, at: Time): Stepped {
    var t := HookStatus(d, S.Idle, at);
    if root then ParseThenDetect(t, t.transcriptPath) else ParseTranscript(t, t.transcriptPath)
  }

  /** `applyMetadataPrompt`. */
  function ApplyPrompt(d: Driven, prompt: string, at: Time): Stepped {
    if TrimSpace(prompt) == "" then Stepped(d, [])
    else
      var t := HookStatus(d, S.Running, at);
      SummaryThenParse(t, TrimSpace(prompt), t.transcriptPath)
  }

  /** What `applySubsystemKind` does after the effects it is handed, TurnCompleted aside. */
  function ApplyKind(d: Driven, kind: Kind, at: Time): Stepped {
    match kind
    case SessionReady => ApplySessionStart(d, true, at)
    case Failed => Stepped(HookStatus(d, S.Stopped, at), [])
    case PromptSubmitted(prompt) => ApplyPrompt(d, prompt, at)
    case MetadataUpdated(prompt) => ApplyPrompt(d, prompt, at)
    case TurnStarted => Stepped(HookStatus(d, S.Running, at), [])
    case TurnCompleted => Stepped(HookStatus(d, S.Waiting, at), [])
    case ToolStarted => Stepped(HookStatus(d, S.Running, at), [])
    case ToolCompleted => Stepped(HookStatus(d, S.Running, at), [])
    case ApprovalRequested => Stepped(HookStatus(d, S.Pending, at), [])
    case ApprovalResolved(denied) => Stepped(HookStatus(d, if denied then S.Waiting else S.Running, at), [])
    case OtherKind => Stepped(d, [])
  }

  /** `applySubsystemKind`: TurnCompleted replaces the effects it is handed with its own. */
  function ApplySubsystemKind(d: Driven, kind: Kind, at: Time, effs: seq<Effect>): Stepped {
    var out := ApplyKind(d, kind, at);
    if kind.TurnCompleted? then out else out.(effs := effs + out.effs)
  }

  function SetRolloutPath(d: Driven, path: string): Driven {
    if path == "" then d else d.(transcriptPath := TrimSpace(path))
  }

  function HandleSubsystem(d: Driven, root: bool, kind: Kind, path: string, at: Time): Stepped {
    if !root then Stepped(d, [])
    else
      var t := SetRolloutPath(d, path);
      var w := Watch(t, t.transcriptPath);
      var k := ApplySubsystemKind(w.next, kind, at, w.effs);
      Then(k, ParseTranscript(k.next, k.next.transcriptPath))
  }

  function HandleFileChanged(d: Driven, path: string): Stepped {
    if d.transcriptPath != "" && path != "" && d.transcriptPath != path then Stepped(d, [])
    else WatchThenParse(d, d.transcriptPath)
  }

  function HandleBootstrap(d: Driven, root: bool, now: Time): Stepped {
    var w := Watch(d, d.transcriptPath);
    Then(w, ApplySessionStart(w.next, root, now))
  }

  /** `Step`, with the two entry points beside it. */
  function Step(root: bool, d: Driven, ev: Event): Stepped {
    match ev
    case Subsystem(kind, path, at) => HandleSubsystem(d, root, kind, path, at)
    case Bootstrap(now) => HandleBootstrap(d, root, now)
    case WarmStart => WatchThenParse(d, d.transcriptPath)
    case _ => if !root then Stepped(d, []) else RootStep(d, ev)
  }

  function RootStep(d: Driven, ev: Event): Stepped {
    match ev
    case Tick(project, watched, now) => HandleTick(d, project, watched, now)
    case FileChanged(path) => HandleFileChanged(d, path)
    case Result(job, found, now) => Stepped(JobResult(d, job, found, now), [])
    case WorktreeResolved(startDir) => Stepped(d.(startDir := startDir), [])
    case CommandExited(code, at) => Stepped(DriverGuards.CommandExited(d, code, at), [])
    case _ => Stepped(d, [])
  }

  // ------------------------------------------------------------------ one step

  function ResultOf(root: bool, ev: Event): Option<JobKind> {
    if root && ev.Result? then Some(ev.job) else None
  }

  function Seen(root: bool, d: Driven, ev: Event): Record {
    Record(d, Step(root, d, ev), ResultOf(root, ev))
  }

  lemma SessionStartPlain(d: Driven, root: bool, at: Time, kind: JobKind)
    ensures Plain(d, ApplySessionStart(d, root, at), kind)
    ensures ApplySessionStart(d, root, at).next.transcriptPath == d.transcriptPath
  {
    var t := HookStatus(d, S.Idle, at);
    ParseThenDetectPlain(t, t.transcriptPath, kind);
    ParsePlain(t, t.transcriptPath, kind);
    Around(t, d, ApplySessionStart(d, root, at), ApplySessionStart(d, root, at), kind);
  }

  lemma PromptPlain(d: Driven, prompt: string, at: Time, kind: JobKind)
    ensures Plain(d, ApplyPrompt(d, prompt, at), kind)
    ensures ApplyPrompt(d, prompt, at).next.transcriptPath == d.transcriptPath
  {
    if TrimSpace(prompt) != "" {
      var t := HookStatus(d, S.Running, at);
      SummaryThenParsePlain(t, TrimSpace(prompt), t.transcriptPath, kind);
      Around(t, d, ApplyPrompt(d, prompt, at), ApplyPrompt(d, prompt, at), kind);
    }
  }

  lemma KindPlain(d: Driven, kind: Kind, at: Time, job: JobKind)
    ensures Plain(d, ApplyKind(d, kind, at), job)
    ensures ApplyKind(d, kind, at).next.transcriptPath == d.transcriptPath
  {
    match kind
    case SessionReady => SessionStartPlain(d, true, at, job);
    case PromptSubmitted(prompt) => PromptPlain(d, prompt, at, job);
    case MetadataUpdated(prompt) => PromptPlain(d, prompt, at, job);
    case _ => Around(d, d, Stepped(d, []), ApplyKind(d, kind, at), job);
  }

  /** The file watched afterwards: the transcript, when there is one. */
  predicate OnTranscript(d: Driven, out: Driven, path: string) {
    out.transcriptPath == path && out.watchedFile == if path == "" then d.watchedFile else path
  }

  /** A subsystem event other than TurnCompleted. */
  lemma SubsystemFine(d: Driven, kind: Kind, path: string, at: Time, job: JobKind)
    requires !kind.TurnCompleted?
    ensures Fine(d, HandleSubsystem(d, true, kind, path, at), job)
    ensures OnTranscript(d, HandleSubsystem(d, true, kind, path, at).next, SetRolloutPath(d, path).transcriptPath)
  {
    var t := SetRolloutPath(d, path);
    var w := Watch(t, t.transcriptPath);
    var a := ApplyKind(w.next, kind, at);
    var k := Then(w, a);
    WatchFine(t, t.transcriptPath, job);
    KindPlain(w.next, kind, at, job);
    ThenFine(t, w, a, job);
    ParsePlain(k.next, k.next.transcriptPath, job);
    ThenFine(t, k, ParseTranscript(k.next, k.next.transcriptPath), job);
    Around(t, d, HandleSubsystem(d, true, kind, path, at), HandleSubsystem(d, true, kind, path, at), job);
  }

  lemma TurnCompletedIs(d: Driven, path: string, at: Time)
    ensures var t := SetRolloutPath(d, path);
            var k := HookStatus(Watch(t, t.transcriptPath).next, S.Waiting, at);
            HandleSubsystem(d, true, TurnCompleted, path, at) == ParseTranscript(k, k.transcriptPath)
  {
    var t := SetRolloutPath(d, path);
    var k := HookStatus(Watch(t, t.transcriptPath).next, S.Waiting, at);
    assert [] + ParseTranscript(k, k.transcriptPath).effs == ParseTranscript(k, k.transcriptPath).effs;
  }

  /** TurnCompleted: the jobs are guarded as ever, but no watch effect comes out. */
  lemma TurnCompletedEffects(d: Driven, path: string, at: Time, job: JobKind)
    ensures var out := HandleSubsystem(d, true, TurnCompleted, path, at);
            && Guarded(d, out, job) && Watches(out.effs) == []
            && OnTranscript(d, out.next, SetRolloutPath(d, path).transcriptPath)
  {
    TurnCompletedIs(d, path, at);
    var t := SetRolloutPath(d, path);
    WatchFine(t, t.transcriptPath, job);
    var k := HookStatus(Watch(t, t.transcriptPath).next, S.Waiting, at);
    ParsePlain(k, k.transcriptPath, job);
  }

  lemma BootstrapFine(d: Driven, root: bool, now: Time, job: JobKind)
    ensures Fine(d, HandleBootstrap(d, root, now), job)
    ensures OnTranscript(d, HandleBootstrap(d, root, now).next, d.transcriptPath)
  {
    var w := Watch(d, d.transcriptPath);
    WatchFine(d, d.transcriptPath, job);
    SessionStartPlain(w.next, root, now, job);
    ThenFine(d, w, ApplySessionStart(w.next, root, now), job);
  }

  lemma OtherFine(root: bool, d: Driven, ev: Event, job: JobKind)
    requires !ev.Subsystem? && !(ev.Result? && root)
    ensures Fine(d, Step(root, d, ev), job)
    ensures Unwatched(d, Step(root, d, ev)) || OnTranscript(d, Step(root, d, ev).next, d.transcriptPath)
    ensures Step(root, d, ev).next.transcriptPath == d.transcriptPath
  {
    if ev.Bootstrap? {
      BootstrapFine(d, root, ev.now, job);
    } else if ev.WarmStart? || ev.FileChanged? {
      WatchThenParseFine(d, d.transcriptPath, job);
    } else if root {
      if ev.Tick? { TickPlain(d, ev.project, ev.watched, ev.now, job); }
      else { Around(d, d, Stepped(d, []), RootStep(d, ev), job); }
    }
  }

  /** A root event whose effects TurnCompleted throws away. */
  predicate Overwrites(root: bool, ev: Event) {
    root && ev.Subsystem? && ev.kind.TurnCompleted?
  }

  lemma StepGuarded(root: bool, d: Driven, ev: Event, job: JobKind)
    ensures StepOk(Seen(root, d, ev), job)
    ensures !Overwrites(root, ev) ==> WatchKept(d, Step(root, d, ev))
  {
    if ev.Subsystem? && root {
      if ev.kind.TurnCompleted? { TurnCompletedEffects(d, ev.transcriptPath, ev.at, job); }
      else { SubsystemFine(d, ev.kind, ev.transcriptPath, ev.at, job); }
    } else if !ev.Subsystem? && !(ev.Result? && root) {
      OtherFine(root, d, ev, job);
    }
  }

  /**
   The watched file changes with its watch effect exactly when the event is not a
   turn-completed one that names, or follows, a transcript not yet watched.
   */
  lemma WatchKeptIff(root: bool, d: Driven, ev: Event)
    ensures WatchKept(d, Step(root, d, ev)) <==>
              !(Overwrites(root, ev) &&
                var path := SetRolloutPath(d, ev.transcriptPath).transcriptPath;
                path != "" && path != d.watchedFile)
  {
    StepGuarded(root, d, ev, Transcript);
    if Overwrites(root, ev) { TurnCompletedEffects(d, ev.transcriptPath, ev.at, Transcript); }
  }

  lemma KindWork(d: Driven, kind: Kind, at: Time)
    ensures var t := ApplyKind(d, kind, at).next;
            && ((kind.PromptSubmitted? || kind.MetadataUpdated?) && TrimSpace(kind.prompt) != "" ==> t.summaryInFlight)
            && (kind.SessionReady? && t.startDir != "" ==> t.branchInFlight)
  {
  }

  lemma ParseKeeps(d: Driven)
    ensures var t := ParseTranscript(d, d.transcriptPath).next;
            && t == d.(transcriptInFlight := t.transcriptInFlight)
            && (t.transcriptPath != "" ==> t.transcriptInFlight)
  {
  }

  /** Every root subsystem event leaves a parse of the transcript under way, and the jobs its kind calls for. */
  lemma WorkUnderWay(d: Driven, kind: Kind, path: string, at: Time)
    ensures var t := HandleSubsystem(d, true, kind, path, at).next;
            && (t.transcriptPath != "" ==> t.transcriptInFlight && t.watchedFile == t.transcriptPath)
            && (path != "" ==> t.transcriptPath == TrimSpace(path))
            && ((kind.PromptSubmitted? || kind.MetadataUpdated?) && TrimSpace(kind.prompt) != "" ==> t.summaryInFlight)
            && (kind.SessionReady? && t.startDir != "" ==> t.branchInFlight)
  {
    if kind.TurnCompleted? {
      TurnCompletedEffects(d, path, at, Transcript);
    } else {
      SubsystemFine(d, kind, path, at, Transcript);
    }
    var w := Watch(SetRolloutPath(d, path), SetRolloutPath(d, path).transcriptPath).next;
    KindWork(w, kind, at);
    ParseKeeps(ApplyKind(w, kind, at).next);
  }

  // ----------------------------------------------------------------- every run

  function Codex(root: bool): Reducer<Driven, Event> {
    Reducer((d, ev) => Step(root, d, ev).next, (d, ev) => Seen(root, d, ev), (d: Driven) => d)
  }

  lemma Sees(root: bool, job: JobKind)
    ensures forall d, ev :: Seeing(Codex(root), d, ev, job)
  {
    forall d, ev ensures Seeing(Codex(root), d, ev, job) { StepGuarded(root, d, ev, job); }
  }

  /** For every event sequence on a Codex frame, jobs started less results received is the flag. */
  lemma InFlightGuards(root: bool, d: Driven, evs: seq<Event>, job: JobKind)
    requires !InFlight(d, job) && ResultsHaveJobs(Trace(Codex(root), d, evs), job)
    ensures Outstanding(Trace(Codex(root), d, evs), job) == Bit(InFlight(Run(Codex(root), d, evs), job))
  {
    Sees(root, job);
    TraceOk(Codex(root), d, evs, job);
    OutstandingIsFlag(d, Trace(Codex(root), d, evs), job);
  }

  /** A job whose result never comes back, as when the full worker queue drops it, blocks its kind for good. */
  lemma LostResultBlocks(root: bool, d: Driven, evs: seq<Event>, job: JobKind)
    requires InFlight(d, job)
    requires forall i :: 0 <= i < |evs| ==> ResultOf(root, evs[i]) != Some(job)
    ensures Outstanding(Trace(Codex(root), d, evs), job) == 0 && InFlight(Run(Codex(root), d, evs), job)
  {
    Sees(root, job);
    TraceOk(Codex(root), d, evs, job);
    TraceResults(Codex(root), d, evs, job);
    NoResultNoJob(d, Trace(Codex(root), d, evs), job);
  }

  function AllWatches(trace: seq<Record>): seq<string> {
    if trace == [] then []
    else AllWatches(trace[..|trace| - 1]) + Watches(trace[|trace| - 1].after.effs)
  }

  /** No event moves the transcript to a third path. */
  predicate StaysOn(evs: seq<Event>, path: string) {
    forall i :: 0 <= i < |evs| && evs[i].Subsystem? && evs[i].transcriptPath != "" ==>
      TrimSpace(evs[i].transcriptPath) == path || TrimSpace(evs[i].transcriptPath) == ""
  }

  predicate MarkedWatched(d: Driven, path: string) {
    d.watchedFile == path && (d.transcriptPath == path || d.transcriptPath == "")
  }

  lemma StaysMarked(root: bool, d: Driven, ev: Event, path: string)
    requires path != "" && MarkedWatched(d, path) && StaysOn([ev], path)
    ensures MarkedWatched(Step(root, d, ev).next, path) && Watches(Step(root, d, ev).effs) == []
  {
    assert [ev][0] == ev;
    StepGuarded(root, d, ev, Transcript);
    if ev.Subsystem? && root {
      if ev.kind.TurnCompleted? { TurnCompletedEffects(d, ev.transcriptPath, ev.at, Transcript); }
      else { SubsystemFine(d, ev.kind, ev.transcriptPath, ev.at, Transcript); }
    } else if !ev.Subsystem? && !(ev.Result? && root) {
      OtherFine(root, d, ev, Transcript);
    }
  }

  /**
   A watch lost to a turn-completed event is lost for good: the driver believes the
   file watched, and no later event on the same transcript asks for it again.
   */
  lemma {:induction false} LostWatchStaysLost(root: bool, d: Driven, evs: seq<Event>, path: string)
    requires path != "" && MarkedWatched(d, path) && StaysOn(evs, path)
    ensures AllWatches(Trace(Codex(root), d, evs)) == [] && MarkedWatched(Run(Codex(root), d, evs), path)
  {
    if evs != [] {
      var init, last := evs[..|evs| - 1], evs[|evs| - 1];
      LostWatchStaysLost(root, d, init, path);
      assert StaysOn([last], path);
      StaysMarked(root, Run(Codex(root), d, init), last, path);
      var trace := Trace(Codex(root), d, evs);
      assert trace[..|trace| - 1] == Trace(Codex(root), d, init);
    }
  }

  /** Such an event: a turn completes in the same message that first names the transcript. */
  lemma TurnCompletedLosesWatch(d: Driven, path: string, at: Time)
    requires path != "" && TrimSpace(path) == path && d.watchedFile != path
    ensures var out := Step(true, d, Subsystem(TurnCompleted, path, at));
            Watches(out.effs) == [] && MarkedWatched(out.next, path)
  {
    TurnCompletedEffects(d, path, at, Transcript);
  }
}
