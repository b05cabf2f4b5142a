/**
 The Claude driver's reducer, on the fields that guard jobs and the file watch
 (claude.go, claude_event.go, claude_tick.go).
 */
module ClaudeDriver {
  import opened Wrappers
  import opened DriverGuards
  import S = StatusEvidence

  /** `home` is whether a home directory is known; `canonical` the path it gives a working directory and session. */
  datatype Driver = Driver(home: bool, canonical: (string, string) -> string)

  datatype State = State(d: Driven, lastBridge: Time, sessionId: string, forkParent: string)

  datatype HookName =
    | SessionStart | UserPromptSubmit | PreToolUse | PostToolUse | Stop | StopFailure | SessionEnd
    | PermissionPrompt | ElicitationDialog | IdlePrompt | SubagentStart | SubagentStop | OtherHook

  datatype Hook = Hook(sessionId: string, name: HookName, transcriptPath: string, agentTool: bool, prompt: string)

  datatype Event =
    | HookEvent(hook: Hook, at: Time)
    | Tick(project: string, watched: bool, now: Time)
    | FileChanged(path: string)
    | Result(kind: JobKind, found: bool, now: Time)
    | Osc(seen: Option<(S.Source, S.Status)>, now: Time)
    | StatusLineClick
    | WorktreeResolved(startDir: string)
    | CommandExited(code: int, at: Time)
    | WarmStart

  datatype Out = Out(next: State, effs: seq<Effect>)

  function Resolve(drv: Driver, s: State): string {
    if s.d.transcriptPath != "" then s.d.transcriptPath
    else if !drv.home || s.sessionId == "" || s.d.startDir == "" then ""
    else drv.canonical(s.d.startDir, s.sessionId)
  }

  /** `deriveHookState`. */
  function HookStatus(hook: Hook): Option<S.Status> {
    match hook.name
    case UserPromptSubmit => Some(S.Running)
    case PreToolUse => Some(S.Running)
    case PostToolUse => Some(S.Running)
    case Stop => Some(S.Waiting)
    case StopFailure => Some(S.Stopped)
    case SessionEnd => Some(S.Stopped)
    case SessionStart => Some(S.Idle)
    case PermissionPrompt => Some(S.Pending)
    case ElicitationDialog => Some(S.Pending)
    case IdlePrompt => Some(S.Waiting)
    case _ => None
  }

  /** `absorbIdentityFromHP`. */
  function Absorb(s: State, hook: Hook): State {
    var t := if hook.sessionId == "" || (s.forkParent != "" && hook.sessionId == s.forkParent) then s
             else s.(sessionId := hook.sessionId, forkParent := "");
    if hook.transcriptPath != "" then t.(d := t.d.(transcriptPath := hook.transcriptPath)) else t
  }

  function SetStatus(s: State, status: S.Status, at: Time): State {
    s.(d := s.d.(status := s.d.status.(status := status, changedAt := at)))
  }

  function OrChangedAt(s: State, at: Time): Time {
    if at == 0 then s.d.status.changedAt else at
  }

  function HandleSessionStart(drv: Driver, s: State, hook: Hook, at: Time): Out {
    var a := Absorb(s, hook);
    var t := SetStatus(a, S.Idle, OrChangedAt(a, at));
    var path := Resolve(drv, t);
    var first := if path != "" && t.d.watchedFile != path then WatchThenParse(t.d, path) else Stepped(t.d, []);
    var all := Then(first, DetectBranch(first.next));
    Out(t.(d := all.next), all.effs)
  }

  function HandleStateChange(drv: Driver, s: State, hook: Hook, status: S.Status, at: Time): Out {
    var a := Absorb(s, hook);
    var t := SetStatus(a, status, OrChangedAt(a, at));
    var p := ParseTranscript(t.d, Resolve(drv, t));
    Out(t.(d := p.next), p.effs)
  }

  function HandleUserPromptSubmit(drv: Driver, s: State, hook: Hook, at: Time): Out {
    var t := SetStatus(Absorb(s, hook), S.Running, at);
    var all := SummaryThenParse(t.d, hook.prompt, Resolve(drv, t));
    Out(t.(d := all.next), all.effs)
  }

  function HandleHook(drv: Driver, s: State, root: bool, hook: Hook, at: Time): Out {
    if hook.sessionId == "" then Out(s, [])
    else if !root then
      if at != 0 && at <= s.lastBridge then Out(s, [])
      else Out(s.(sessionId := hook.sessionId, lastBridge := if at != 0 then at else s.lastBridge), [])
    else if hook.name.SessionStart? then HandleSessionStart(drv, s.(lastBridge := at), hook, at)
    else if at != 0 && at <= s.lastBridge then Out(s, [])
    else
      var t := s.(lastBridge := if at != 0 then at else s.lastBridge);
      if hook.name.UserPromptSubmit? then HandleUserPromptSubmit(drv, t, hook, at)
      else if hook.agentTool || HookStatus(hook).None? then Out(t, [])
      else HandleStateChange(drv, t, hook, HookStatus(hook).value, at)
  }

  /** `observeClaudeHookStatus`. */
  function ObserveHook(s: State, hook: Hook, at: Time): State {
    if hook.agentTool || HookStatus(hook).None? then s
    else s.(d := s.d.(status := S.Observe(s.d.status, S.Hook, HookStatus(hook).value, at)))
  }

  function HandleFileChanged(s: State, changed: string): Out {
    var path := if s.d.transcriptPath == "" then changed else s.d.transcriptPath;
    var all := WatchThenParse(s.d, path);
    Out(s.(d := all.next), all.effs)
  }

  function HandleWarmStart(drv: Driver, s: State): Out {
    var path := Resolve(drv, s);
    if path == "" then Out(s, [])
    else
      var d := if s.d.transcriptPath == "" then s.d.(transcriptPath := path) else s.d;
      var all := WatchThenParse(d, path);
      Out(s.(d := all.next), all.effs)
  }

  /** `Step`: a frame that is not the root takes in hooks only. */
  function Step(drv: Driver, root: bool, s: State, ev: Event): Out {
    match ev
    case HookEvent(hook, at) =>
      var out := HandleHook(drv, s, root, hook, at);
      if root then out.(next := ObserveHook(out.next, hook, at)) else out
    case WarmStart => HandleWarmStart(drv, s)
    case _ => if !root then Out(s, []) else RootStep(drv, s, ev)
  }

  function RootStep(drv: Driver, s: State, ev: Event): Out {
    match ev
    case Tick(project, watched, now) =>
      var t := HandleTick(s.d, project, watched, now);
      Out(s.(d := t.next.(status := S.Resolve(t.next.status))), t.effs)
    case FileChanged(path) => HandleFileChanged(s, path)
    case Result(kind, found, now) => Out(s.(d := JobResult(s.d, kind, found, now)), [])
    case Osc(seen, now) =>
      if seen.None? then Out(s, [])
      else Out(s.(d := s.d.(status := S.Observe(s.d.status, seen.value.0, seen.value.1, now))), [])
    case WorktreeResolved(startDir) => Out(s.(d := s.d.(startDir := startDir)), [])
    case CommandExited(code, at) => Out(s.(d := DriverGuards.CommandExited(s.d, code, at)), [])
    case _ => Out(s, [])
  }

  // ------------------------------------------------------------------ one step

  function ResultOf(root: bool, ev: Event): Option<JobKind> {
    if root && ev.Result? then Some(ev.kind) else None
  }

  function Seen(drv: Driver, root: bool, s: State, ev: Event): Record {
    var out := Step(drv, root, s, ev);
    Record(s.d, Stepped(out.next.d, out.effs), ResultOf(root, ev))
  }

  function Of(out: Out): Stepped {
    Stepped(out.next.d, out.effs)
  }

  lemma SessionStartFine(drv: Driver, s: State, hook: Hook, at: Time, kind: JobKind)
    ensures Fine(s.d, Of(HandleSessionStart(drv, s, hook, at)), kind)
  {
    var a := Absorb(s, hook);
    var t := SetStatus(a, S.Idle, OrChangedAt(a, at));
    var path := Resolve(drv, t);
    var first := if path != "" && t.d.watchedFile != path then WatchThenParse(t.d, path) else Stepped(t.d, []);
    WatchThenParseFine(t.d, path, kind);
    DetectPlain(first.next, kind);
    ThenFine(t.d, first, DetectBranch(first.next), kind);
    Around(t.d, s.d, Then(first, DetectBranch(first.next)), Of(HandleSessionStart(drv, s, hook, at)), kind);
  }

  lemma StateChangeFine(drv: Driver, s: State, hook: Hook, status: S.Status, at: Time, kind: JobKind)
    ensures Fine(s.d, Of(HandleStateChange(drv, s, hook, status, at)), kind)
  {
    var a := Absorb(s, hook);
    var t := SetStatus(a, status, OrChangedAt(a, at));
    ParsePlain(t.d, Resolve(drv, t), kind);
    Around(t.d, s.d, ParseTranscript(t.d, Resolve(drv, t)), Of(HandleStateChange(drv, s, hook, status, at)), kind);
  }

  lemma UserPromptFine(drv: Driver, s: State, hook: Hook, at: Time, kind: JobKind)
    ensures Fine(s.d, Of(HandleUserPromptSubmit(drv, s, hook, at)), kind)
  {
    var t := SetStatus(Absorb(s, hook), S.Running, at);
    var all := SummaryThenParse(t.d, hook.prompt, Resolve(drv, t));
    SummaryThenParsePlain(t.d, hook.prompt, Resolve(drv, t), kind);
    Around(t.d, s.d, all, Of(HandleUserPromptSubmit(drv, s, hook, at)), kind);
  }

  lemma HookFine(drv: Driver, s: State, root: bool, hook: Hook, at: Time, kind: JobKind)
    ensures Fine(s.d, Of(HandleHook(drv, s, root, hook, at)), kind)
  {
    if hook.sessionId != "" && root {
      var t := s.(lastBridge := if at != 0 then at else s.lastBridge);
      if hook.name.SessionStart? {
        SessionStartFine(drv, s.(lastBridge := at), hook, at, kind);
      } else if hook.name.UserPromptSubmit? {
        UserPromptFine(drv, t, hook, at, kind);
      } else if HookStatus(hook).Some? {
        StateChangeFine(drv, t, hook, HookStatus(hook).value, at, kind);
      }
    }
  }

  lemma TickFine(drv: Driver, s: State, project: string, watched: bool, now: Time, kind: JobKind)
    ensures Fine(s.d, Of(RootStep(drv, s, Tick(project, watched, now))), kind)
  {
    TickPlain(s.d, project, watched, now, kind);
    Around(s.d, s.d, HandleTick(s.d, project, watched, now), Of(RootStep(drv, s, Tick(project, watched, now))), kind);
  }

  lemma WarmStartFine(drv: Driver, s: State, kind: JobKind)
    ensures Fine(s.d, Of(HandleWarmStart(drv, s)), kind)
  {
    var path := Resolve(drv, s);
    if path != "" {
      var d := if s.d.transcriptPath == "" then s.d.(transcriptPath := path) else s.d;
      WatchThenParseFine(d, path, kind);
      Around(d, s.d, WatchThenParse(d, path), Of(HandleWarmStart(drv, s)), kind);
    }
  }

  lemma OtherFine(drv: Driver, root: bool, s: State, ev: Event, kind: JobKind)
    requires !ev.HookEvent? && !(ev.Result? && root)
    ensures Fine(s.d, Of(Step(drv, root, s, ev)), kind)
  {
    if ev.WarmStart? {
      WarmStartFine(drv, s, kind);
    } else if root {
      if ev.Tick? { TickFine(drv, s, ev.project, ev.watched, ev.now, kind); }
      else if ev.FileChanged? {
        WatchThenParseFine(s.d, if s.d.transcriptPath == "" then ev.path else s.d.transcriptPath, kind);
      } else {
        Around(s.d, s.d, Stepped(s.d, []), Of(RootStep(drv, s, ev)), kind);
      }
    }
  }

  /**
   Every step of a Claude frame: a job starts exactly when its flag goes up, a result
   takes its flag down, and the watched file changes exactly with its watch effect.
   */
  lemma StepGuarded(drv: Driver, root: bool, s: State, ev: Event, kind: JobKind)
    ensures var r := Seen(drv, root, s, ev); StepOk(r, kind) && WatchKept(s.d, r.after)
  {
    if ev.HookEvent? {
      HookFine(drv, s, root, ev.hook, ev.at, kind);
      var h := Of(HandleHook(drv, s, root, ev.hook, ev.at));
      Around(s.d, s.d, h, Of(Step(drv, root, s, ev)), kind);
    } else if !(ev.Result? && root) {
      OtherFine(drv, root, s, ev, kind);
    }
  }

  /** A root hook that is neither out of order nor without a session. */
  predicate Accepted(s: State, hook: Hook, at: Time) {
    hook.sessionId != "" && (hook.name.SessionStart? || at == 0 || at > s.lastBridge)
  }

  /** The hooks that call for a fresh look at the transcript. */
  predicate ParseDue(hook: Hook) {
    !hook.name.SessionStart? && HookStatus(hook).Some? && (hook.name.UserPromptSubmit? || !hook.agentTool)
  }

  /** A tick of a watched, active session whose branch is stale. */
  predicate BranchDue(d: Driven, ev: Event, startDir: string) {
    && ev.Tick? && ev.watched && !d.status.status.Idle? && !d.status.status.Stopped? && startDir != ""
    && (startDir != d.branchTarget || ev.now - d.branchAt >= BRANCH_REFRESH)
  }

  lemma UserPromptWork(drv: Driver, s: State, hook: Hook, at: Time)
    ensures var t := HandleUserPromptSubmit(drv, s, hook, at).next;
            && t.d.summaryInFlight && (Resolve(drv, t) != "" ==> t.d.transcriptInFlight)
            && (hook.transcriptPath != "" ==> t.d.transcriptPath == hook.transcriptPath)
  {
  }

  lemma SessionStartWork(drv: Driver, s: State, hook: Hook, at: Time)
    ensures var t := HandleSessionStart(drv, s, hook, at).next;
            && (Resolve(drv, t) != "" ==> t.d.watchedFile == Resolve(drv, t))
            && (t.d.startDir != "" ==> t.d.branchInFlight)
            && (hook.transcriptPath != "" ==> t.d.transcriptPath == hook.transcriptPath)
  {
  }

  lemma StateChangeWork(drv: Driver, s: State, hook: Hook, status: S.Status, at: Time)
    ensures var t := HandleStateChange(drv, s, hook, status, at).next; Resolve(drv, t) != "" ==> t.d.transcriptInFlight
  {
  }

  /** Hooks do the work they are due, unless it is already under way. */
  lemma HookWorkUnderWay(drv: Driver, s: State, hook: Hook, at: Time)
    requires Accepted(s, hook, at)
    ensures var t := HandleHook(drv, s, true, hook, at).next;
            && (hook.name.UserPromptSubmit? ==> t.d.summaryInFlight)
            && (hook.name.SessionStart? ==>
                  && (Resolve(drv, t) != "" ==> t.d.watchedFile == Resolve(drv, t))
                  && (t.d.startDir != "" ==> t.d.branchInFlight))
            && (ParseDue(hook) && Resolve(drv, t) != "" ==> t.d.transcriptInFlight)
  {
    var t := s.(lastBridge := if at != 0 then at else s.lastBridge);
    if hook.name.SessionStart? {
      SessionStartWork(drv, s.(lastBridge := at), hook, at);
    } else if hook.name.UserPromptSubmit? {
      UserPromptWork(drv, t, hook, at);
    } else if HookStatus(hook).Some? {
      StateChangeWork(drv, t, hook, HookStatus(hook).value, at);
    }
  }

  /** So do a change of the transcript, a warm start and a tick. */
  lemma OtherWorkUnderWay(drv: Driver, s: State, ev: Event)
    ensures var t := Step(drv, true, s, ev).next;
            && (ev.FileChanged? && (s.d.transcriptPath != "" || ev.path != "") ==>
                  && t.d.transcriptInFlight
                  && t.d.watchedFile == if s.d.transcriptPath != "" then s.d.transcriptPath else ev.path)
            && (ev.WarmStart? && Resolve(drv, s) != "" ==>
                  t.d.transcriptInFlight && t.d.watchedFile == t.d.transcriptPath == Resolve(drv, s))
            && (BranchDue(s.d, ev, t.d.startDir) ==>
                  t.d.branchInFlight && (!s.d.branchInFlight ==> t.d.branchTarget == t.d.startDir))
            && (ev.Result? ==> !InFlight(t.d, ev.kind))
  {
  }

  // ----------------------------------------------------------------- every run

  function Claude(drv: Driver, root: bool): Reducer<State, Event> {
    Reducer((s, ev) => Step(drv, root, s, ev).next, (s, ev) => Seen(drv, root, s, ev), (s: State) => s.d)
  }

  lemma Sees(drv: Driver, root: bool, kind: JobKind)
    ensures forall s, ev :: Seeing(Claude(drv, root), s, ev, kind)
  {
    forall s, ev ensures Seeing(Claude(drv, root), s, ev, kind) { StepGuarded(drv, root, s, ev, kind); }
  }

  /** For every event sequence on a Claude frame, jobs started less results received is the flag. */
  lemma InFlightGuards(drv: Driver, root: bool, s: State, evs: seq<Event>, kind: JobKind)
    requires !InFlight(s.d, kind) && ResultsHaveJobs(Trace(Claude(drv, root), s, evs), kind)
    ensures Outstanding(Trace(Claude(drv, root), s, evs), kind) == Bit(InFlight(Run(Claude(drv, root), s, evs).d, kind))
  {
    Sees(drv, root, kind);
    TraceOk(Claude(drv, root), s, evs, kind);
    OutstandingIsFlag(s.d, Trace(Claude(drv, root), s, evs), kind);
  }

  /** A job whose result never comes back, as when the full worker queue drops it, blocks its kind for good. */
  lemma LostResultBlocks(drv: Driver, root: bool, s: State, evs: seq<Event>, kind: JobKind)
    requires InFlight(s.d, kind)
    requires forall i :: 0 <= i < |evs| ==> ResultOf(root, evs[i]) != Some(kind)
    ensures Outstanding(Trace(Claude(drv, root), s, evs), kind) == 0 && InFlight(Run(Claude(drv, root), s, evs).d, kind)
  {
    Sees(drv, root, kind);
    TraceOk(Claude(drv, root), s, evs, kind);
    TraceResults(Claude(drv, root), s, evs, kind);
    NoResultNoJob(s.d, Trace(Claude(drv, root), s, evs), kind);
  }

  /** The job of a kind that an event at `s` calls for, where `t` is the state after it. */
  predicate Due(drv: Driver, s: State, ev: Event, t: State, kind: JobKind) {
    match ev
    case HookEvent(hook, at) =>
      && Accepted(s, hook, at)
      && (match kind
          case Summary => hook.name.UserPromptSubmit?
          case Branch => hook.name.SessionStart? && t.d.startDir != ""
          case Transcript => ParseDue(hook) && Resolve(drv, t) != "")
    case FileChanged(path) => kind.Transcript? && (s.d.transcriptPath != "" || path != "")
    case WarmStart => kind.Transcript? && Resolve(drv, s) != ""
    case Tick(_, _, _) => kind.Branch? && BranchDue(s.d, ev, t.d.startDir)
    case _ => false
  }

  lemma DueUnderWay(drv: Driver, s: State, ev: Event, kind: JobKind)
    requires Due(drv, s, ev, Step(drv, true, s, ev).next, kind)
    ensures InFlight(Step(drv, true, s, ev).next.d, kind)
  {
    if ev.HookEvent? {
      HookWorkUnderWay(drv, s, ev.hook, ev.at);
    } else {
      OtherWorkUnderWay(drv, s, ev);
    }
  }

  lemma RunOneMore(drv: Driver, root: bool, s: State, evs: seq<Event>, ev: Event)
    ensures Run(Claude(drv, root), s, evs + [ev]) == Step(drv, root, Run(Claude(drv, root), s, evs), ev).next
  {
    assert (evs + [ev])[..|evs|] == evs;
  }

  /** After any run, an event that calls for a job leaves exactly one of its kind started and unanswered. */
  lemma OneJobOutstanding(drv: Driver, s: State, evs: seq<Event>, ev: Event, kind: JobKind)
    requires !InFlight(s.d, kind) && ResultsHaveJobs(Trace(Claude(drv, true), s, evs + [ev]), kind)
    requires var before := Run(Claude(drv, true), s, evs); Due(drv, before, ev, Step(drv, true, before, ev).next, kind)
    ensures Outstanding(Trace(Claude(drv, true), s, evs + [ev]), kind) == 1
  {
    InFlightGuards(drv, true, s, evs + [ev], kind);
    RunOneMore(drv, true, s, evs, ev);
    DueUnderWay(drv, Run(Claude(drv, true), s, evs), ev, kind);
  }
}
