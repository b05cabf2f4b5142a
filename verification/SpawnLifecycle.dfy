/**
 Frame spawns that run off the event loop, kills that race with them, and the
 shared backends the frames are bound to (interpret_spawn.go, interpret.go,
 bootstrap_coldstart.go, and the reducer's frame eviction).

 Every step is one atomic section of the loop or of one spawn goroutine. A frame
 id is handed out once. Goroutine panics and daemon shutdown are not modelled.
 */
module SpawnLifecycle {
  import opened Wrappers

  type FrameId = string
  type SessionId = string
  type SubsystemId = string

  /** How far a `spawnFrameWindow` goroutine has come. */
  datatype Phase = Starting | Bound(sub: SubsystemId) | Failing

  /** `internalSpawnComplete` on the bulk lane. */
  datatype Completion = Completion(frame: FrameId, sub: SubsystemId)

  /** What travels on the event channel, which spawn failures share with every other event. */
  datatype Event = SpawnFailed(frame: FrameId) | OtherEvent

  datatype Outcome = Outcome(frame: FrameId, spawned: bool)

  /** A `Reaper.Remove` call, with the frames registered on that backend when it is issued. */
  datatype Removal = Removal(sub: SubsystemId, users: set<FrameId>)

  /** Channel capacities, and which backends come from a factory that is a `Reaper`. */
  datatype Config = Config(lane: nat, events: nat, reaps: SubsystemId -> bool)

  /** The spawns under way: goroutines, the two channels back to the loop, and what came of them. */
  datatype Spawns = Spawns(
    started: set<FrameId>, jobs: map<FrameId, Phase>, lane: seq<Completion>, eventCh: seq<Event>,
    pending: set<FrameId>, outcomes: seq<Outcome>, dropped: set<FrameId>)

  /** The loop-owned tables; `discarding` are the off-loop releases of discarded spawns. */
  datatype Tables = Tables(
    frameSubsystems: map<FrameId, SubsystemId>, frameSubsystemIDs: map<FrameId, SubsystemId>,
    discarding: set<FrameId>, releases: nat, removals: seq<Removal>)

  /** `home` is the session each frame id was created for. */
  datatype State = State(
    booting: bool, sessions: map<SessionId, seq<FrameId>>, home: map<FrameId, SessionId>,
    spawns: Spawns, tables: Tables, binds: nat)

  const INITIAL :=
    State(true, map[], map[], Spawns({}, map[], [], [], {}, [], {}), Tables(map[], map[], {}, 0, []), 0)

  datatype Step =
    | Restore(session: SessionId, frames: seq<FrameId>)
    | ColdSpawn(frame: FrameId, sub: SubsystemId, ok: bool)
    | StartLoop
    | Create(session: SessionId, frame: FrameId)
    | Push(session: SessionId, frame: FrameId)
    | EnsureOrBindFails(frame: FrameId)
    | Bind(frame: FrameId, sub: SubsystemId)
    | WrapOrSpawnFails(frame: FrameId)
    | PostFailure(frame: FrameId)
    | PostComplete(frame: FrameId)
    | HandleComplete
    | PostOther
    | HandleEvent
    | Exit(frame: FrameId, retain: bool)
    | AbnormalExit(frame: FrameId)
    | DiscardRelease(frame: FrameId)

  // -------------------------------------------------------------- loop tables

  function Users(table: map<FrameId, SubsystemId>, sub: SubsystemId): set<FrameId> {
    set f | f in table && table[f] == sub
  }

  /** `reapSubsystemIfLast`: the Remove call made when `frame` goes, if any. */
  function Reaped(cfg: Config, t: Tables, frame: FrameId): seq<Removal> {
    if frame !in t.frameSubsystemIDs then []
    else
      var sub := t.frameSubsystemIDs[frame];
      if Users(t.frameSubsystemIDs - {frame}, sub) != {} || !cfg.reaps(sub) then []
      else [Removal(sub, Users(t.frameSubsystems - {frame}, sub))]
  }

  /** `releaseFrameSubsystem`. */
  function Release(cfg: Config, t: Tables, frame: FrameId): Tables {
    if frame !in t.frameSubsystems then t
    else t.(frameSubsystems := t.frameSubsystems - {frame}, frameSubsystemIDs := t.frameSubsystemIDs - {frame},
            releases := t.releases + 1, removals := t.removals + Reaped(cfg, t, frame))
  }

  function ReleaseAll(cfg: Config, t: Tables, frames: seq<FrameId>): Tables
    decreases |frames|
  {
    if frames == [] then t else ReleaseAll(cfg, Release(cfg, t, frames[0]), frames[1..])
  }

  function Register(t: Tables, frame: FrameId, sub: SubsystemId): Tables {
    t.(frameSubsystems := t.frameSubsystems[frame := sub], frameSubsystemIDs := t.frameSubsystemIDs[frame := sub])
  }

  function Discard(t: Tables, frame: FrameId): Tables {
    t.(discarding := t.discarding + {frame})
  }

  function Discarded(t: Tables, frame: FrameId): Tables {
    t.(discarding := t.discarding - {frame}, releases := t.releases + 1)
  }

  // ------------------------------------------------------------------- spawns

  function Begin(p: Spawns, frame: FrameId): Spawns {
    p.(started := p.started + {frame}, jobs := p.jobs[frame := Starting], pending := p.pending + {frame})
  }

  function SetPhase(p: Spawns, frame: FrameId, phase: Phase): Spawns {
    p.(jobs := p.jobs[frame := phase])
  }

  /** `Enqueue`: an event that finds the channel full is dropped. */
  function Enqueued(cfg: Config, ch: seq<Event>, ev: Event): seq<Event> {
    if |ch| < cfg.events then ch + [ev] else ch
  }

  function Fail(cfg: Config, p: Spawns, frame: FrameId): Spawns {
    p.(jobs := p.jobs - {frame}, eventCh := Enqueued(cfg, p.eventCh, SpawnFailed(frame)),
       dropped := if |p.eventCh| < cfg.events then p.dropped else p.dropped + {frame})
  }

  /** `sendSpawnComplete` waits for room. */
  function Complete(p: Spawns, frame: FrameId): Spawns
    requires frame in p.jobs && p.jobs[frame].Bound?
  {
    p.(jobs := p.jobs - {frame}, lane := p.lane + [Completion(frame, p.jobs[frame].sub)])
  }

  /** `dispatch` of EvFrameSpawned or EvSpawnFailed: the outcome reaches the reducer. */
  function Settle(p: Spawns, frame: FrameId, spawned: bool): Spawns {
    p.(pending := p.pending - {frame}, outcomes := p.outcomes + [Outcome(frame, spawned)])
  }

  function PopLane(p: Spawns, spawned: bool): Spawns
    requires p.lane != []
  {
    Settle(p.(lane := p.lane[1..]), p.lane[0].frame, spawned)
  }

  function PopEvent(p: Spawns): Spawns
    requires p.eventCh != []
  {
    var rest := p.(eventCh := p.eventCh[1..]);
    if p.eventCh[0].SpawnFailed? then Settle(rest, p.eventCh[0].frame, false) else rest
  }

  // -------------------------------------------------------------------- steps

  /** `spawnTargetAlive` and `findFrame`: a frame lives in its home session or nowhere. */
  predicate Alive(s: State, frame: FrameId) {
    frame in s.home && s.home[frame] in s.sessions && frame in s.sessions[s.home[frame]]
  }

  function RemoveFirst(frames: seq<FrameId>, frame: FrameId): seq<FrameId> {
    if frames == [] then []
    else if frames[0] == frame then frames[1..]
    else [frames[0]] + RemoveFirst(frames[1..], frame)
  }

  /** `evictFrame`: the root takes its whole session with it, a child goes alone. */
  function Evict(cfg: Config, s: State, frame: FrameId, retain: bool): State {
    if !Alive(s, frame) then s
    else
      var session := s.home[frame];
      var frames := s.sessions[session];
      if frames[0] == frame then
        s.(sessions := if retain then s.sessions[session := []] else s.sessions - {session},
           tables := ReleaseAll(cfg, s.tables, frames))
      else
        s.(sessions := s.sessions[session := RemoveFirst(frames, frame)], tables := Release(cfg, s.tables, frame))
  }

  /** `handleSpawnComplete`: register, or give back what the goroutine acquired. */
  function HandleCompletion(s: State): State
    requires s.spawns.lane != []
  {
    var done := s.spawns.lane[0];
    if Alive(s, done.frame)
    then s.(spawns := PopLane(s.spawns, true), tables := Register(s.tables, done.frame, done.sub))
    else s.(spawns := PopLane(s.spawns, false), tables := Discard(s.tables, done.frame))
  }

  function AddFrame(s: State, session: SessionId, frame: FrameId): State {
    var frames := if session in s.sessions then s.sessions[session] + [frame] else [frame];
    s.(sessions := s.sessions[session := frames], home := s.home[frame := session], spawns := Begin(s.spawns, frame))
  }

  predicate JobIn(p: Spawns, frame: FrameId, bound: bool) {
    frame in p.jobs && (if bound then p.jobs[frame].Bound? else p.jobs[frame].Starting?)
  }

  predicate Enabled(cfg: Config, s: State, step: Step) {
    match step
    case Restore(session, frames) => s.booting && session !in s.sessions && forall f :: f in frames ==> f !in s.home
    case ColdSpawn(f, _, _) => s.booting && Alive(s, f) && f !in s.tables.frameSubsystems
    case StartLoop => s.booting
    case Create(session, f) => !s.booting && session !in s.sessions && f !in s.home
    case Push(session, f) => !s.booting && session in s.sessions && s.sessions[session] != [] && f !in s.home
    case EnsureOrBindFails(f) => JobIn(s.spawns, f, false)
    case Bind(f, _) => JobIn(s.spawns, f, false)
    case WrapOrSpawnFails(f) => JobIn(s.spawns, f, true)
    case PostFailure(f) => f in s.spawns.jobs && s.spawns.jobs[f].Failing?
    case PostComplete(f) => JobIn(s.spawns, f, true) && |s.spawns.lane| < cfg.lane
    case HandleComplete => !s.booting && s.spawns.lane != []
    case PostOther => true
    case HandleEvent => !s.booting && s.spawns.eventCh != []
    case Exit(f, _) => !s.booting && Alive(s, f)
    case AbnormalExit(f) => !s.booting && Alive(s, f)
    case DiscardRelease(f) => f in s.tables.discarding
  }

  function Next(cfg: Config, s: State, step: Step): State
    requires Enabled(cfg, s, step)
  {
    match step
    case Restore(session, frames) =>
      s.(sessions := s.sessions[session := frames], home := s.home + (map f | f in frames :: session))
    case ColdSpawn(f, sub, ok) =>
      s.(binds := s.binds + 1,
         tables := if ok then s.tables.(frameSubsystems := s.tables.frameSubsystems[f := sub])
                   else s.tables.(releases := s.tables.releases + 1))
    case StartLoop => s.(booting := false)
    case Create(session, f) => AddFrame(s, session, f)
    case Push(session, f) => AddFrame(s, session, f)
    case EnsureOrBindFails(f) => s.(spawns := SetPhase(s.spawns, f, Failing))
    case Bind(f, sub) => s.(spawns := SetPhase(s.spawns, f, Bound(sub)), binds := s.binds + 1)
    case WrapOrSpawnFails(f) =>
      s.(spawns := SetPhase(s.spawns, f, Failing), tables := s.tables.(releases := s.tables.releases + 1))
    case PostFailure(f) => s.(spawns := Fail(cfg, s.spawns, f))
    case PostComplete(f) => s.(spawns := Complete(s.spawns, f))
    case HandleComplete => HandleCompletion(s)
    case PostOther => s.(spawns := s.spawns.(eventCh := Enqueued(cfg, s.spawns.eventCh, OtherEvent)))
    case HandleEvent =>
      var popped := s.(spawns := PopEvent(s.spawns));
      if s.spawns.eventCh[0].SpawnFailed? then Evict(cfg, popped, s.spawns.eventCh[0].frame, false) else popped
    case Exit(f, retain) => Evict(cfg, s, f, retain)
    case AbnormalExit(f) => s.(tables := Release(cfg, s.tables, f))
    case DiscardRelease(f) => s.(tables := Discarded(s.tables, f))
  }

  predicate Possible(cfg: Config, steps: seq<Step>) {
    steps == [] || (Possible(cfg, steps[..|steps| - 1]) &&
                    Enabled(cfg, Run(cfg, steps[..|steps| - 1]), steps[|steps| - 1]))
  }

  function Run(cfg: Config, steps: seq<Step>): State {
    if steps == [] || !Enabled(cfg, Run(cfg, steps[..|steps| - 1]), steps[|steps| - 1]) then INITIAL
    else Next(cfg, Run(cfg, steps[..|steps| - 1]), steps[|steps| - 1])
  }
}
