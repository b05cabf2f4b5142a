/** What every step of the spawn protocol keeps. */
module SpawnInvariant {
  import opened SpawnLifecycle
  import opened SpawnAccounts

  predicate Homed(s: State, sid: SessionId, f: FrameId) {
    sid in s.sessions && f in s.sessions[sid] ==> f in s.home && s.home[f] == sid
  }

  /** No loop table holds a frame the reducer has dropped. */
  predicate Registered(s: State, f: FrameId) {
    f in s.tables.frameSubsystems ==> Alive(s, f) && (f in s.spawns.started ==> f in SettledSet(s.spawns))
  }

  ghost predicate Linked(s: State) {
    && (forall sid, f {:trigger Homed(s, sid, f)} :: Homed(s, sid, f))
    && (forall f {:trigger Registered(s, f)} :: Registered(s, f))
    && s.spawns.started <= s.home.Keys
    && s.tables.discarding <= SettledSet(s.spawns)
    && (s.booting ==> s.spawns.started == {})
  }

  /** Bind and release calls balance against the bindings still held. */
  predicate Balanced(s: State) {
    s.binds == s.tables.releases + InFlight(s.spawns) + HeldByTables(s.tables)
  }

  ghost predicate Inv(s: State) {
    SpawnsOk(s.spawns) && TablesOk(s.tables) && Linked(s) && Balanced(s)
  }

  lemma {:induction false} RemoveFirstMembers(frames: seq<FrameId>, frame: FrameId)
    ensures forall f :: f in RemoveFirst(frames, frame) ==> f in frames
    ensures forall f :: f in frames && f != frame ==> f in RemoveFirst(frames, frame)
  {
    if frames != [] && frames[0] != frame {
      RemoveFirstMembers(frames[1..], frame);
      assert frames == [frames[0]] + frames[1..];
    }
  }

  /** Sessions shrink, and everything that left them is released. */
  lemma ShrinkKeeps(s: State, t: State, gone: set<FrameId>)
    requires Inv(s) && t == s.(sessions := t.sessions, tables := t.tables) && Freed(s.tables, t.tables, gone)
    requires forall sid, f :: sid in t.sessions && f in t.sessions[sid] ==> sid in s.sessions && f in s.sessions[sid]
    requires forall f :: Alive(s, f) && f !in gone ==> Alive(t, f)
    ensures Inv(t)
  {
    forall sid, f ensures Homed(t, sid, f) { assert Homed(s, sid, f); }
    forall f ensures Registered(t, f) { assert Registered(s, f); }
  }

  lemma EvictRootKeeps(cfg: Config, s: State, frame: FrameId, retain: bool)
    requires Inv(s) && Alive(s, frame) && s.sessions[s.home[frame]][0] == frame
    ensures Inv(Evict(cfg, s, frame, retain))
  {
    var frames := s.sessions[s.home[frame]];
    ReleaseAllFrees(cfg, s.tables, frames);
    ShrinkKeeps(s, Evict(cfg, s, frame, retain), Members(frames));
  }

  lemma EvictKeeps(cfg: Config, s: State, frame: FrameId, retain: bool)
    requires Inv(s)
    ensures Inv(Evict(cfg, s, frame, retain))
  {
    if Alive(s, frame) {
      var frames := s.sessions[s.home[frame]];
      if frames[0] == frame {
        EvictRootKeeps(cfg, s, frame, retain);
      } else {
        RemoveFirstMembers(frames, frame);
        ReleaseFrees(cfg, s.tables, frame);
        ShrinkKeeps(s, Evict(cfg, s, frame, retain), {frame});
      }
    }
  }

  lemma AbnormalExitKeeps(cfg: Config, s: State, frame: FrameId)
    requires Inv(s)
    ensures Inv(s.(tables := Release(cfg, s.tables, frame)))
  {
    ReleaseFrees(cfg, s.tables, frame);
    ShrinkKeeps(s, s.(tables := Release(cfg, s.tables, frame)), {frame});
  }

  lemma AddFrameKeeps(s: State, session: SessionId, frame: FrameId)
    requires Inv(s) && frame !in s.home && !s.booting
    ensures Inv(AddFrame(s, session, frame))
  {
    var t := AddFrame(s, session, frame);
    BeginOk(s.spawns, frame);
    forall sid, f ensures Homed(t, sid, f) { assert Homed(s, sid, f); }
    forall f ensures Registered(t, f) { assert Registered(s, f); }
  }

  /** A goroutine or a channel moves; the frames and the tables stay. */
  lemma SpawnsMoveKeeps(s: State, spawns: Spawns, binds: nat, releases: nat)
    requires Inv(s) && SpawnsOk(spawns) && spawns.started == s.spawns.started
    requires SettledSet(spawns) >= SettledSet(s.spawns)
    requires binds - releases - InFlight(spawns) == s.binds - s.tables.releases - InFlight(s.spawns)
    ensures Inv(s.(spawns := spawns, binds := binds, tables := s.tables.(releases := releases)))
  {
    var t := s.(spawns := spawns, binds := binds, tables := s.tables.(releases := releases));
    forall sid, f ensures Homed(t, sid, f) { assert Homed(s, sid, f); }
    forall f ensures Registered(t, f) { assert Registered(s, f); }
  }

  lemma CompletionKeeps(s: State)
    requires Inv(s) && s.spawns.lane != []
    ensures Inv(HandleCompletion(s))
  {
    var frame, t := s.spawns.lane[0].frame, HandleCompletion(s);
    PopLaneOk(s.spawns, Alive(s, frame));
    assert Registered(s, frame);
    assert frame !in s.tables.frameSubsystems && frame !in s.tables.discarding;
    if Alive(s, frame) {
      assert t.tables.frameSubsystems.Keys == s.tables.frameSubsystems.Keys + {frame};
    }
    forall sid, f ensures Homed(t, sid, f) { assert Homed(s, sid, f); }
    forall f ensures Registered(t, f) { assert Registered(s, f); }
  }

  lemma BootKeeps(cfg: Config, s: State, step: Step)
    requires Inv(s) && Enabled(cfg, s, step)
    requires step.Restore? || step.ColdSpawn? || step.StartLoop?
    ensures Inv(Next(cfg, s, step))
  {
    var t := Next(cfg, s, step);
    if step.ColdSpawn? && step.ok {
      assert t.tables.frameSubsystems.Keys == s.tables.frameSubsystems.Keys + {step.frame};
      assert Registered(s, step.frame);
      assert step.frame !in s.tables.frameSubsystemIDs;
    }
    forall sid, f ensures Homed(t, sid, f) { assert Homed(s, sid, f); }
    forall f ensures Registered(t, f) { assert Registered(s, f); }
  }

  lemma DiscardedKeeps(s: State, frame: FrameId)
    requires Inv(s) && frame in s.tables.discarding
    ensures Inv(s.(tables := Discarded(s.tables, frame)))
  {
    var t := s.(tables := Discarded(s.tables, frame));
    forall sid, f ensures Homed(t, sid, f) { assert Homed(s, sid, f); }
    forall f ensures Registered(t, f) { assert Registered(s, f); }
  }

  lemma GoroutineKeeps(cfg: Config, s: State, step: Step)
    requires Inv(s) && Enabled(cfg, s, step)
    requires step.EnsureOrBindFails? || step.Bind? || step.WrapOrSpawnFails? || step.PostFailure? || step.PostComplete?
    ensures Inv(Next(cfg, s, step))
  {
    var p, t := s.spawns, Next(cfg, s, step);
    match step {
      case EnsureOrBindFails(f) => SetPhaseOk(p, f, Failing);
      case Bind(f, sub) => SetPhaseOk(p, f, Bound(sub));
      case WrapOrSpawnFails(f) => SetPhaseOk(p, f, Failing);
      case PostFailure(f) => FailOk(cfg, p, f);
      case PostComplete(f) => CompleteOk(p, f);
    }
    SpawnsMoveKeeps(s, t.spawns, t.binds, t.tables.releases);
  }

  /** Every step of the loop and of every spawn goroutine keeps the invariant. */
  lemma NextKeeps(cfg: Config, s: State, step: Step)
    requires Inv(s) && Enabled(cfg, s, step)
    ensures Inv(Next(cfg, s, step))
  {
    match step
    case Restore(_, _) => BootKeeps(cfg, s, step);
    case ColdSpawn(_, _, _) => BootKeeps(cfg, s, step);
    case StartLoop => BootKeeps(cfg, s, step);
    case Create(session, f) => AddFrameKeeps(s, session, f);
    case Push(session, f) => AddFrameKeeps(s, session, f);
    case EnsureOrBindFails(_) => GoroutineKeeps(cfg, s, step);
    case Bind(_, _) => GoroutineKeeps(cfg, s, step);
    case WrapOrSpawnFails(_) => GoroutineKeeps(cfg, s, step);
    case PostFailure(_) => GoroutineKeeps(cfg, s, step);
    case PostComplete(_) => GoroutineKeeps(cfg, s, step);
    case HandleComplete => CompletionKeeps(s);
    case PostOther =>
      PostOtherOk(cfg, s.spawns);
      SpawnsMoveKeeps(s, Next(cfg, s, step).spawns, s.binds, s.tables.releases);
    case HandleEvent =>
      var popped := s.(spawns := PopEvent(s.spawns));
      PopEventOk(s.spawns);
      SpawnsMoveKeeps(s, popped.spawns, s.binds, s.tables.releases);
      if s.spawns.eventCh[0].SpawnFailed? { EvictKeeps(cfg, popped, s.spawns.eventCh[0].frame, false); }
    case Exit(f, retain) => EvictKeeps(cfg, s, f, retain);
    case AbnormalExit(f) => AbnormalExitKeeps(cfg, s, f);
    case DiscardRelease(f) => DiscardedKeeps(s, f);
  }

  lemma {:induction false} RunKeeps(cfg: Config, steps: seq<Step>)
    requires Possible(cfg, steps)
    ensures Inv(Run(cfg, steps))
  {
    if steps == [] {
      forall f ensures Placed(INITIAL.spawns, f) {}
    } else {
      RunKeeps(cfg, steps[..|steps| - 1]);
      NextKeeps(cfg, Run(cfg, steps[..|steps| - 1]), steps[|steps| - 1]);
    }
  }
}
