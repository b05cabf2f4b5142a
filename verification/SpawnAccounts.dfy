/** Accounts of the spawn protocol: one place for each spawn, one holder for each binding. */
module SpawnAccounts {
  import opened SpawnLifecycle

  function LaneFrames(lane: seq<Completion>): seq<FrameId> {
    seq(|lane|, i requires 0 <= i < |lane| => lane[i].frame)
  }

  function OutcomeFrames(outcomes: seq<Outcome>): seq<FrameId> {
    seq(|outcomes|, i requires 0 <= i < |outcomes| => outcomes[i].frame)
  }

  function SettledSet(p: Spawns): set<FrameId> {
    set f | f in OutcomeFrames(p.outcomes)
  }

  /** In how many places a spawn is: running, completed, failed, settled or lost. */
  function Places(p: Spawns, f: FrameId): nat {
    (if f in p.jobs then 1 else 0) + multiset(LaneFrames(p.lane))[f] + multiset(p.eventCh)[SpawnFailed(f)]
      + multiset(OutcomeFrames(p.outcomes))[f] + (if f in p.dropped then 1 else 0)
  }

  predicate Placed(p: Spawns, f: FrameId) {
    Places(p, f) == if f in p.started then 1 else 0
  }

  ghost predicate SpawnsOk(p: Spawns) {
    && (forall f {:trigger Placed(p, f)} :: Placed(p, f))
    && p.pending == p.started - SettledSet(p)
  }

  function BoundJobs(jobs: map<FrameId, Phase>): set<FrameId> {
    set f | f in jobs && jobs[f].Bound?
  }

  /** Bindings held by spawns that have not settled. */
  function InFlight(p: Spawns): nat {
    |BoundJobs(p.jobs)| + |p.lane|
  }

  /** A frame with an undelivered spawn has not settled. */
  lemma Unsettled(p: Spawns, f: FrameId)
    requires Placed(p, f)
    ensures f in p.jobs || f in LaneFrames(p.lane) || SpawnFailed(f) in p.eventCh || f in p.dropped ==>
              f in p.started && f !in SettledSet(p)
    ensures f in p.jobs ==> f !in p.dropped
    ensures f !in p.started ==> f !in p.jobs && f !in SettledSet(p) && f !in p.dropped
  {
  }

  lemma SettleFrames(outcomes: seq<Outcome>, frame: FrameId, spawned: bool)
    ensures OutcomeFrames(outcomes + [Outcome(frame, spawned)]) == OutcomeFrames(outcomes) + [frame]
  {
  }

  lemma BeginOk(p: Spawns, frame: FrameId)
    requires SpawnsOk(p) && frame !in p.started
    ensures SpawnsOk(Begin(p, frame)) && SettledSet(Begin(p, frame)) == SettledSet(p)
    ensures InFlight(Begin(p, frame)) == InFlight(p)
  {
    var q := Begin(p, frame);
    assert Placed(p, frame);
    Unsettled(p, frame);
    assert BoundJobs(q.jobs) == BoundJobs(p.jobs);
    forall f ensures Placed(q, f) { assert Placed(p, f); }
  }

  lemma SetPhaseOk(p: Spawns, frame: FrameId, phase: Phase)
    requires SpawnsOk(p) && frame in p.jobs
    ensures SpawnsOk(SetPhase(p, frame, phase)) && SettledSet(SetPhase(p, frame, phase)) == SettledSet(p)
    ensures InFlight(SetPhase(p, frame, phase)) ==
              InFlight(p) + (if phase.Bound? then 1 else 0) - (if p.jobs[frame].Bound? then 1 else 0)
  {
    var q := SetPhase(p, frame, phase);
    var base := BoundJobs(p.jobs) - {frame};
    assert BoundJobs(q.jobs) == if phase.Bound? then base + {frame} else base;
    assert BoundJobs(p.jobs) == if p.jobs[frame].Bound? then base + {frame} else base;
    forall f ensures Placed(q, f) { assert Placed(p, f); }
  }

  lemma JobEnds(jobs: map<FrameId, Phase>, frame: FrameId)
    requires frame in jobs
    ensures |BoundJobs(jobs - {frame})| == |BoundJobs(jobs)| - (if jobs[frame].Bound? then 1 else 0)
  {
    var rest := BoundJobs(jobs - {frame});
    assert BoundJobs(jobs) == if jobs[frame].Bound? then rest + {frame} else rest;
  }

  lemma FailOk(cfg: Config, p: Spawns, frame: FrameId)
    requires SpawnsOk(p) && frame in p.jobs && p.jobs[frame].Failing?
    ensures SpawnsOk(Fail(cfg, p, frame)) && SettledSet(Fail(cfg, p, frame)) == SettledSet(p)
    ensures InFlight(Fail(cfg, p, frame)) == InFlight(p)
  {
    var q := Fail(cfg, p, frame);
    JobEnds(p.jobs, frame);
    assert Placed(p, frame);
    Unsettled(p, frame);
    forall f ensures Placed(q, f) { assert Placed(p, f); }
  }

  lemma CompleteOk(p: Spawns, frame: FrameId)
    requires SpawnsOk(p) && frame in p.jobs && p.jobs[frame].Bound?
    ensures SpawnsOk(Complete(p, frame)) && SettledSet(Complete(p, frame)) == SettledSet(p)
    ensures InFlight(Complete(p, frame)) == InFlight(p)
  {
    var q := Complete(p, frame);
    JobEnds(p.jobs, frame);
    assert LaneFrames(q.lane) == LaneFrames(p.lane) + [frame];
    forall f ensures Placed(q, f) { assert Placed(p, f); }
  }

  lemma PopLaneOk(p: Spawns, spawned: bool)
    requires SpawnsOk(p) && p.lane != []
    ensures SpawnsOk(PopLane(p, spawned)) && InFlight(PopLane(p, spawned)) == InFlight(p) - 1
    ensures var f := p.lane[0].frame;
            f in p.started && f !in SettledSet(p) && SettledSet(PopLane(p, spawned)) == SettledSet(p) + {f}
  {
    var q, frame := PopLane(p, spawned), p.lane[0].frame;
    assert LaneFrames(p.lane) == [frame] + LaneFrames(p.lane[1..]);
    assert Placed(p, frame);
    Unsettled(p, frame);
    SettleFrames(p.outcomes, frame, spawned);
    forall f ensures Placed(q, f) { assert Placed(p, f); }
  }

  lemma PopEventOk(p: Spawns)
    requires SpawnsOk(p) && p.eventCh != []
    ensures SpawnsOk(PopEvent(p)) && InFlight(PopEvent(p)) == InFlight(p)
    ensures SettledSet(PopEvent(p)) >= SettledSet(p)
  {
    var q, ev := PopEvent(p), p.eventCh[0];
    assert p.eventCh == [ev] + p.eventCh[1..];
    if ev.SpawnFailed? {
      assert Placed(p, ev.frame);
      Unsettled(p, ev.frame);
      SettleFrames(p.outcomes, ev.frame, false);
    }
    forall f ensures Placed(q, f) { assert Placed(p, f); }
  }

  lemma PostOtherOk(cfg: Config, p: Spawns)
    requires SpawnsOk(p)
    ensures var q := p.(eventCh := Enqueued(cfg, p.eventCh, OtherEvent));
            SpawnsOk(q) && InFlight(q) == InFlight(p) && SettledSet(q) == SettledSet(p)
  {
    var q := p.(eventCh := Enqueued(cfg, p.eventCh, OtherEvent));
    forall f ensures Placed(q, f) { assert Placed(p, f); }
  }

  // ------------------------------------------------------------------- tables

  ghost predicate TablesOk(t: Tables) {
    forall f :: f in t.frameSubsystemIDs ==>
      f in t.frameSubsystems && t.frameSubsystemIDs[f] == t.frameSubsystems[f]
  }

  /** Bindings held by registered frames and by discards not yet carried out. */
  function HeldByTables(t: Tables): nat {
    |t.frameSubsystems| + |t.discarding|
  }

  /** `u` is `t` with the frames in `gone` released. */
  ghost predicate Freed(t: Tables, u: Tables, gone: set<FrameId>) {
    && TablesOk(u) && u.discarding == t.discarding
    && (forall f :: f in u.frameSubsystems <==> f in t.frameSubsystems && f !in gone)
    && (forall f :: f in u.frameSubsystems ==> u.frameSubsystems[f] == t.frameSubsystems[f])
    && u.releases + HeldByTables(u) == t.releases + HeldByTables(t)
  }

  function Members(frames: seq<FrameId>): set<FrameId> {
    set f | f in frames
  }

  lemma FreedCons(t: Tables, u: Tables, v: Tables, frames: seq<FrameId>)
    requires frames != [] && Freed(t, u, {frames[0]}) && Freed(u, v, Members(frames[1..]))
    ensures Freed(t, v, Members(frames))
  {
    assert Members(frames) == {frames[0]} + Members(frames[1..]);
  }

  lemma ReleaseFrees(cfg: Config, t: Tables, frame: FrameId)
    requires TablesOk(t)
    ensures Freed(t, Release(cfg, t, frame), {frame})
  {
    if frame in t.frameSubsystems {
      assert t.frameSubsystems.Keys == (t.frameSubsystems - {frame}).Keys + {frame};
    }
  }

  lemma {:induction false} ReleaseAllFrees(cfg: Config, t: Tables, frames: seq<FrameId>)
    requires TablesOk(t)
    ensures Freed(t, ReleaseAll(cfg, t, frames), Members(frames))
    decreases |frames|
  {
    if frames != [] {
      var u := Release(cfg, t, frames[0]);
      ReleaseFrees(cfg, t, frames[0]);
      ReleaseAllFrees(cfg, u, frames[1..]);
      FreedCons(t, u, ReleaseAll(cfg, u, frames[1..]), frames);
    }
  }
}
