/** What every run of the spawn protocol guarantees, and the runs where it falls short. */
module SpawnProperties {
  import opened SpawnLifecycle
  import opened SpawnAccounts
  import opened SpawnInvariant

  /**
   Spawn conservation. Successful binds minus releases are exactly the bindings of
   spawns in flight, of registered frames, and of discarded spawns whose release
   is still to run.
   */
  lemma BindingsBalance(cfg: Config, steps: seq<Step>)
    requires Possible(cfg, steps)
    ensures var s := Run(cfg, steps);
            s.binds - s.tables.releases ==
              |BoundJobs(s.spawns.jobs)| + |s.spawns.lane| + |s.tables.frameSubsystems| + |s.tables.discarding|
  {
    RunKeeps(cfg, steps);
  }

  /** No loop table ever holds a frame the reducer has dropped; `findFrame` finds a frame in at most one session. */
  lemma OnlyLiveFramesRegistered(cfg: Config, steps: seq<Step>, f: FrameId)
    requires Possible(cfg, steps)
    ensures var s := Run(cfg, steps);
            && (f in s.tables.frameSubsystems || f in s.tables.frameSubsystemIDs ==>
                  exists sid :: sid in s.sessions && f in s.sessions[sid])
            && (forall a, b :: a in s.sessions && b in s.sessions && f in s.sessions[a] && f in s.sessions[b] ==> a == b)
  {
    RunKeeps(cfg, steps);
    var s := Run(cfg, steps);
    assert Registered(s, f);
    forall a, b | a in s.sessions && b in s.sessions && f in s.sessions[a] && f in s.sessions[b] ensures a == b {
      assert Homed(s, a, f) && Homed(s, b, f);
    }
  }

  function Outcomes(s: State, f: FrameId): nat {
    multiset(OutcomeFrames(s.spawns.outcomes))[f]
  }

  predicate Undelivered(s: State, f: FrameId) {
    f in s.spawns.jobs || f in LaneFrames(s.spawns.lane) || SpawnFailed(f) in s.spawns.eventCh
  }

  /**
   A spawn yields at most one of EvFrameSpawned and EvSpawnFailed; it has yielded
   exactly one unless it is still on its way or its failure was dropped, and until
   then its frame is pending.
   */
  lemma OneOutcome(cfg: Config, steps: seq<Step>, f: FrameId)
    requires Possible(cfg, steps)
    ensures var s := Run(cfg, steps);
            && Outcomes(s, f) <= 1
            && (f in s.spawns.started ==>
                  (Outcomes(s, f) == 1 <==> !Undelivered(s, f) && f !in s.spawns.dropped))
            && (f in s.spawns.pending <==> f in s.spawns.started && Outcomes(s, f) == 0)
  {
    RunKeeps(cfg, steps);
    assert Placed(Run(cfg, steps).spawns, f);
  }

  function RunFrom(cfg: Config, s: State, steps: seq<Step>): State
    decreases |steps|
  {
    if steps == [] || !Enabled(cfg, s, steps[0]) then s else RunFrom(cfg, Next(cfg, s, steps[0]), steps[1..])
  }

  /** A failure dropped on a full event channel is never made up for: its frame stays pending in every continuation. */
  lemma {:induction false} DroppedStaysPending(cfg: Config, s: State, more: seq<Step>, f: FrameId)
    requires Inv(s) && f in s.spawns.dropped
    ensures var t := RunFrom(cfg, s, more);
            f in t.spawns.pending && Outcomes(t, f) == 0 && f in t.spawns.dropped
    decreases |more|
  {
    assert Placed(s.spawns, f);
    if more != [] && Enabled(cfg, s, more[0]) {
      NextKeeps(cfg, s, more[0]);
      DroppedIff(cfg, s, more[0]);
      DroppedStaysPending(cfg, Next(cfg, s, more[0]), more[1..], f);
    }
  }

  lemma DroppedKept(cfg: Config, s: State, step: Step)
    requires Enabled(cfg, s, step) && !step.PostFailure?
    ensures Next(cfg, s, step).spawns.dropped == s.spawns.dropped
  {
  }

  /** A failure is lost exactly when it is posted to a full event channel, whatever fills it. */
  lemma DroppedIff(cfg: Config, s: State, step: Step)
    requires Inv(s) && Enabled(cfg, s, step)
    ensures Next(cfg, s, step).spawns.dropped != s.spawns.dropped <==>
              step.PostFailure? && |s.spawns.eventCh| >= cfg.events
    ensures Next(cfg, s, step).spawns.dropped ==
              s.spawns.dropped + if step.PostFailure? && |s.spawns.eventCh| >= cfg.events then {step.frame} else {}
  {
    if step.PostFailure? {
      assert Placed(s.spawns, step.frame);
    } else {
      DroppedKept(cfg, s, step);
    }
  }

  // ---------------------------------------------------------- shared backends

  /**
   When a registered frame is released, Remove is called exactly as it should be
   (its backend has a reaper and no other registered frame is on it) unless cold
   start left the two tables apart: a warm frame whose only company is cold reaps
   a backend in use, and a cold frame reaps nothing even when it is the last.
   */
  lemma RemoveExactIff(cfg: Config, t: Tables, frame: FrameId)
    requires TablesOk(t) && frame in t.frameSubsystems
    ensures var sub := t.frameSubsystems[frame];
            var others := Users(t.frameSubsystems - {frame}, sub);
            var warmOthers := Users(t.frameSubsystemIDs - {frame}, sub);
            (Reaped(cfg, t, frame) == if cfg.reaps(sub) && others == {} then [Removal(sub, {})] else [])
              <==> (|| !cfg.reaps(sub)
                    || (if frame in t.frameSubsystemIDs then warmOthers != {} || others == {} else others != {}))
  {
    var sub := t.frameSubsystems[frame];
    assert Users(t.frameSubsystemIDs - {frame}, sub) <= Users(t.frameSubsystems - {frame}, sub);
  }

  predicate NoColdSpawn(steps: seq<Step>) {
    forall i :: 0 <= i < |steps| ==> !steps[i].ColdSpawn?
  }

  ghost predicate Warm(t: Tables) {
    && t.frameSubsystemIDs == t.frameSubsystems
    && forall i :: 0 <= i < |t.removals| ==> t.removals[i].users == {}
  }

  lemma {:induction false} ReleaseAllWarm(cfg: Config, t: Tables, frames: seq<FrameId>)
    requires Warm(t)
    ensures Warm(ReleaseAll(cfg, t, frames))
    decreases |frames|
  {
    if frames != [] {
      ReleaseAllWarm(cfg, Release(cfg, t, frames[0]), frames[1..]);
    }
  }

  lemma NextWarm(cfg: Config, s: State, step: Step)
    requires Warm(s.tables) && Enabled(cfg, s, step) && !step.ColdSpawn?
    ensures Warm(Next(cfg, s, step).tables)
  {
    if step.Exit? && Alive(s, step.frame) {
      ReleaseAllWarm(cfg, s.tables, s.sessions[s.home[step.frame]]);
    } else if step.HandleEvent? && s.spawns.eventCh[0].SpawnFailed? && Alive(s, s.spawns.eventCh[0].frame) {
      ReleaseAllWarm(cfg, s.tables, s.sessions[s.home[s.spawns.eventCh[0].frame]]);
    }
  }

  /**
   Shared-backend safety. In every run without a cold start, Remove was never
   called while a registered frame was on the backend, and it is called exactly
   when the last one goes.
   */
  lemma {:induction false} SharedBackendSafe(cfg: Config, steps: seq<Step>)
    requires Possible(cfg, steps) && NoColdSpawn(steps)
    ensures var t := Run(cfg, steps).tables;
            && Warm(t)
            && forall f :: f in t.frameSubsystems ==>
                 var sub := t.frameSubsystems[f];
                 Reaped(cfg, t, f) ==
                   if cfg.reaps(sub) && Users(t.frameSubsystems - {f}, sub) == {} then [Removal(sub, {})] else []
  {
    if steps != [] {
      SharedBackendSafe(cfg, steps[..|steps| - 1]);
      NextWarm(cfg, Run(cfg, steps[..|steps| - 1]), steps[|steps| - 1]);
    }
    RunKeeps(cfg, steps);
    var t := Run(cfg, steps).tables;
    forall f | f in t.frameSubsystems
      ensures var sub := t.frameSubsystems[f];
              Reaped(cfg, t, f) ==
                if cfg.reaps(sub) && Users(t.frameSubsystems - {f}, sub) == {} then [Removal(sub, {})] else []
    {
      RemoveExactIff(cfg, t, f);
    }
  }

  // ------------------------------------------- every Remove, and spawns in flight

  function Calls(removals: seq<Removal>, sub: SubsystemId): nat {
    if removals == [] then 0
    else Calls(removals[..|removals| - 1], sub) + if removals[|removals| - 1].sub == sub then 1 else 0
  }

  lemma CallsAppend(removals: seq<Removal>, r: Removal, sub: SubsystemId)
    ensures Calls(removals + [r], sub) == Calls(removals, sub) + if r.sub == sub then 1 else 0
  {
    assert (removals + [r])[..|removals|] == removals;
  }

  /** The frames a step gives up, in order. */
  function Given(s: State, step: Step): seq<FrameId> {
    match step
    case Exit(f, _) => EvictedWith(s, f)
    case HandleEvent =>
      if s.spawns.eventCh != [] && s.spawns.eventCh[0].SpawnFailed? then EvictedWith(s, s.spawns.eventCh[0].frame)
      else []
    case AbnormalExit(f) => [f]
    case _ => []
  }

  function EvictedWith(s: State, f: FrameId): seq<FrameId> {
    if !Alive(s, f) then []
    else if s.sessions[s.home[f]][0] == f then s.sessions[s.home[f]] else [f]
  }

  /** `sub` has a reaper, and the frames given up hold all the frames in the reaping table that are on it. */
  predicate LastOf(cfg: Config, t: Tables, frames: seq<FrameId>, sub: SubsystemId) {
    && cfg.reaps(sub) && Users(t.frameSubsystemIDs, sub) != {}
    && forall f :: f in Users(t.frameSubsystemIDs, sub) ==> f in frames
  }

  lemma ReleaseCalls(cfg: Config, t: Tables, frame: FrameId, sub: SubsystemId)
    requires TablesOk(t)
    ensures TablesOk(Release(cfg, t, frame))
    ensures Users(Release(cfg, t, frame).frameSubsystemIDs, sub) == Users(t.frameSubsystemIDs, sub) - {frame}
    ensures Calls(Release(cfg, t, frame).removals, sub) ==
            Calls(t.removals, sub) + if LastOf(cfg, t, [frame], sub) then 1 else 0
  {
    var reaped := Reaped(cfg, t, frame);
    assert reaped == [] || t.removals + reaped == t.removals + [reaped[0]];
    if reaped != [] {
      CallsAppend(t.removals, reaped[0], sub);
    }
    assert t.removals + [] == t.removals;
    var users := Users(t.frameSubsystemIDs, sub);
    assert Users(t.frameSubsystemIDs - {frame}, sub) == users - {frame};
    assert LastOf(cfg, t, [frame], sub) <==> cfg.reaps(sub) && users == {frame};
  }

  /** Giving up frames one by one calls Remove once for each backend it leaves without a frame. */
  lemma {:induction false} ReleaseAllCalls(cfg: Config, t: Tables, frames: seq<FrameId>, sub: SubsystemId)
    requires TablesOk(t)
    ensures Calls(ReleaseAll(cfg, t, frames).removals, sub) ==
            Calls(t.removals, sub) + if LastOf(cfg, t, frames, sub) then 1 else 0
    decreases |frames|
  {
    if frames != [] {
      var u := Release(cfg, t, frames[0]);
      ReleaseCalls(cfg, t, frames[0], sub);
      ReleaseAllCalls(cfg, u, frames[1..], sub);
      assert frames == [frames[0]] + frames[1..];
    }
  }

  /** Every step calls Remove for `sub` at most once, and does iff it gives up the last frames on it. */
  lemma RemoveCalledIff(cfg: Config, s: State, step: Step, sub: SubsystemId)
    requires Inv(s) && Enabled(cfg, s, step)
    ensures Calls(Next(cfg, s, step).tables.removals, sub) ==
            Calls(s.tables.removals, sub) + if LastOf(cfg, s.tables, Given(s, step), sub) then 1 else 0
  {
    var frames := Given(s, step);
    ReleaseAllCalls(cfg, s.tables, frames, sub);
    if |frames| == 1 {
      assert frames[1..] == [];
      assert ReleaseAll(cfg, s.tables, frames) == Release(cfg, s.tables, frames[0]);
    }
  }

  /** A spawn on its way to the loop is bound to `sub`. */
  predicate InFlightOn(p: Spawns, sub: SubsystemId) {
    || (exists f :: f in p.jobs && p.jobs[f] == Bound(sub))
    || (exists i :: 0 <= i < |p.lane| && p.lane[i].sub == sub)
  }

  /** A step removes a backend that a spawn in flight is bound to. */
  predicate RemovesInFlight(cfg: Config, s: State, step: Step, sub: SubsystemId)
    requires Enabled(cfg, s, step)
  {
    && Calls(Next(cfg, s, step).tables.removals, sub) > Calls(s.tables.removals, sub)
    && InFlightOn(Next(cfg, s, step).spawns, sub)
  }

  /** It does so iff it gives up the last registered frames while such a spawn is under way. */
  lemma RemovesInFlightIff(cfg: Config, s: State, step: Step, sub: SubsystemId)
    requires Inv(s) && Enabled(cfg, s, step)
    ensures RemovesInFlight(cfg, s, step, sub) <==>
            LastOf(cfg, s.tables, Given(s, step), sub) && InFlightOn(s.spawns, sub)
  {
    RemoveCalledIff(cfg, s, step, sub);
    if Given(s, step) != [] {
      assert Next(cfg, s, step).spawns.jobs == s.spawns.jobs && Next(cfg, s, step).spawns.lane == s.spawns.lane;
    }
  }

  // ------------------------------------------------------- where it falls short

  ghost predicate Reached(cfg: Config, s: State) {
    exists steps :: Possible(cfg, steps) && Run(cfg, steps) == s
  }

  lemma ReachedNext(cfg: Config, s: State, step: Step, t: State)
    requires Reached(cfg, s) && Enabled(cfg, s, step) && Next(cfg, s, step) == t
    ensures Reached(cfg, t)
  {
    var steps :| Possible(cfg, steps) && Run(cfg, steps) == s;
    assert (steps + [step])[..|steps + [step]| - 1] == steps;
    assert Possible(cfg, steps + [step]) && Run(cfg, steps + [step]) == t;
  }

  /** A loop at rest: no spawn under way. */
  predicate AtRest(s: State) {
    !s.booting && s.spawns.jobs == map[] && s.spawns.lane == []
  }

  function WithBound(s: State, sid: SessionId, f: FrameId, sub: SubsystemId): State {
    var p := Begin(s.spawns, f);
    s.(sessions := s.sessions[sid := [f]], home := s.home[f := sid],
       spawns := SetPhase(p, f, Bound(sub)), binds := s.binds + 1)
  }

  lemma BoundReached(cfg: Config, s: State, sid: SessionId, f: FrameId, sub: SubsystemId)
    requires Reached(cfg, s) && AtRest(s) && sid !in s.sessions && f !in s.home
    ensures Reached(cfg, WithBound(s, sid, f, sub))
  {
    var t := AddFrame(s, sid, f);
    ReachedNext(cfg, s, Create(sid, f), t);
    ReachedNext(cfg, t, Bind(f, sub), WithBound(s, sid, f, sub));
  }

  function WithFrame(s: State, sid: SessionId, f: FrameId, sub: SubsystemId): State {
    s.(sessions := s.sessions[sid := [f]], home := s.home[f := sid], binds := s.binds + 1,
       spawns := s.spawns.(started := s.spawns.started + {f}, pending := s.spawns.pending - {f},
                           outcomes := s.spawns.outcomes + [Outcome(f, true)]),
       tables := Register(s.tables, f, sub))
  }

  lemma FrameReached(cfg: Config, s: State, sid: SessionId, f: FrameId, sub: SubsystemId)
    requires Reached(cfg, s) && AtRest(s) && sid !in s.sessions && f !in s.home && cfg.lane > 0
    ensures Reached(cfg, WithFrame(s, sid, f, sub)) && AtRest(WithFrame(s, sid, f, sub))
  {
    BoundReached(cfg, s, sid, f, sub);
    var t := WithBound(s, sid, f, sub);
    var u := t.(spawns := Complete(t.spawns, f));
    ReachedNext(cfg, t, PostComplete(f), u);
    assert u.spawns.lane == [Completion(f, sub)] && u.spawns.jobs == map[];
    assert u.spawns.lane[1..] == [] && u.spawns.pending - {f} == s.spawns.pending - {f};
    ReachedNext(cfg, u, HandleComplete, WithFrame(s, sid, f, sub));
  }

  lemma RootExit(cfg: Config, s: State, sid: SessionId, f: FrameId)
    requires Reached(cfg, s) && !s.booting && sid in s.sessions && s.sessions[sid] == [f]
    requires f in s.home && s.home[f] == sid
    ensures Reached(cfg, s.(sessions := s.sessions[sid := []], tables := Release(cfg, s.tables, f)))
  {
    assert [f][1..] == [];
    assert ReleaseAll(cfg, s.tables, [f]) == Release(cfg, s.tables, f);
    ReachedNext(cfg, s, Exit(f, true), s.(sessions := s.sessions[sid := []], tables := Release(cfg, s.tables, f)));
  }

  predicate ReapedInUse(t: Tables, f: FrameId) {
    f in t.frameSubsystems && t.removals != [] &&
    t.removals[|t.removals| - 1] == Removal(t.frameSubsystems[f], {f})
  }

  /**
   Cold start fills one table and not the other. A frame "a" restored at boot and
   a later frame "b" share a backend; when "b" exits, Remove is called for the
   backend "a" is still on.
   */
  lemma ColdStartReapsInUse(cfg: Config, sub: SubsystemId)
    requires cfg.lane > 0 && cfg.reaps(sub)
    ensures exists s :: Reached(cfg, s) && ReapedInUse(s.tables, "a") && Alive(s, "a")
  {
    var s := ColdState(cfg, sub);
    FrameReached(cfg, s, "t", "b", sub);
    var t := WithFrame(s, "t", "b", sub);
    RootExit(cfg, t, "t", "b");
    var u := t.(sessions := t.sessions["t" := []], tables := Release(cfg, t.tables, "b"));
    assert Users(t.tables.frameSubsystemIDs - {"b"}, sub) == {};
    assert Users(t.tables.frameSubsystems - {"b"}, sub) == {"a"};
    assert ReapedInUse(u.tables, "a");
  }

  lemma ColdState(cfg: Config, sub: SubsystemId) returns (s: State)
    ensures s == INITIAL.(booting := false, sessions := map["s" := ["a"]], home := map["a" := "s"],
                          tables := INITIAL.tables.(frameSubsystems := map["a" := sub]), binds := 1)
    ensures Reached(cfg, s)
  {
    assert Possible(cfg, []) && Run(cfg, []) == INITIAL;
    var s1 := INITIAL.(sessions := map["s" := ["a"]], home := map["a" := "s"]);
    assert INITIAL.home + (map f | f in ["a"] :: "s") == map["a" := "s"];
    ReachedNext(cfg, INITIAL, Restore("s", ["a"]), s1);
    var s2 := s1.(tables := s1.tables.(frameSubsystems := map["a" := sub]), binds := 1);
    ReachedNext(cfg, s1, ColdSpawn("a", sub, true), s2);
    s := s2.(booting := false);
    ReachedNext(cfg, s2, StartLoop, s);
  }

  /**
   The last-frame test looks only at registered frames. "b" is already bound to
   the backend when "a", the last registered frame on it, exits: the backend is
   removed, and "b" goes on to be registered on it.
   */
  lemma InFlightSiblingReaped(cfg: Config, sub: SubsystemId)
    requires cfg.lane > 0 && cfg.reaps(sub)
    ensures exists s :: Reached(cfg, s) && s.tables.removals == [Removal(sub, {})] &&
                        "b" in s.spawns.jobs && s.spawns.jobs["b"] == Bound(sub) && Alive(s, "b")
  {
    assert Possible(cfg, []) && Run(cfg, []) == INITIAL;
    var s0 := INITIAL.(booting := false);
    ReachedNext(cfg, INITIAL, StartLoop, s0);
    FrameReached(cfg, s0, "s", "a", sub);
    var s1 := WithFrame(s0, "s", "a", sub);
    BoundReached(cfg, s1, "t", "b", sub);
    var s2 := WithBound(s1, "t", "b", sub);
    RootExit(cfg, s2, "s", "a");
    assert Users(s2.tables.frameSubsystemIDs - {"a"}, sub) == {};
    assert Users(s2.tables.frameSubsystems - {"a"}, sub) == {};
    var s3 := s2.(sessions := s2.sessions["s" := []], tables := Release(cfg, s2.tables, "a"));
    assert s3.tables.removals == [Removal(sub, {})];
  }

  function Busy(n: nat): seq<Event> {
    seq(n, i => OtherEvent)
  }

  /** The frame "a" of session "s", whose spawn is failing, and `n` other events ahead of it. */
  function FailingBehind(n: nat): State {
    var s := AddFrame(INITIAL.(booting := false), "s", "a");
    s.(spawns := SetPhase(s.spawns, "a", Failing).(eventCh := Busy(n)))
  }

  lemma {:induction false} FailingReached(cfg: Config, n: nat)
    requires n <= cfg.events
    ensures Reached(cfg, FailingBehind(n))
  {
    if n == 0 {
      assert Possible(cfg, []) && Run(cfg, []) == INITIAL;
      var s0 := INITIAL.(booting := false);
      ReachedNext(cfg, INITIAL, StartLoop, s0);
      var s1 := AddFrame(s0, "s", "a");
      ReachedNext(cfg, s0, Create("s", "a"), s1);
      assert Busy(0) == [];
      ReachedNext(cfg, s1, EnsureOrBindFails("a"), FailingBehind(0));
    } else {
      FailingReached(cfg, n - 1);
      assert Busy(n - 1) + [OtherEvent] == Busy(n);
      ReachedNext(cfg, FailingBehind(n - 1), PostOther, FailingBehind(n));
    }
  }

  /** A failure is lost on a channel that other events fill, with no failure queued; whatever the channel's size. */
  lemma FailureLost(cfg: Config)
    ensures exists s :: Reached(cfg, s) && "a" in s.spawns.dropped && "a" in s.spawns.pending &&
                        forall f :: SpawnFailed(f) !in s.spawns.eventCh
  {
    FailingReached(cfg, cfg.events);
    var s := FailingBehind(cfg.events);
    var t := s.(spawns := Fail(cfg, s.spawns, "a"));
    ReachedNext(cfg, s, PostFailure("a"), t);
  }
}
