/**
 The event loop's side of frame spawns, on the loop-owned maps as they are
 updated in place. Each method equals the step of SpawnLifecycle it implements.
 */
module SpawnLoop {
  import opened SpawnLifecycle

  class Loop {
    const cfg: Config
    var booting: bool
    var sessions: map<SessionId, seq<FrameId>>
    ghost var home: map<FrameId, SessionId>
    var frameSubsystems: map<FrameId, SubsystemId>
    var frameSubsystemIDs: map<FrameId, SubsystemId>
    var pendingSpawns: set<FrameId>
    var internalChBulk: seq<Completion>
    var eventCh: seq<Event>
    var discarding: set<FrameId>
    var releases: nat
    var removals: seq<Removal>
    ghost var started: set<FrameId>
    ghost var jobs: map<FrameId, Phase>
    ghost var outcomes: seq<Outcome>
    ghost var dropped: set<FrameId>
    ghost var binds: nat

    ghost function TablesNow(): Tables
      reads this
    {
      Tables(frameSubsystems, frameSubsystemIDs, discarding, releases, removals)
    }

    ghost function SpawnsNow(): Spawns
      reads this
    {
      Spawns(started, jobs, internalChBulk, eventCh, pendingSpawns, outcomes, dropped)
    }

    ghost function Model(): State
      reads this
    {
      State(booting, sessions, home, SpawnsNow(), TablesNow(), binds)
    }

    constructor (config: Config)
      ensures cfg == config && Model() == INITIAL
    {
      cfg := config;
      booting, sessions, home, binds := true, map[], map[], 0;
      frameSubsystems, frameSubsystemIDs, discarding, releases, removals := map[], map[], {}, 0, [];
      started, jobs, internalChBulk, eventCh, pendingSpawns, outcomes, dropped := {}, map[], [], [], {}, [], {};
    }

    /** `spawnTargetAlive`: a scan of the session's frames. */
    method SpawnTargetAlive(session: SessionId, frame: FrameId) returns (alive: bool)
      ensures alive == (session in sessions && frame in sessions[session])
    {
      if session !in sessions { return false; }
      var frames := sessions[session];
      for i := 0 to |frames|
        invariant frame !in frames[..i]
      {
        if frames[i] == frame { return true; }
      }
      return false;
    }

    /** The scan of `reapSubsystemIfLast`, in whatever order the map gives its entries. */
    method HasOther(sub: SubsystemId) returns (other: bool)
      ensures other == (Users(frameSubsystemIDs, sub) != {})
    {
      var rest := frameSubsystemIDs.Keys;
      while rest != {}
        invariant rest <= frameSubsystemIDs.Keys
        invariant forall f :: f in Users(frameSubsystemIDs, sub) ==> f in rest
        decreases rest
      {
        var f :| f in rest;
        if frameSubsystemIDs[f] == sub {
          assert f in Users(frameSubsystemIDs, sub);
          return true;
        }
        rest := rest - {f};
      }
      assert Users(frameSubsystemIDs, sub) == {};
      return false;
    }

    /** `releaseFrameSubsystem`, with the Remove call it may end in. */
    method ReleaseFrameSubsystem(frame: FrameId)
      modifies this`frameSubsystems, this`frameSubsystemIDs, this`releases, this`removals
      ensures TablesNow() == Release(cfg, old(TablesNow()), frame)
    {
      if frame !in frameSubsystems { return; }
      frameSubsystems := frameSubsystems - {frame};
      releases := releases + 1;
      if frame !in frameSubsystemIDs {
        assert frameSubsystemIDs - {frame} == frameSubsystemIDs;
        assert removals + [] == removals;
        return;
      }
      var sub := frameSubsystemIDs[frame];
      frameSubsystemIDs := frameSubsystemIDs - {frame};
      var other := HasOther(sub);
      if !other && cfg.reaps(sub) {
        removals := removals + [Removal(sub, Users(frameSubsystems, sub))];
      } else {
        assert removals + [] == removals;
      }
    }

    /** The EffReleaseFrame effects of a root eviction, one after the other. */
    method ReleaseFrames(frames: seq<FrameId>)
      modifies this`frameSubsystems, this`frameSubsystemIDs, this`releases, this`removals
      ensures TablesNow() == ReleaseAll(cfg, old(TablesNow()), frames)
    {
      var i := 0;
      while i < |frames|
        invariant 0 <= i <= |frames|
        invariant ReleaseAll(cfg, TablesNow(), frames[i..]) == ReleaseAll(cfg, old(TablesNow()), frames)
        invariant discarding == old(discarding)
      {
        assert frames[i..][1..] == frames[i + 1..];
        ReleaseFrameSubsystem(frames[i]);
        i := i + 1;
      }
    }

    /** `executeFrameEffect` for EffSpawnFrame: the frame is pending from here on. */
    method SpawnFrame(frame: FrameId)
      modifies this`started, this`jobs, this`pendingSpawns
      ensures SpawnsNow() == Begin(old(SpawnsNow()), frame)
    {
      pendingSpawns := pendingSpawns + {frame};
      started, jobs := started + {frame}, jobs[frame := Starting];
    }

    /** The head of `dispatch`: a spawn event ends the frame's pending state. */
    method DispatchOutcome(frame: FrameId, spawned: bool)
      modifies this`pendingSpawns, this`outcomes
      ensures SpawnsNow() == Settle(old(SpawnsNow()), frame, spawned)
    {
      pendingSpawns := pendingSpawns - {frame};
      outcomes := outcomes + [Outcome(frame, spawned)];
    }

    /** The live half of `handleSpawnComplete`, or `discardSpawnResult`. */
    method StoreOrDiscard(done: Completion, alive: bool)
      modifies this`frameSubsystems, this`frameSubsystemIDs, this`discarding
      ensures TablesNow() == if alive then Register(old(TablesNow()), done.frame, done.sub)
                             else Discard(old(TablesNow()), done.frame)
    {
      if alive {
        frameSubsystems := frameSubsystems[done.frame := done.sub];
        frameSubsystemIDs := frameSubsystemIDs[done.frame := done.sub];
      } else {
        discarding := discarding + {done.frame};
      }
    }

    /** `handleSpawnComplete`, with `discardSpawnResult`; the session is the one the spawn was for. */
    method HandleSpawnComplete(session: SessionId) returns (alive: bool)
      requires internalChBulk != [] && internalChBulk[0].frame in home && session == home[internalChBulk[0].frame]
      modifies this`internalChBulk, this`pendingSpawns, this`outcomes,
               this`frameSubsystems, this`frameSubsystemIDs, this`discarding
      ensures alive == Alive(old(Model()), old(internalChBulk[0].frame))
      ensures SpawnsNow() == PopLane(old(SpawnsNow()), alive)
      ensures var done := old(internalChBulk[0]);
              TablesNow() == if alive then Register(old(TablesNow()), done.frame, done.sub)
                             else Discard(old(TablesNow()), done.frame)
    {
      var done := internalChBulk[0];
      alive := SpawnTargetAlive(session, done.frame);
      internalChBulk := internalChBulk[1..];
      StoreOrDiscard(done, alive);
      DispatchOutcome(done.frame, alive);
    }

    /** `Enqueue` never waits. */
    method Enqueue(ev: Event) returns (dropped: bool)
      modifies this`eventCh
      ensures eventCh == Enqueued(cfg, old(eventCh), ev)
      ensures dropped == (|old(eventCh)| >= cfg.events)
    {
      if |eventCh| < cfg.events {
        eventCh := eventCh + [ev];
        return false;
      }
      return true;
    }

    /** The end of a failed spawn goroutine. */
    method PostSpawnFailed(frame: FrameId)
      modifies this`eventCh, this`jobs, this`dropped
      ensures SpawnsNow() == Fail(cfg, old(SpawnsNow()), frame)
    {
      var lost := Enqueue(SpawnFailed(frame));
      jobs := jobs - {frame};
      if lost { dropped := dropped + {frame}; }
    }

    /** The loop's turn on the event channel; a failed spawn's frame is evicted if it still stands. */
    method NextEvent(session: SessionId)
      requires eventCh != []
      requires eventCh[0].SpawnFailed? ==> eventCh[0].frame in home && home[eventCh[0].frame] == session
      modifies this
      ensures eventCh == old(eventCh)[1..]
      ensures var popped := old(Model()).(spawns := PopEvent(old(SpawnsNow())));
              Model() == if old(eventCh)[0].OtherEvent? then popped
                         else Evict(cfg, popped, old(eventCh)[0].frame, false)
    {
      var ev := eventCh[0];
      eventCh := eventCh[1..];
      if ev.OtherEvent? { return; }
      DispatchOutcome(ev.frame, false);
      var alive := SpawnTargetAlive(session, ev.frame);
      if alive { EvictFrame(session, ev.frame, false); }
    }

    /** EvFrameCommandExited or EvFrameVanished on a root or a child frame. */
    method EvictFrame(session: SessionId, frame: FrameId, retain: bool)
      requires session in sessions && frame in sessions[session]
      requires frame in home && home[frame] == session
      modifies this
      ensures Model() == Evict(cfg, old(Model()), frame, retain)
    {
      var frames := sessions[session];
      if frames[0] == frame {
        if retain { sessions := sessions[session := []]; } else { sessions := sessions - {session}; }
        ReleaseFrames(frames);
      } else {
        sessions := sessions[session := RemoveFirst(frames, frame)];
        ReleaseFrameSubsystem(frame);
      }
    }
  }
}
