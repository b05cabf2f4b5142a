/** A loop that waits for itself: where severing on the loop can stop it for good. */
module SurfaceStall {
  import opened Wrappers
  import opened SurfaceProtocol
  import opened SurfaceInvariant

  // ----------------------------------------------- when the loop parks

  /** The subscription stands, and its open connection has no room on the outbox. */
  predicate Blocked(caps: Caps, s: State, key: Key) {
    && key in s.subs && key.conn in s.conns
    && s.conns[key.conn].registered && !s.conns[key.conn].done
    && |s.conns[key.conn].outbox| >= caps.outbox
  }

  /** Only the loop's own sends park it: a prompt event, or output of a subscription that still stands. */
  predicate Parks(caps: Caps, s: State, step: Step) {
    match step
    case Dispatch(_) =>
      && s.lane != [] && s.lane[0].Output?
      && Blocked(caps, s, s.lane[0].chunk.key) && s.subs[s.lane[0].chunk.key] == s.lane[0].chunk.tag
    case PromptEvent(key, _) => Blocked(caps, s, key)
    case _ => false
  }

  lemma SubHasSession(s: State, key: Key)
    requires Inv(s) && key in s.subs
    ensures key.session != ""
  {
    assert SubOk(s, key);
    assert StreamOk(s, s.subs[key]);
  }

  /** A step parks the loop iff it is one of those, with the notice of the subscription it severed. */
  lemma LoopParksIff(caps: Caps, s: State, step: Step)
    requires Inv(s) && Enabled(caps, s, step) && LoopFree(s)
    ensures Next(caps, s, step).loopParked.Some? <==> Parks(caps, s, step)
    ensures Parks(caps, s, step) ==>
              var key := if step.Dispatch? then s.lane[0].chunk.key else step.key;
              && Next(caps, s, step).loopParked == Some(Closed(key, s.subs[key]))
              && key !in Next(caps, s, step).subs
  {
    if step.Dispatch? && s.lane[0].Output? && s.lane[0].chunk.key in s.subs {
      SubHasSession(s, s.lane[0].chunk.key);
    } else if step.PromptEvent? && step.key in s.subs {
      SubHasSession(s, step.key);
    }
  }

  // ------------------------------------------- when it never comes back

  /**
   `SeverOwned` called on the loop waits for room on a lane only the loop drains.
   Once the lane is full nothing else makes room: the loop waits in every
   continuation, the lane never moves again, and every later send severs.
   */
  predicate LoopStuck(caps: Caps, s: State) {
    s.loopParked.Some? && |s.lane| >= caps.lane
  }

  function RunFrom(caps: Caps, s: State, steps: seq<Step>): State
    decreases |steps|
  {
    if steps == [] || !Enabled(caps, s, steps[0]) then s else RunFrom(caps, Next(caps, s, steps[0]), steps[1..])
  }

  lemma {:induction false} LoopStuckForever(caps: Caps, s: State, steps: seq<Step>)
    requires LoopStuck(caps, s)
    ensures LoopStuck(caps, RunFrom(caps, s, steps))
    ensures RunFrom(caps, s, steps).lane == s.lane && RunFrom(caps, s, steps).loopParked == s.loopParked
    decreases |steps|
  {
    if steps != [] && Enabled(caps, s, steps[0]) {
      LoopStuckForever(caps, Next(caps, s, steps[0]), steps[1..]);
    }
  }

  predicate Resumes(caps: Caps, s: State, steps: seq<Step>) {
    RunFrom(caps, s, steps).loopParked.None?
  }

  /** A parked loop goes on in some continuation iff the lane has room. */
  lemma ResumesIff(caps: Caps, s: State)
    requires s.loopParked.Some?
    ensures (exists steps :: Resumes(caps, s, steps)) <==> |s.lane| < caps.lane
  {
    if |s.lane| < caps.lane {
      var next := Next(caps, s, LoopResume);
      assert RunFrom(caps, next, []) == next;
      assert [LoopResume][1..] == [] && RunFrom(caps, s, [LoopResume]) == next;
      assert Resumes(caps, s, [LoopResume]);
    } else {
      forall steps ensures !Resumes(caps, s, steps) {
        LoopStuckForever(caps, s, steps);
      }
    }
  }

  // ------------------------------------------------------- that it happens

  const ONE_KEY := Key(0, "s", "")
  const ONE_TAG := Tag("f", 1)

  function OneChunk(n: nat): Chunk {
    Chunk(ONE_KEY, ONE_TAG, n)
  }

  /** One connection with one subscription, somewhere on the way. */
  function OneStream(
    next: nat, relay: seq<nat>, held: Option<nat>, lane: seq<Internal>, outbox: seq<Wire>): State {
    State(map["f" := 1], map[ONE_KEY := ONE_TAG], map[ONE_TAG := Stream(ONE_KEY, next, relay, held)], lane,
          map[0 := Conn(true, false, outbox, None, false, false, [])], [], None)
  }

  ghost predicate Reached(caps: Caps, s: State) {
    exists steps :: Possible(caps, steps) && Run(caps, steps) == s
  }

  lemma ReachedNext(caps: Caps, s: State, step: Step)
    requires Reached(caps, s) && Enabled(caps, s, step)
    ensures Reached(caps, Next(caps, s, step))
  {
    var steps :| Possible(caps, steps) && Run(caps, steps) == s;
    assert (steps + [step])[..|steps + [step]| - 1] == steps;
    assert Possible(caps, steps + [step]) && Run(caps, steps + [step]) == Next(caps, s, step);
  }

  predicate StepsTo(caps: Caps, s: State, step: Step, s': State) {
    Enabled(caps, s, step) && Next(caps, s, step) == s'
  }

  lemma ReachedTo(caps: Caps, s: State, step: Step, s': State)
    requires Reached(caps, s) && StepsTo(caps, s, step, s')
    ensures Reached(caps, s')
  {
    ReachedNext(caps, s, step);
  }

  lemma OpenSteps(caps: Caps)
    ensures StepsTo(caps, Next(caps, INITIAL, ConnOpen(0)), Subscribe(ONE_KEY, "f"), OneStream(0, [], None, [], []))
  {
  }

  lemma FanOutSteps(caps: Caps, n: nat, lane: seq<Internal>, outbox: seq<Wire>)
    requires caps.relay > 0
    ensures StepsTo(caps, OneStream(n, [], None, lane, outbox), FanOut(ONE_TAG),
                    OneStream(n + 1, [n], None, lane, outbox))
  {
    assert [] + [n] == [n];
  }

  lemma TakeSteps(caps: Caps, n: nat, lane: seq<Internal>, outbox: seq<Wire>)
    ensures StepsTo(caps, OneStream(n + 1, [n], None, lane, outbox), ForwardTake(ONE_TAG),
                    OneStream(n + 1, [], Some(n), lane, outbox))
  {
    assert [n][1..] == [];
  }

  lemma SendSteps(caps: Caps, n: nat, lane: seq<Internal>, outbox: seq<Wire>)
    requires |lane| < caps.lane
    ensures StepsTo(caps, OneStream(n + 1, [], Some(n), lane, outbox), ForwardSend(ONE_TAG),
                    OneStream(n + 1, [], None, lane + [Output(OneChunk(n))], outbox))
  {
  }

  lemma DispatchSteps(caps: Caps, n: nat, outbox: seq<Wire>)
    requires |outbox| < caps.outbox
    ensures StepsTo(caps, OneStream(n + 1, [], None, [] + [Output(OneChunk(n))], outbox), Dispatch(false),
                    OneStream(n + 1, [], None, [], outbox + [Surface(OneChunk(n))]))
  {
    assert ([] + [Output(OneChunk(n))])[1..] == [];
  }

  lemma StuckSteps(caps: Caps, n: nat, m: nat, lane: seq<Internal>, outbox: seq<Wire>)
    requires |lane| == caps.lane > 0 && lane[0] == Output(OneChunk(m)) && |outbox| == caps.outbox
    ensures var busy := OneStream(n + 1, [], Some(n), lane, outbox);
            && Enabled(caps, busy, Dispatch(false))
            && var parked := Next(caps, busy, Dispatch(false));
            && Enabled(caps, parked, ForwardSend(ONE_TAG))
            && LoopStuck(caps, Next(caps, parked, ForwardSend(ONE_TAG)))
  {
  }

  lemma OpenReached(caps: Caps)
    ensures Reached(caps, OneStream(0, [], None, [], []))
  {
    assert Possible(caps, []) && Run(caps, []) == INITIAL;
    ReachedNext(caps, INITIAL, ConnOpen(0));
    OpenSteps(caps);
    ReachedTo(caps, Next(caps, INITIAL, ConnOpen(0)), Subscribe(ONE_KEY, "f"), OneStream(0, [], None, [], []));
  }

  /** A chunk arrives and the forwarder takes it. */
  lemma Arrives(caps: Caps, n: nat, lane: seq<Internal>, outbox: seq<Wire>)
    requires caps.relay > 0 && Reached(caps, OneStream(n, [], None, lane, outbox))
    ensures Reached(caps, OneStream(n + 1, [], Some(n), lane, outbox))
  {
    FanOutSteps(caps, n, lane, outbox);
    TakeSteps(caps, n, lane, outbox);
    var fanned := OneStream(n + 1, [n], None, lane, outbox);
    ReachedTo(caps, OneStream(n, [], None, lane, outbox), FanOut(ONE_TAG), fanned);
    ReachedTo(caps, fanned, ForwardTake(ONE_TAG), OneStream(n + 1, [], Some(n), lane, outbox));
  }

  /** A chunk arrives and is forwarded to the lane. */
  lemma Forwarded(caps: Caps, n: nat, lane: seq<Internal>, outbox: seq<Wire>)
    requires caps.relay > 0 && |lane| < caps.lane && Reached(caps, OneStream(n, [], None, lane, outbox))
    ensures Reached(caps, OneStream(n + 1, [], None, lane + [Output(OneChunk(n))], outbox))
  {
    Arrives(caps, n, lane, outbox);
    SendSteps(caps, n, lane, outbox);
    ReachedTo(caps, OneStream(n + 1, [], Some(n), lane, outbox), ForwardSend(ONE_TAG),
              OneStream(n + 1, [], None, lane + [Output(OneChunk(n))], outbox));
  }

  /** The chunk then goes on to the outbox. */
  lemma Delivered(caps: Caps, n: nat, outbox: seq<Wire>)
    requires caps.relay > 0 && caps.lane > 0 && |outbox| < caps.outbox
    requires Reached(caps, OneStream(n, [], None, [], outbox))
    ensures Reached(caps, OneStream(n + 1, [], None, [], outbox + [Surface(OneChunk(n))]))
  {
    Forwarded(caps, n, [], outbox);
    DispatchSteps(caps, n, outbox);
    ReachedTo(caps, OneStream(n + 1, [], None, [] + [Output(OneChunk(n))], outbox), Dispatch(false),
              OneStream(n + 1, [], None, [], outbox + [Surface(OneChunk(n))]));
  }

  /** The outbox fills while nothing is written. */
  lemma {:induction false} OutboxFills(caps: Caps, n: nat) returns (outbox: seq<Wire>)
    requires caps.relay > 0 && caps.lane > 0 && n <= caps.outbox
    ensures |outbox| == n && Reached(caps, OneStream(n, [], None, [], outbox))
  {
    if n == 0 {
      OpenReached(caps);
      outbox := [];
    } else {
      var before := OutboxFills(caps, n - 1);
      Delivered(caps, n - 1, before);
      outbox := before + [Surface(OneChunk(n - 1))];
    }
  }

  /** Then the lane fills with the chunks that follow. */
  lemma {:induction false} LaneFills(caps: Caps, n: nat, lane: seq<Internal>, outbox: seq<Wire>)
    returns (m: nat, full: seq<Internal>)
    requires caps.relay > 0 && |lane| <= caps.lane && Reached(caps, OneStream(n, [], None, lane, outbox))
    ensures |full| == caps.lane && Reached(caps, OneStream(m, [], None, full, outbox))
    ensures lane != [] ==> full[0] == lane[0]
    ensures lane == [] && caps.lane > 0 ==> full[0] == Output(OneChunk(n))
    decreases caps.lane - |lane|
  {
    if |lane| == caps.lane {
      m, full := n, lane;
    } else {
      Forwarded(caps, n, lane, outbox);
      m, full := LaneFills(caps, n + 1, lane + [Output(OneChunk(n))], outbox);
    }
  }

  /**
   With a relay buffer and a lane of any size, and any outbox, a stuck loop is
   reached: it takes the head of a full lane, finds the outbox full, and before it
   can send its notice the relay refills the lane.
   */
  lemma LoopStuckReached(caps: Caps)
    requires caps.relay > 0 && caps.lane > 0
    ensures exists s :: Reached(caps, s) && LoopStuck(caps, s)
  {
    var outbox := OutboxFills(caps, caps.outbox);
    var n, lane := LaneFills(caps, caps.outbox, [], outbox);
    Arrives(caps, n, lane, outbox);
    StuckSteps(caps, n, caps.outbox, lane, outbox);
    var busy := OneStream(n + 1, [], Some(n), lane, outbox);
    ReachedNext(caps, busy, Dispatch(false));
    ReachedNext(caps, Next(caps, busy, Dispatch(false)), ForwardSend(ONE_TAG));
  }
}
