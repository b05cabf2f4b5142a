/** Sever, not drop: what the surface path guarantees in every run. */
module SurfaceDelivery {
  import opened SurfaceProtocol
  import opened SurfaceInvariant
  import opened SurfaceLoopSteps

  /** Every step of every goroutine keeps the invariant. */
  lemma NextKeeps(caps: Caps, s: State, step: Step)
    requires Inv(s) && Enabled(caps, s, step)
    ensures Inv(Next(caps, s, step))
  {
    match step
    case ConnOpen(c) => ConnOpenKeeps(caps, s, c);
    case Shut(c) =>
      assert ConnOk(s.streams, c, s.conns[c]);
      ConnKeeps(s, c, s.conns[c].(done := true));
    case ConnClose(c) =>
      assert ConnOk(s.streams, c, s.conns[c]);
      ConnKeeps(s, c, s.conns[c].(done := true, registered := false));
    case Subscribe(key, frame) => if key !in s.subs { SubscribeKeeps(caps, s, key, frame); }
    case Unsubscribe(key) => DetachingKeeps(s, key);
    case FanOut(tag) => FanOutKeeps(caps, s, tag);
    case SourceClosed(tag) => SourceClosedKeeps(caps, s, tag);
    case ForwardTake(tag) => ForwardTakeKeeps(caps, s, tag);
    case ForwardSend(tag) => ForwardSendKeeps(caps, s, tag);
    case Backlogged(tag) => DetachingKeeps(s, s.streams[tag].key);
    case NoticeSent(i) => NoticeKeeps(s, Next(caps, s, step), s.severing[i]);
    case Dispatch(preferDone) => DispatchKeeps(caps, s, preferDone);
    case PromptEvent(key, preferDone) => PromptKeeps(caps, s, key, preferDone);
    case LoopResume => NoticeKeeps(s, Next(caps, s, step), s.loopParked.value);
    case WriterTake(_) => WriterKeeps(caps, s, step);
    case WriterCheck(_) => WriterKeeps(caps, s, step);
    case WriterWrite(_, _) => WriterKeeps(caps, s, step);
  }

  lemma {:induction false} RunKeeps(caps: Caps, steps: seq<Step>)
    requires Possible(caps, steps)
    ensures Inv(Run(caps, steps))
  {
    if steps != [] {
      RunKeeps(caps, steps[..|steps| - 1]);
      NextKeeps(caps, Run(caps, steps[..|steps| - 1]), steps[|steps| - 1]);
    }
  }

  /**
   Sever, not drop: for every interleaving and every choice of capacities, what a
   socket gets of one subscription is 0, 1, 2, ... without a hole; nothing is
   skipped with something later delivered, repeated or reordered.
   */
  lemma SeverNotDrop(caps: Caps, steps: seq<Step>, c: ConnId, tag: Tag)
    requires Possible(caps, steps) && c in Run(caps, steps).conns
    ensures Gapless(WireSeqs(Run(caps, steps).conns[c].written, tag))
  {
    RunKeeps(caps, steps);
    var s := Run(caps, steps);
    var cc := s.conns[c];
    assert ConnOk(s.streams, c, cc);
    assert TagInv(s, tag);
    var tail := OptionSeq(cc.writing) + cc.outbox;
    assert Pipe(cc) == cc.written + tail;
    WireSeqsConcat(cc.written, tail, tag);
    if tag !in s.streams || s.streams[tag].key.conn != c {
      ForeignWire(s.streams, c, Pipe(cc), tag);
    } else {
      var rest := if cc.passed then OptionSeq(cc.writing) else [];
      WireSeqsConcat(cc.written, rest, tag);
      GaplessPrefix(WireSeqs(cc.written, tag), WireSeqs(rest, tag));
    }
  }

  /**
   The other half: while the subscription stands and its connection is open, every
   chunk numbered so far is on the wire or still queued, in order, exactly once.
   */
  lemma NothingLost(caps: Caps, steps: seq<Step>, tag: Tag)
    requires Possible(caps, steps) && Current(Run(caps, steps), tag)
    ensures var s := Run(caps, steps);
            var stream := s.streams[tag];
            && stream.key.conn in s.conns
            && (!s.conns[stream.key.conn].done ==>
                  var all := WireSeqs(Pipe(s.conns[stream.key.conn]), tag) + Behind(s, tag);
                  |all| == stream.next && Gapless(all))
  {
    RunKeeps(caps, steps);
    assert StreamOk(Run(caps, steps), tag) && TagInv(Run(caps, steps), tag);
  }

  /** A connection gets only chunks of its own subscriptions, under the identity they were numbered with. */
  lemma OnlyOwnChunks(caps: Caps, steps: seq<Step>, c: ConnId, i: nat)
    requires Possible(caps, steps) && c in Run(caps, steps).conns && i < |Run(caps, steps).conns[c].written|
    ensures var s := Run(caps, steps);
            var w := s.conns[c].written[i];
            w.Surface? ==> w.chunk.key.conn == c && w.chunk.tag in s.streams && s.streams[w.chunk.tag].key == w.chunk.key
  {
    RunKeeps(caps, steps);
    var s := Run(caps, steps);
    assert ConnOk(s.streams, c, s.conns[c]);
    assert WireOk(s.streams, c, Pipe(s.conns[c])[i]);
  }
}
