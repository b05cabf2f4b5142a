/** The event loop's and the writers' steps keep the surface invariant. */
module SurfaceLoopSteps {
  import opened Wrappers
  import opened Sequences
  import opened SurfaceProtocol
  import opened SurfaceInvariant

  lemma ConnSound(s: State, c: ConnId, cc: Conn)
    requires Sound(s) && ConnOk(s.streams, c, cc)
    ensures Sound(SetConn(s, c, cc))
  {
    var s' := SetConn(s, c, cc);
    forall i | 0 <= i < |s.lane| ensures InternalOk(s'.streams, s'.lane[i]) { assert InternalOk(s.streams, s.lane[i]); }
    forall d | d in s'.conns ensures ConnOk(s'.streams, d, s'.conns[d]) {
      if d != c { assert ConnOk(s.streams, d, s.conns[d]); }
    }
    forall tag | tag in s.streams ensures StreamOk(s', tag) { assert StreamOk(s, tag); }
    forall key | key in s.subs ensures SubOk(s', key) { assert SubOk(s, key); }
  }

  /** A connection changes without anything on its outbox being reordered or lost. */
  lemma ConnKeeps(s: State, c: ConnId, cc: Conn)
    requires Inv(s) && c in s.conns && Pipe(cc) == Pipe(s.conns[c]) && (s.conns[c].done ==> cc.done)
    requires (!cc.registered ==> cc.done) && (cc.passed ==> cc.writing.Some?)
    requires Committed(cc) == Committed(s.conns[c]) || !s.conns[c].done
    ensures Inv(SetConn(s, c, cc))
  {
    var s' := SetConn(s, c, cc);
    assert ConnOk(s.streams, c, cc) by {
      assert ConnOk(s.streams, c, s.conns[c]);
      forall i | 0 <= i < |Pipe(cc)| ensures WireOk(s.streams, c, Pipe(cc)[i]) {
        assert WireOk(s.streams, c, Pipe(s.conns[c])[i]);
      }
    }
    ConnSound(s, c, cc);
    forall tag ensures TagInv(s', tag) {
      assert TagInv(s, tag);
      CommittedPrefix(cc, tag);
      assert tag in s.streams ==> Behind(s', tag) == Behind(s, tag);
      assert Current(s', tag) == Current(s, tag);
      if WireSeqs(Committed(cc), tag) <= WireSeqs(Pipe(cc), tag) && Gapless(WireSeqs(Pipe(cc), tag)) {
        assert Gapless(WireSeqs(Committed(cc), tag));
      }
    }
  }

  lemma ConnOpenKeeps(caps: Caps, s: State, c: ConnId)
    requires Inv(s) && c !in s.conns
    ensures Inv(SetConn(s, c, Conn(true, false, [], None, false, false, [])))
  {
    var s' := SetConn(s, c, Conn(true, false, [], None, false, false, []));
    ConnSound(s, c, s'.conns[c]);
    forall tag ensures TagInv(s', tag) {
      assert TagInv(s, tag);
      assert tag in s.streams ==> StreamOk(s, tag);
    }
  }

  /** A frame on the outbox that belongs to no other subscription than `tag`. */
  lemma PushKeeps(s: State, c: ConnId, w: Wire)
    requires Inv(s) && c in s.conns && WireOk(s.streams, c, w)
    ensures var s' := SetConn(s, c, s.conns[c].(outbox := s.conns[c].outbox + [w]));
            && Sound(s')
            && forall tag :: !(w.Surface? && w.chunk.tag == tag) ==> TagInv(s', tag)
  {
    var cc := s.conns[c];
    var cc' := cc.(outbox := cc.outbox + [w]);
    var s' := SetConn(s, c, cc');
    assert Pipe(cc') == Pipe(cc) + [w];
    assert ConnOk(s.streams, c, cc') by {
      assert ConnOk(s.streams, c, cc);
      forall i | 0 <= i < |Pipe(cc')| ensures WireOk(s.streams, c, Pipe(cc')[i]) {
        if i < |Pipe(cc)| { assert WireOk(s.streams, c, Pipe(cc)[i]); }
      }
    }
    ConnSound(s, c, cc');
    forall tag | !(w.Surface? && w.chunk.tag == tag) ensures TagInv(s', tag) {
      assert TagInv(s, tag);
      WireSeqsConcat(Pipe(cc), [w], tag);
      assert WireSeqs(Pipe(cc'), tag) == WireSeqs(Pipe(cc), tag);
      assert tag in s.streams ==> Behind(s', tag) == Behind(s, tag);
      assert Current(s', tag) == Current(s, tag);
    }
  }

  lemma PromptKeeps(caps: Caps, s: State, key: Key, preferDone: bool)
    requires Inv(s)
    ensures Inv(QueueWire(caps, s, key, Prompt, preferDone))
  {
    var s' := QueueWire(caps, s, key, Prompt, preferDone);
    if key.conn in s.conns && s'.conns != s.conns {
      PushKeeps(s, key.conn, Prompt);
      forall tag ensures TagInv(s', tag) {}
    } else if s' != s {
      SeverSound(s, key);
      DetachKeeps(s, s');
    }
  }

  /** Taking an event off the lane matters only to the subscription it belongs to. */
  lemma PopKeeps(s: State)
    requires Inv(s) && s.lane != []
    ensures var rest := s.(lane := s.lane[1..]);
            && Sound(rest)
            && forall tag :: !(s.lane[0].Output? && s.lane[0].chunk.tag == tag && Current(s, tag)) ==> TagInv(rest, tag)
  {
    var rest := s.(lane := s.lane[1..]);
    forall i | 0 <= i < |rest.lane| ensures InternalOk(rest.streams, rest.lane[i]) {
      assert InternalOk(s.streams, s.lane[i + 1]);
    }
    forall c | c in s.conns ensures ConnOk(rest.streams, c, rest.conns[c]) { assert ConnOk(s.streams, c, s.conns[c]); }
    forall tag | tag in s.streams ensures StreamOk(rest, tag) { assert StreamOk(s, tag); }
    forall key | key in s.subs ensures SubOk(rest, key) { assert SubOk(s, key); }
    forall tag | !(s.lane[0].Output? && s.lane[0].chunk.tag == tag && Current(s, tag)) ensures TagInv(rest, tag) {
      assert TagInv(s, tag);
      if Current(s, tag) {
        assert LaneSeqs(s.lane, tag) == LaneSeqs(rest.lane, tag);
      }
    }
  }

  /** The current subscription's next chunk goes to the outbox, or nothing of it ever does again. */
  lemma DispatchOutputKeeps(caps: Caps, s: State, chunk: Chunk, preferDone: bool)
    requires Inv(s) && s.lane != [] && s.lane[0] == Output(chunk)
    requires chunk.key in s.subs && s.subs[chunk.key] == chunk.tag
    ensures Inv(DispatchOne(caps, s, preferDone))
  {
    var rest, tag, c := s.(lane := s.lane[1..]), chunk.tag, chunk.key.conn;
    var s' := DispatchOne(caps, s, preferDone);
    PopKeeps(s);
    assert InternalOk(s.streams, s.lane[0]);
    assert SubOk(s, chunk.key) && StreamOk(s, tag) && Current(s, tag);
    assert TagInv(s, tag);
    var cc := s.conns[c];
    assert ConnOk(s.streams, c, cc);
    if cc.registered && |cc.outbox| < caps.outbox && !(cc.done && preferDone) {
      OutputPushed(caps, s, chunk);
    } else if cc.done {
      assert s' == rest;
      assert TagInv(rest, tag);
      forall other ensures TagInv(s', other) {}
    } else {
      SeverSound(rest, chunk.key);
      assert s' == SeverOnLoop(rest, chunk.key);
      forall other ensures TagInv(s', other) {
        if other != tag { assert TagInv(rest, other); }
      }
    }
  }

  lemma OutputPushed(caps: Caps, s: State, chunk: Chunk)
    requires Inv(s) && s.lane != [] && s.lane[0] == Output(chunk) && Current(s, chunk.tag)
    requires s.streams[chunk.tag].key == chunk.key && chunk.key.conn in s.conns
    ensures var cc := s.conns[chunk.key.conn];
            Inv(SetConn(s.(lane := s.lane[1..]), chunk.key.conn, cc.(outbox := cc.outbox + [Surface(chunk)])))
  {
    var tag, c := chunk.tag, chunk.key.conn;
    var rest, cc := s.(lane := s.lane[1..]), s.conns[c];
    var w := Surface(chunk);
    var cc' := cc.(outbox := cc.outbox + [w]);
    var t, s' := SetConn(s, c, cc'), SetConn(rest, c, cc');
    PushKeeps(s, c, w);
    PopKeeps(s);
    ConnSound(rest, c, cc') by { assert ConnOk(t.streams, c, t.conns[c]); }
    forall other ensures TagInv(s', other) {
      if other == tag {
        OutputMoved(s, chunk);
      } else {
        assert TagInv(t, other);
        assert other in s.streams ==> Behind(s', other) == Behind(t, other);
      }
    }
  }

  lemma PipePush(cc: Conn, w: Wire, tag: Tag)
    ensures WireSeqs(Pipe(cc.(outbox := cc.outbox + [w])), tag) == WireSeqs(Pipe(cc), tag) + WireSeq(w, tag)
  {
    Assoc(cc.written + OptionSeq(cc.writing), cc.outbox, [w]);
    WireSeqsConcat(Pipe(cc), [w], tag);
    assert [w][1..] == [];
    assert WireSeq(w, tag) + [] == WireSeq(w, tag);
  }

  lemma BehindPop(s: State, s': State, tag: Tag)
    requires s.lane != [] && s'.lane == s.lane[1..] && s'.streams == s.streams && tag in s.streams
    ensures Behind(s, tag) == LaneSeq(s.lane[0], tag) + Behind(s', tag)
  {
    var first, lane := LaneSeq(s.lane[0], tag), LaneSeqs(s'.lane, tag);
    var held, relay := OptionSeq(s.streams[tag].held), s.streams[tag].relay;
    Assoc(first, lane, held);
    Assoc(first, lane + held, relay);
  }

  /** The chunk leaves the head of what is behind and joins the tail of what is on the connection. */
  lemma OutputMoved(s: State, chunk: Chunk)
    requires TagInv(s, chunk.tag) && s.lane != [] && s.lane[0] == Output(chunk) && Current(s, chunk.tag)
    requires s.streams[chunk.tag].key == chunk.key && chunk.key.conn in s.conns
    ensures var cc := s.conns[chunk.key.conn];
            TagInv(SetConn(s.(lane := s.lane[1..]), chunk.key.conn, cc.(outbox := cc.outbox + [Surface(chunk)])), chunk.tag)
  {
    var tag, w, cc := chunk.tag, Surface(chunk), s.conns[chunk.key.conn];
    var cc' := cc.(outbox := cc.outbox + [w]);
    var s' := SetConn(s.(lane := s.lane[1..]), chunk.key.conn, cc');
    PipePush(cc, w, tag);
    BehindPop(s, s', tag);
    Assoc(WireSeqs(Pipe(cc), tag), [chunk.seqNo], Behind(s', tag));
    if !cc.done {
      GaplessPrefix(WireSeqs(Pipe(cc'), tag), Behind(s', tag));
    }
  }

  lemma DispatchKeeps(caps: Caps, s: State, preferDone: bool)
    requires Inv(s) && s.lane != []
    ensures Inv(DispatchOne(caps, s, preferDone))
  {
    var rest, s' := s.(lane := s.lane[1..]), DispatchOne(caps, s, preferDone);
    PopKeeps(s);
    match s.lane[0]
    case Output(chunk) =>
      if chunk.key in s.subs && s.subs[chunk.key] == chunk.tag {
        DispatchOutputKeeps(caps, s, chunk, preferDone);
      } else {
        assert InternalOk(s.streams, s.lane[0]);
        assert !Current(s, chunk.tag);
        forall tag ensures TagInv(s', tag) {}
      }
    case Closed(key, tag) =>
      SeverSound(rest, key);
      forall other ensures TagInv(rest, other) {}
      DetachKeeps(rest, s');
  }

  lemma NoticeKeeps(s: State, s': State, ev: Internal)
    requires Inv(s) && ev.Closed? && s'.lane == s.lane + [ev]
    requires s' == s.(lane := s'.lane, severing := s'.severing, loopParked := s'.loopParked)
    requires forall i :: 0 <= i < |s'.severing| ==> s'.severing[i].Closed?
    requires s'.loopParked.Some? ==> s'.loopParked.value.Closed?
    ensures Inv(s')
  {
    LaneSound(s, ev);
    var t := s.(lane := s'.lane);
    assert Sound(s') by {
      forall i | 0 <= i < |s'.lane| ensures InternalOk(s'.streams, s'.lane[i]) { assert InternalOk(t.streams, t.lane[i]); }
      forall c | c in s.conns ensures ConnOk(s'.streams, c, s'.conns[c]) { assert ConnOk(t.streams, c, t.conns[c]); }
      forall tag | tag in s.streams ensures StreamOk(s', tag) { assert StreamOk(t, tag); }
      forall key | key in s.subs ensures SubOk(s', key) { assert SubOk(t, key); }
    }
    forall tag ensures LaneSeqs(s'.lane, tag) == LaneSeqs(s.lane, tag) {
      LaneSeqsConcat(s.lane, [ev], tag);
    }
    DetachKeeps(s, s');
  }

  lemma SourceClosedKeeps(caps: Caps, s: State, tag: Tag)
    requires Inv(s) && tag in s.streams
    ensures Inv(Next(caps, s, SourceClosed(tag)))
  {
    var s' := Next(caps, s, SourceClosed(tag));
    SeverSound(s, s.streams[tag].key);
    var t := if Current(s, tag) then Detach(s, s.streams[tag].key) else s;
    assert Sound(s') by {
      forall i | 0 <= i < |s'.lane| ensures InternalOk(s'.streams, s'.lane[i]) { assert InternalOk(t.streams, t.lane[i]); }
      forall c | c in s.conns ensures ConnOk(s'.streams, c, s'.conns[c]) { assert ConnOk(t.streams, c, t.conns[c]); }
      forall other | other in s.streams ensures StreamOk(s', other) { assert StreamOk(t, other); }
      forall key | key in t.subs ensures SubOk(s', key) { assert SubOk(t, key); }
    }
    DetachKeeps(s, s');
  }

  lemma DetachingKeeps(s: State, key: Key)
    requires Inv(s)
    ensures Inv(Detach(s, key)) && Inv(SeverOffLoop(s, key))
  {
    SeverSound(s, key);
    DetachKeeps(s, Detach(s, key));
    DetachKeeps(s, SeverOffLoop(s, key));
  }

  lemma WriterKeeps(caps: Caps, s: State, step: Step)
    requires Inv(s) && Enabled(caps, s, step)
    requires step.WriterTake? || step.WriterCheck? || step.WriterWrite?
    ensures Inv(Next(caps, s, step))
  {
    var c := step.conn;
    var cc := s.conns[c];
    var cc' := Next(caps, s, step).conns[c];
    assert ConnOk(s.streams, c, cc);
    assert Pipe(cc') == Pipe(cc);
    assert step.WriterWrite? ==> Committed(cc') == Committed(cc);
    ConnKeeps(s, c, cc');
  }
}
