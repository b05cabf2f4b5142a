/** What every step of the surface path keeps, and the steps of the relay's goroutines. */
module SurfaceInvariant {
  import opened Wrappers
  import opened Sequences
  import opened SurfaceProtocol

  function LaneSeqs(lane: seq<Internal>, tag: Tag): seq<nat> {
    if lane == [] then [] else LaneSeq(lane[0], tag) + LaneSeqs(lane[1..], tag)
  }

  function LaneSeq(x: Internal, tag: Tag): seq<nat> {
    if x.Output? && x.chunk.tag == tag then [x.chunk.seqNo] else []
  }

  function WireSeqs(ws: seq<Wire>, tag: Tag): seq<nat> {
    if ws == [] then [] else WireSeq(ws[0], tag) + WireSeqs(ws[1..], tag)
  }

  function WireSeq(x: Wire, tag: Tag): seq<nat> {
    if x.Surface? && x.chunk.tag == tag then [x.chunk.seqNo] else []
  }

  lemma {:induction false} LaneSeqsConcat(a: seq<Internal>, b: seq<Internal>, tag: Tag)
    ensures LaneSeqs(a + b, tag) == LaneSeqs(a, tag) + LaneSeqs(b, tag)
  {
    var all := a + b;
    if a == [] {
      assert all == b;
    } else {
      assert all[0] == a[0] && all[1..] == a[1..] + b;
      LaneSeqsConcat(a[1..], b, tag);
      Assoc(LaneSeq(a[0], tag), LaneSeqs(a[1..], tag), LaneSeqs(b, tag));
    }
  }

  lemma {:induction false} WireSeqsConcat(a: seq<Wire>, b: seq<Wire>, tag: Tag)
    ensures WireSeqs(a + b, tag) == WireSeqs(a, tag) + WireSeqs(b, tag)
  {
    var all := a + b;
    if a == [] {
      assert all == b;
    } else {
      assert all[0] == a[0] && all[1..] == a[1..] + b;
      WireSeqsConcat(a[1..], b, tag);
      Assoc(WireSeq(a[0], tag), WireSeqs(a[1..], tag), WireSeqs(b, tag));
    }
  }

  /** 0, 1, 2, ... with nothing missing. */
  predicate Gapless(xs: seq<nat>) {
    forall i :: 0 <= i < |xs| ==> xs[i] == i
  }

  function OptionSeq<T>(o: Option<T>): seq<T> {
    if o.Some? then [o.value] else []
  }

  /** Everything put on a connection's interactive outbox so far, in order. */
  function Pipe(cc: Conn): seq<Wire> {
    cc.written + OptionSeq(cc.writing) + cc.outbox
  }

  /** What the socket has got or will still get. */
  function Committed(cc: Conn): seq<Wire> {
    cc.written + (if cc.passed then OptionSeq(cc.writing) else [])
  }

  function Behind(s: State, tag: Tag): seq<nat>
    requires tag in s.streams
  {
    LaneSeqs(s.lane, tag) + OptionSeq(s.streams[tag].held) + s.streams[tag].relay
  }

  // -------------------------------------------------------------- invariant

  predicate ChunkOk(streams: map<Tag, Stream>, chunk: Chunk) {
    chunk.tag in streams && streams[chunk.tag].key == chunk.key
  }

  predicate InternalOk(streams: map<Tag, Stream>, ev: Internal) {
    ev.Output? ==> ChunkOk(streams, ev.chunk)
  }

  predicate WireOk(streams: map<Tag, Stream>, c: ConnId, w: Wire) {
    w.Surface? ==> ChunkOk(streams, w.chunk) && w.chunk.key.conn == c
  }

  ghost predicate ConnOk(streams: map<Tag, Stream>, c: ConnId, cc: Conn) {
    && (!cc.registered ==> cc.done)
    && (cc.passed ==> cc.writing.Some?)
    && (forall i {:trigger WireOk(streams, c, Pipe(cc)[i])} :: 0 <= i < |Pipe(cc)| ==> WireOk(streams, c, Pipe(cc)[i]))
  }

  predicate StreamOk(s: State, tag: Tag)
    requires tag in s.streams
  {
    tag.subId <= Counter(s, tag.frame) && s.streams[tag].key.conn in s.conns && s.streams[tag].key.session != ""
  }

  predicate SubOk(s: State, key: Key)
    requires key in s.subs
  {
    s.subs[key] in s.streams && s.streams[s.subs[key]].key == key
  }

  ghost predicate Sound(s: State) {
    && (forall i {:trigger InternalOk(s.streams, s.lane[i])} :: 0 <= i < |s.lane| ==> InternalOk(s.streams, s.lane[i]))
    && (forall c {:trigger ConnOk(s.streams, c, s.conns[c])} :: c in s.conns ==> ConnOk(s.streams, c, s.conns[c]))
    && (forall tag {:trigger StreamOk(s, tag)} :: tag in s.streams ==> StreamOk(s, tag))
    && (forall key {:trigger SubOk(s, key)} :: key in s.subs ==> SubOk(s, key))
    && (forall i :: 0 <= i < |s.severing| ==> s.severing[i].Closed?)
    && (s.loopParked.Some? ==> s.loopParked.value.Closed?)
  }

  /**
   One subscription. While its connection is open, what is on the outbox and the
   wire is gapless; while the subscription is current, the lane and the relay hold
   exactly what comes next. Once the connection is done only the wire matters.
   */
  ghost predicate TagInv(s: State, tag: Tag) {
    tag in s.streams && s.streams[tag].key.conn in s.conns ==>
      var cc := s.conns[s.streams[tag].key.conn];
      && Gapless(WireSeqs(Committed(cc), tag))
      && (!cc.done ==> Gapless(WireSeqs(Pipe(cc), tag)))
      && (!cc.done && Current(s, tag) ==>
            var all := WireSeqs(Pipe(cc), tag) + Behind(s, tag);
            Gapless(all) && |all| == s.streams[tag].next)
  }

  ghost predicate Inv(s: State) {
    Sound(s) && forall tag {:trigger TagInv(s, tag)} :: TagInv(s, tag)
  }

  lemma GaplessPrefix(a: seq<nat>, b: seq<nat>)
    requires Gapless(a + b)
    ensures Gapless(a)
  {
    forall i | 0 <= i < |a| ensures a[i] == i { assert (a + b)[i] == a[i]; }
  }

  lemma GaplessSnoc(a: seq<nat>)
    ensures Gapless(a) ==> Gapless(a + [|a|])
  {
  }

  /** Steps that touch neither streams nor connections, and put no output on the lane. */
  lemma DetachKeeps(s: State, s': State)
    requires Inv(s) && Sound(s')
    requires s'.streams == s.streams && s'.conns == s.conns
    requires forall tag :: LaneSeqs(s'.lane, tag) == LaneSeqs(s.lane, tag)
    requires forall tag :: Current(s', tag) ==> Current(s, tag)
    ensures Inv(s')
  {
    forall tag ensures TagInv(s', tag) {
      assert TagInv(s, tag);
    }
  }

  // --------------------------------------------------------- one step at a time

  lemma {:induction false} ForeignWire(streams: map<Tag, Stream>, c: ConnId, ws: seq<Wire>, tag: Tag)
    requires forall i {:trigger WireOk(streams, c, ws[i])} :: 0 <= i < |ws| ==> WireOk(streams, c, ws[i])
    requires tag !in streams || streams[tag].key.conn != c
    ensures WireSeqs(ws, tag) == []
  {
    if ws != [] {
      assert WireOk(streams, c, ws[0]);
      forall i | 0 <= i < |ws[1..]| ensures WireOk(streams, c, ws[1..][i]) {
        assert WireOk(streams, c, ws[i + 1]);
      }
      ForeignWire(streams, c, ws[1..], tag);
    }
  }

  lemma {:induction false} ForeignLane(streams: map<Tag, Stream>, lane: seq<Internal>, tag: Tag)
    requires forall i {:trigger InternalOk(streams, lane[i])} :: 0 <= i < |lane| ==> InternalOk(streams, lane[i])
    requires tag !in streams
    ensures LaneSeqs(lane, tag) == []
  {
    if lane != [] {
      assert InternalOk(streams, lane[0]);
      forall i | 0 <= i < |lane[1..]| ensures InternalOk(streams, lane[1..][i]) {
        assert InternalOk(streams, lane[i + 1]);
      }
      ForeignLane(streams, lane[1..], tag);
    }
  }

  /** Streams may be added and may advance, but keep their keys. */
  lemma SoundStreams(s: State, s': State)
    requires Sound(s) && s'.lane == s.lane && s'.conns == s.conns
    requires s'.severing == s.severing && s'.loopParked == s.loopParked
    requires forall tag :: tag in s.streams ==> tag in s'.streams && s'.streams[tag].key == s.streams[tag].key
    requires forall tag :: tag in s'.streams ==> StreamOk(s', tag)
    requires forall key :: key in s'.subs ==> SubOk(s', key)
    ensures Sound(s')
  {
    forall i | 0 <= i < |s.lane| ensures InternalOk(s'.streams, s'.lane[i]) {
      assert InternalOk(s.streams, s.lane[i]);
    }
    forall c | c in s.conns ensures ConnOk(s'.streams, c, s'.conns[c]) {
      assert ConnOk(s.streams, c, s.conns[c]);
      forall i | 0 <= i < |Pipe(s.conns[c])| ensures WireOk(s'.streams, c, Pipe(s.conns[c])[i]) {
        assert WireOk(s.streams, c, Pipe(s.conns[c])[i]);
      }
    }
  }

  lemma SubscribeKeeps(caps: Caps, s: State, key: Key, frame: FrameId)
    requires Inv(s) && Enabled(caps, s, Subscribe(key, frame)) && key !in s.subs
    ensures Inv(Next(caps, s, Subscribe(key, frame)))
  {
    var s', newTag := Next(caps, s, Subscribe(key, frame)), Tag(frame, Counter(s, frame) + 1);
    assert newTag !in s.streams by {
      assert newTag in s.streams ==> StreamOk(s, newTag);
    }
    assert Sound(s') by {
      forall tag | tag in s'.streams ensures StreamOk(s', tag) {
        if tag != newTag { assert StreamOk(s, tag); }
      }
      forall k | k in s'.subs ensures SubOk(s', k) {
        if k != key { assert SubOk(s, k); }
      }
      SoundStreams(s, s');
    }
    forall tag ensures TagInv(s', tag) {
      assert TagInv(s, tag);
      if tag == newTag {
        var cc := s.conns[key.conn];
        assert ConnOk(s.streams, key.conn, cc);
        ForeignWire(s.streams, key.conn, Pipe(cc), newTag);
        ForeignLane(s.streams, s.lane, newTag);
        CommittedPrefix(cc, newTag);
      }
    }
  }

  lemma CommittedPrefix(cc: Conn, tag: Tag)
    ensures WireSeqs(Committed(cc), tag) <= WireSeqs(Pipe(cc), tag)
  {
    var tail := if cc.passed then cc.outbox else OptionSeq(cc.writing) + cc.outbox;
    assert Pipe(cc) == Committed(cc) + tail;
    WireSeqsConcat(Committed(cc), tail, tag);
  }

  /** A stream's own goroutine moves it; every other stream is as before. */
  lemma StreamKeeps(s: State, tag: Tag, stream: Stream)
    requires Inv(s) && tag in s.streams && stream.key == s.streams[tag].key
    ensures Sound(SetStream(s, tag, stream))
    ensures forall other :: other != tag ==> TagInv(SetStream(s, tag, stream), other)
  {
    var s' := SetStream(s, tag, stream);
    forall t | t in s'.streams ensures StreamOk(s', t) { assert StreamOk(s, t); }
    forall key | key in s'.subs ensures SubOk(s', key) { assert SubOk(s, key); }
    SoundStreams(s, s');
    forall other | other != tag ensures TagInv(s', other) { assert TagInv(s, other); }
  }

  /** A chunk the stream loses ends the subscription that should have carried it. */
  lemma SeverKeeps(s: State, tag: Tag, stream: Stream)
    requires Inv(s) && tag in s.streams && stream.key == s.streams[tag].key
    ensures Inv(SeverOffLoop(SetStream(s, tag, stream), stream.key))
  {
    var t := SetStream(s, tag, stream);
    var s' := SeverOffLoop(t, stream.key);
    StreamKeeps(s, tag, stream);
    SeverSound(t, stream.key);
    forall other ensures TagInv(s', other) {
      if other == tag { assert TagInv(s, tag); } else { assert TagInv(t, other); }
    }
  }

  lemma SeverSound(s: State, key: Key)
    requires Sound(s)
    ensures Sound(SeverOffLoop(s, key)) && Sound(SeverOnLoop(s, key)) && Sound(Detach(s, key))
  {
    forall k | k in s.subs && k != key
      ensures SubOk(SeverOffLoop(s, key), k) && SubOk(SeverOnLoop(s, key), k) && SubOk(Detach(s, key), k)
    {
      assert SubOk(s, k);
    }
    forall tag | tag in s.streams
      ensures StreamOk(SeverOffLoop(s, key), tag) && StreamOk(SeverOnLoop(s, key), tag) && StreamOk(Detach(s, key), tag)
    {
      assert StreamOk(s, tag);
    }
  }

  lemma FanOutMoved(s: State, tag: Tag)
    requires TagInv(s, tag) && tag in s.streams && StreamOk(s, tag)
    ensures var stream := s.streams[tag];
            TagInv(SetStream(s, tag, stream.(next := stream.next + 1, relay := stream.relay + [stream.next])), tag)
  {
    var stream, cc := s.streams[tag], s.conns[s.streams[tag].key.conn];
    Assoc(LaneSeqs(s.lane, tag) + OptionSeq(stream.held), stream.relay, [stream.next]);
    Assoc(WireSeqs(Pipe(cc), tag), Behind(s, tag), [stream.next]);
    GaplessSnoc(WireSeqs(Pipe(cc), tag) + Behind(s, tag));
  }

  lemma FanOutKeeps(caps: Caps, s: State, tag: Tag)
    requires Inv(s) && tag in s.streams
    ensures Inv(Next(caps, s, FanOut(tag)))
  {
    var stream := s.streams[tag];
    if |stream.relay| < caps.relay {
      var moved := stream.(next := stream.next + 1, relay := stream.relay + [stream.next]);
      StreamKeeps(s, tag, moved);
      assert TagInv(s, tag) && StreamOk(s, tag);
      FanOutMoved(s, tag);
    } else {
      SeverKeeps(s, tag, stream.(next := stream.next + 1));
    }
  }

  lemma ForwardTakeKeeps(caps: Caps, s: State, tag: Tag)
    requires Inv(s) && Enabled(caps, s, ForwardTake(tag))
    ensures Inv(Next(caps, s, ForwardTake(tag)))
  {
    var stream := s.streams[tag];
    var moved := stream.(held := Some(stream.relay[0]), relay := stream.relay[1..]);
    StreamKeeps(s, tag, moved);
    assert TagInv(s, tag);
    assert Behind(SetStream(s, tag, moved), tag) == Behind(s, tag);
  }

  /** What goes on the lane matters only to the subscription it is for. */
  lemma LanePushed(s: State, ev: Internal, other: Tag)
    requires TagInv(s, other) && LaneSeq(ev, other) == []
    ensures TagInv(s.(lane := s.lane + [ev]), other)
  {
    LaneSeqsConcat(s.lane, [ev], other);
    assert [ev][1..] == [] && LaneSeqs([ev], other) == [];
    assert LaneSeqs(s.lane, other) + [] == LaneSeqs(s.lane, other);
  }

  lemma ForwardSendKeeps(caps: Caps, s: State, tag: Tag)
    requires Inv(s) && Enabled(caps, s, ForwardSend(tag))
    ensures Inv(Next(caps, s, ForwardSend(tag)))
  {
    var stream := s.streams[tag];
    var idle := stream.(held := None);
    if |s.lane| < caps.lane {
      var ev := Output(Chunk(stream.key, tag, stream.held.value));
      var t := SetStream(s, tag, idle);
      var s' := t.(lane := s.lane + [ev]);
      StreamKeeps(s, tag, idle);
      LaneSound(t, ev);
      forall other ensures TagInv(s', other) {
        if other == tag {
          ForwardMoved(s, tag);
        } else {
          assert TagInv(t, other);
          LanePushed(t, ev, other);
        }
      }
    } else {
      SeverKeeps(s, tag, idle);
    }
  }

  lemma ForwardMoved(s: State, tag: Tag)
    requires TagInv(s, tag) && tag in s.streams && s.streams[tag].held.Some?
    ensures var stream := s.streams[tag];
            TagInv(SetStream(s, tag, stream.(held := None)).(
              lane := s.lane + [Output(Chunk(stream.key, tag, stream.held.value))]), tag)
  {
    var stream := s.streams[tag];
    var ev := Output(Chunk(stream.key, tag, stream.held.value));
    var s' := SetStream(s, tag, stream.(held := None)).(lane := s.lane + [ev]);
    LaneSeqsConcat(s.lane, [ev], tag);
    assert [ev][1..] == [];
    assert Behind(s', tag) == Behind(s, tag);
  }

  lemma LaneSound(s: State, ev: Internal)
    requires Sound(s) && InternalOk(s.streams, ev)
    ensures Sound(s.(lane := s.lane + [ev]))
  {
    var s' := s.(lane := s.lane + [ev]);
    forall i | 0 <= i < |s'.lane| ensures InternalOk(s'.streams, s'.lane[i]) {
      if i < |s.lane| { assert InternalOk(s.streams, s.lane[i]); }
    }
    forall c | c in s.conns ensures ConnOk(s'.streams, c, s'.conns[c]) { assert ConnOk(s.streams, c, s.conns[c]); }
    forall tag | tag in s.streams ensures StreamOk(s', tag) { assert StreamOk(s, tag); }
    forall key | key in s.subs ensures SubOk(s', key) { assert SubOk(s, key); }
  }
}
