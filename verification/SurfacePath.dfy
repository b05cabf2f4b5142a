/**
 The surface path as the daemon runs it: the relay's subscription table, the
 interactive lane, and the connection table with its outboxes, updated in place.
 Every method is one atomic section and equals one step of SurfaceProtocol, so the
 theorems of SurfaceDelivery hold of any interleaving of calls.
 */
module SurfacePath {
  import opened Wrappers
  import opened SurfaceProtocol

  class Surfaces {
    const caps: Caps
    var counters: map<FrameId, nat>
    var subs: map<Key, Tag>
    var streams: map<Tag, Stream>
    var lane: seq<Internal>
    var conns: map<ConnId, Conn>
    var severing: seq<Internal>
    var loopParked: Option<Internal>

    ghost function Model(): State
      reads this
    {
      State(counters, subs, streams, lane, conns, severing, loopParked)
    }

    constructor (limits: Caps)
      ensures caps == limits && Model() == INITIAL && Model() == Run(limits, [])
    {
      caps := limits;
      counters, subs, streams, lane, conns, severing, loopParked := map[], map[], map[], [], map[], [], None;
    }

    /** `SeverOwned` up to its send: the entry goes, and the notice is what is left to send. */
    method SeverOwned(key: Key) returns (notice: Option<Internal>)
      modifies this`subs
      ensures notice == Notice(old(Model()), key)
      ensures Model() == if notice.Some? then Detach(old(Model()), key) else old(Model())
      ensures key !in subs
    {
      if key !in subs { return None; }
      notice := Some(Closed(key, subs[key]));
      subs := subs - {key};
    }

    method SubscribeOwned(key: Key, frame: FrameId)
      requires Enabled(caps, Model(), Subscribe(key, frame))
      modifies this
      ensures Model() == Next(caps, old(Model()), Subscribe(key, frame))
    {
      if key in subs { return; }
      var id := if frame in counters then counters[frame] + 1 else 1;
      counters := counters[frame := id];
      streams := streams[Tag(frame, id) := Stream(key, 0, [], None)];
      subs := subs[key := Tag(frame, id)];
    }

    method UnsubscribeOwned(key: Key)
      modifies this`subs
      ensures Model() == Detach(old(Model()), key)
    {
      if key in subs {
        subs := subs - {key};
      } else {
        assert subs - {key} == subs;
      }
    }

    /** One output event of `fanOut`. */
    method FanOutChunk(tag: Tag)
      requires tag in streams
      modifies this
      ensures Model() == Next(caps, old(Model()), FanOut(tag))
    {
      var stream := streams[tag];
      var n := stream.next;
      if |stream.relay| < caps.relay {
        streams := streams[tag := stream.(next := n + 1, relay := stream.relay + [n])];
      } else {
        streams := streams[tag := stream.(next := n + 1)];
        var notice := SeverOwned(stream.key);
        if notice.Some? { severing := severing + [notice.value]; }
      }
    }

    /** The end of `fanOut` when the terminal closes its channel. */
    method FanOutClosed(tag: Tag)
      requires tag in streams
      modifies this
      ensures Model() == Next(caps, old(Model()), SourceClosed(tag))
    {
      var key := streams[tag].key;
      if key in subs && subs[key] == tag { subs := subs - {key}; }
      severing := severing + [Closed(key, tag)];
    }

    /** `enqueueInternal` for an interactive surface event, called off the loop. */
    method EnqueueInternal(ev: Internal) returns (ok: bool)
      modifies this
      ensures ok == (|old(lane)| < caps.lane)
      ensures ok ==> Model() == old(Model()).(lane := old(lane) + [ev])
      ensures !ok ==> Model() == SeverOffLoop(old(Model()), if ev.Output? then ev.chunk.key else ev.key)
    {
      if |lane| < caps.lane {
        lane := lane + [ev];
        return true;
      }
      var notice := SeverOwned(if ev.Output? then ev.chunk.key else ev.key);
      if notice.Some? { severing := severing + [notice.value]; }
      return false;
    }

    /** `relayForward`: take a chunk off the relay, and later try to send it. */
    method RelayTake(tag: Tag)
      requires Enabled(caps, Model(), ForwardTake(tag))
      modifies this`streams
      ensures Model() == Next(caps, old(Model()), ForwardTake(tag))
    {
      var stream := streams[tag];
      streams := streams[tag := stream.(held := Some(stream.relay[0]), relay := stream.relay[1..])];
    }

    method RelaySend(tag: Tag) returns (ok: bool)
      requires Enabled(caps, Model(), ForwardSend(tag))
      modifies this
      ensures Model() == Next(caps, old(Model()), ForwardSend(tag))
      ensures ok == (|old(lane)| < caps.lane)
    {
      var stream := streams[tag];
      streams := streams[tag := stream.(held := None)];
      ok := EnqueueInternal(Output(Chunk(stream.key, tag, stream.held.value)));
    }

    /** `queueWireLane` on the loop: push, drop for a finished connection, or sever. */
    method QueueWireLane(key: Key, wire: Wire, preferDone: bool)
      requires LoopFree(Model())
      modifies this
      ensures Model() == QueueWire(caps, old(Model()), key, wire, preferDone)
    {
      if key.conn !in conns || !conns[key.conn].registered { return; }
      var cc := conns[key.conn];
      if |cc.outbox| < caps.outbox && !(cc.done && preferDone) {
        conns := conns[key.conn := cc.(outbox := cc.outbox + [wire])];
      } else if !cc.done && key.session != "" {
        loopParked := SeverOwned(key);
      }
    }

    /** `dispatchInternal` on the event at the head of the lane. */
    method DispatchInternal(preferDone: bool)
      requires Enabled(caps, Model(), Dispatch(preferDone))
      modifies this
      ensures Model() == Next(caps, old(Model()), Dispatch(preferDone))
    {
      var ev := lane[0];
      lane := lane[1..];
      match ev
      case Output(chunk) =>
        if chunk.key in subs && subs[chunk.key] == chunk.tag {
          QueueWireLane(chunk.key, Surface(chunk), preferDone);
        }
      case Closed(key, tag) =>
        if !(key in subs && subs[key] != tag) { UnsubscribeOwned(key); }
    }

    /** One round of `connWriter`: take, look at `done`, write. */
    method WriterStep(c: ConnId, ok: bool) returns (ghost step: Step)
      requires c in conns && !conns[c].dead && (conns[c].writing.Some? || conns[c].outbox != [])
      modifies this`conns
      ensures step in {WriterTake(c), WriterCheck(c), WriterWrite(c, ok)}
      ensures Enabled(caps, old(Model()), step) && Model() == Next(caps, old(Model()), step)
    {
      var cc := conns[c];
      if cc.writing.None? {
        step := WriterTake(c);
        cc := cc.(writing := Some(cc.outbox[0]), outbox := cc.outbox[1..]);
      } else if !cc.passed {
        step := WriterCheck(c);
        cc := if cc.done then cc.(dead := true) else cc.(passed := true);
      } else {
        step := WriterWrite(c, ok);
        cc := if ok then cc.(written := cc.written + [cc.writing.value], writing := None, passed := false)
              else cc.(dead := true);
      }
      conns := conns[c := cc];
    }
  }
}
