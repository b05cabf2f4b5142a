/**
 Surface output over two bounded queues. A chunk goes from a subscription's relay
 buffer through the shared interactive lane to the outbox of one connection; a
 full queue severs the subscription instead of dropping one chunk
 (terminal_relay.go, internal_dispatch.go, severance.go, ipc.go).

 Each step below is one atomic section of one goroutine, so a run is any
 interleaving of the relay's goroutines, the event loop and the writers. The
 relay's `isActiveSub` checks only stop work early; no step depends on them.
 */
module SurfaceProtocol {
  import opened Wrappers

  type ConnId = nat
  type FrameId = string

  /** `SubscriptionKey`. */
  datatype Key = Key(conn: ConnId, session: string, subscriber: string)

  /** One subscription's identity: its frame and the id the frame's terminal gave it. */
  datatype Tag = Tag(frame: FrameId, subId: nat)

  datatype Chunk = Chunk(key: Key, tag: Tag, seqNo: nat)

  /** What travels on the interactive lane. */
  datatype Internal = Output(chunk: Chunk) | Closed(key: Key, tag: Tag)

  /** What travels on an interactive outbox: surface output, or a prompt event. */
  datatype Wire = Surface(chunk: Chunk) | Prompt

  /** `surfaceSub` with its fan-out and forwarding goroutines. */
  datatype Stream = Stream(key: Key, next: nat, relay: seq<nat>, held: Option<nat>)

  /** `ipcConn` with its writer: `passed` once the writer saw the connection open. */
  datatype Conn = Conn(
    registered: bool, done: bool, outbox: seq<Wire>,
    writing: Option<Wire>, passed: bool, dead: bool, written: seq<Wire>)

  datatype Caps = Caps(relay: nat, lane: nat, outbox: nat)

  /**
   `severing` are goroutines parked in `sendNow` with a close notice; `loopParked`
   is the event loop parked there.
   */
  datatype State = State(
    counters: map<FrameId, nat>, subs: map<Key, Tag>, streams: map<Tag, Stream>,
    lane: seq<Internal>, conns: map<ConnId, Conn>,
    severing: seq<Internal>, loopParked: Option<Internal>)

  const INITIAL := State(map[], map[], map[], [], map[], [], None)

  // ------------------------------------------------------------------ steps

  datatype Step =
    | ConnOpen(conn: ConnId)
    | Shut(conn: ConnId)
    | ConnClose(conn: ConnId)
    | Subscribe(key: Key, frame: FrameId)
    | Unsubscribe(key: Key)
    | FanOut(tag: Tag)
    | SourceClosed(tag: Tag)
    | ForwardTake(tag: Tag)
    | ForwardSend(tag: Tag)
    | Backlogged(tag: Tag)
    | NoticeSent(index: nat)
    | Dispatch(preferDone: bool)
    | PromptEvent(key: Key, preferDone: bool)
    | LoopResume
    | WriterTake(conn: ConnId)
    | WriterCheck(conn: ConnId)
    | WriterWrite(conn: ConnId, ok: bool)

  function Counter(s: State, frame: FrameId): nat {
    if frame in s.counters then s.counters[frame] else 0
  }

  predicate Current(s: State, tag: Tag) {
    tag in s.streams && s.streams[tag].key in s.subs && s.subs[s.streams[tag].key] == tag
  }

  /** `SeverOwned`, up to its blocking send; the notice is what the caller must still send. */
  function Notice(s: State, key: Key): Option<Internal> {
    if key in s.subs then Some(Closed(key, s.subs[key])) else None
  }

  function Detach(s: State, key: Key): State {
    s.(subs := s.subs - {key})
  }

  /** `SeverOwned` called off the loop: the calling goroutine parks with the notice. */
  function SeverOffLoop(s: State, key: Key): State {
    if key in s.subs then Detach(s, key).(severing := s.severing + [Notice(s, key).value]) else s
  }

  /** `SeverOwned` called on the loop: the loop itself parks with the notice. */
  function SeverOnLoop(s: State, key: Key): State {
    if key in s.subs then Detach(s, key).(loopParked := Notice(s, key)) else s
  }

  predicate LoopFree(s: State) {
    s.loopParked.None?
  }

  predicate Enabled(caps: Caps, s: State, step: Step) {
    match step
    case ConnOpen(c) => LoopFree(s) && c !in s.conns
    case Shut(c) => c in s.conns
    case ConnClose(c) => LoopFree(s) && c in s.conns
    case Subscribe(key, _) => LoopFree(s) && key.conn in s.conns && key.session != ""
    case Unsubscribe(_) => LoopFree(s)
    case FanOut(tag) => tag in s.streams
    case SourceClosed(tag) => tag in s.streams
    case ForwardTake(tag) => tag in s.streams && s.streams[tag].held.None? && s.streams[tag].relay != []
    case ForwardSend(tag) => tag in s.streams && s.streams[tag].held.Some?
    case Backlogged(tag) => tag in s.streams
    case NoticeSent(i) => i < |s.severing| && |s.lane| < caps.lane
    case Dispatch(_) => LoopFree(s) && s.lane != []
    case PromptEvent(_, _) => LoopFree(s)
    case LoopResume => s.loopParked.Some? && |s.lane| < caps.lane
    case WriterTake(c) => c in s.conns && !s.conns[c].dead && s.conns[c].writing.None? && s.conns[c].outbox != []
    case WriterCheck(c) => c in s.conns && !s.conns[c].dead && s.conns[c].writing.Some? && !s.conns[c].passed
    case WriterWrite(c, _) => c in s.conns && !s.conns[c].dead && s.conns[c].writing.Some? && s.conns[c].passed
  }

  /**
   `queueWireLane` on the interactive lane. When the connection is done and the
   lane has room the select may take either case.
   */
  function QueueWire(caps: Caps, s: State, key: Key, wire: Wire, preferDone: bool): State {
    if key.conn !in s.conns || !s.conns[key.conn].registered then s
    else
      var cc := s.conns[key.conn];
      if |cc.outbox| < caps.outbox && !(cc.done && preferDone)
      then s.(conns := s.conns[key.conn := cc.(outbox := cc.outbox + [wire])])
      else if cc.done || key.session == "" then s
      else SeverOnLoop(s, key)
  }

  function DispatchOne(caps: Caps, s: State, preferDone: bool): State
    requires s.lane != []
  {
    var rest := s.(lane := s.lane[1..]);
    match s.lane[0]
    case Output(chunk) =>
      if chunk.key in s.subs && s.subs[chunk.key] == chunk.tag
      then QueueWire(caps, rest, chunk.key, Surface(chunk), preferDone) else rest
    case Closed(key, tag) =>
      if key in s.subs && s.subs[key] != tag then rest else Detach(rest, key)
  }

  function SetStream(s: State, tag: Tag, stream: Stream): State {
    s.(streams := s.streams[tag := stream])
  }

  function SetConn(s: State, c: ConnId, cc: Conn): State {
    s.(conns := s.conns[c := cc])
  }

  function Next(caps: Caps, s: State, step: Step): State
    requires Enabled(caps, s, step)
  {
    match step
    case ConnOpen(c) => SetConn(s, c, Conn(true, false, [], None, false, false, []))
    case Shut(c) => SetConn(s, c, s.conns[c].(done := true))
    case ConnClose(c) => SetConn(s, c, s.conns[c].(done := true, registered := false))
    case Subscribe(key, frame) =>
      if key in s.subs then s
      else
        var tag := Tag(frame, Counter(s, frame) + 1);
        SetStream(s, tag, Stream(key, 0, [], None)).(
          counters := s.counters[frame := tag.subId], subs := s.subs[key := tag])
    case Unsubscribe(key) => Detach(s, key)
    case FanOut(tag) =>
      var stream := s.streams[tag];
      if |stream.relay| < caps.relay
      then SetStream(s, tag, stream.(next := stream.next + 1, relay := stream.relay + [stream.next]))
      else SeverOffLoop(SetStream(s, tag, stream.(next := stream.next + 1)), stream.key)
    case SourceClosed(tag) =>
      var key := s.streams[tag].key;
      (if Current(s, tag) then Detach(s, key) else s).(severing := s.severing + [Closed(key, tag)])
    case ForwardTake(tag) =>
      var stream := s.streams[tag];
      SetStream(s, tag, stream.(held := Some(stream.relay[0]), relay := stream.relay[1..]))
    case ForwardSend(tag) =>
      var stream := s.streams[tag];
      var sent := SetStream(s, tag, stream.(held := None));
      if |s.lane| < caps.lane
      then sent.(lane := s.lane + [Output(Chunk(stream.key, tag, stream.held.value))])
      else SeverOffLoop(sent, stream.key)
    case Backlogged(tag) => SeverOffLoop(s, s.streams[tag].key)
    case NoticeSent(i) =>
      s.(lane := s.lane + [s.severing[i]], severing := s.severing[..i] + s.severing[i + 1..])
    case Dispatch(preferDone) => DispatchOne(caps, s, preferDone)
    case PromptEvent(key, preferDone) => QueueWire(caps, s, key, Prompt, preferDone)
    case LoopResume => s.(lane := s.lane + [s.loopParked.value], loopParked := None)
    case WriterTake(c) =>
      var cc := s.conns[c];
      SetConn(s, c, cc.(writing := Some(cc.outbox[0]), outbox := cc.outbox[1..]))
    case WriterCheck(c) =>
      var cc := s.conns[c];
      SetConn(s, c, if cc.done then cc.(dead := true) else cc.(passed := true))
    case WriterWrite(c, ok) =>
      var cc := s.conns[c];
      SetConn(s, c, if ok then cc.(written := cc.written + [cc.writing.value], writing := None, passed := false)
                    else cc.(dead := true))
  }

  predicate Possible(caps: Caps, steps: seq<Step>) {
    steps == [] || (Possible(caps, steps[..|steps| - 1]) &&
                    Enabled(caps, Run(caps, steps[..|steps| - 1]), steps[|steps| - 1]))
  }

  function Run(caps: Caps, steps: seq<Step>): State {
    if steps == [] || !Enabled(caps, Run(caps, steps[..|steps| - 1]), steps[|steps| - 1]) then INITIAL
    else Next(caps, Run(caps, steps[..|steps| - 1]), steps[|steps| - 1])
  }
}
