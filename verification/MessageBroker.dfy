/**
 The broker methods of frame_messaging_runtime.go and the web surface's read of
 reduce_messages.go, for one session. Appending to the journal and saving the
 snapshot are inputs that may fail; ids and clocks are inputs too.
 */
module MessageBroker {
  import opened Wrappers
  import opened FrameMessaging
  import opened JournalFile
  import opened MessagingRecovery
  import opened MessagingLedger
  import opened MessagingRuns
  import opened FrameMessagingStore
  import Text

  datatype Frame = Frame(id: FrameId, agent: bool)

  datatype SendError =
    | SendSourceNotFound | SendSourceNotAgent | BodyRequired | CrossSessionTarget | TargetNotFound
    | SelfTarget | TargetNotAgent | SendNotJournalled

  datatype ReplyError =
    | ReplySourceNotFound | ReplySourceNotAgent | MessageNotFound | NotMessageTarget
    | ReplyAlreadyExists | EmptyReply | ReplyNotJournalled

  datatype ReadError = ReadSourceNotFound | ReadSourceNotAgent | PeerNotFound | ReadNotJournalled

  /** `frameByID`. */
  function FindFrame(frames: seq<Frame>, id: FrameId): (r: Option<Frame>)
    ensures r.Some? ==> r.value in frames && r.value.id == id
    ensures r.None? ==> forall f :: f in frames ==> f.id != id
  {
    if frames == [] then None
    else if frames[0].id == id then Some(frames[0])
    else FindFrame(frames[1..], id)
  }

  predicate IsAgentFrame(frames: seq<Frame>, id: FrameId) {
    FindFrame(frames, id).Some? && FindFrame(frames, id).value.agent
  }

  predicate Visible(source: FrameId, peer: FrameId, m: FrameMessage) {
    && (m.source == source || m.target == source)
    && (peer == "" || m.source == peer || m.target == peer)
  }

  predicate UnreadBy(source: FrameId, peer: FrameId, m: FrameMessage) {
    Visible(source, peer, m) && m.target == source && !m.read
  }

  function Inbox(source: FrameId, peer: FrameId, ms: seq<FrameMessage>): seq<FrameMessage> {
    if ms == [] then []
    else Inbox(source, peer, ms[..|ms| - 1]) + (if Visible(source, peer, ms[|ms| - 1]) then [ms[|ms| - 1]] else [])
  }

  predicate KnownFrame(frames: seq<Frame>, id: FrameId) {
    FindFrame(frames, id).Some?
  }

  /** What each refusal of a send means; no two hold at once. */
  predicate SendRefused(
    frames: seq<Frame>, source: FrameId, target: FrameId, body: string, elsewhere: bool, e: SendError) {
    match e
    case SendSourceNotFound => !KnownFrame(frames, source)
    case SendSourceNotAgent => KnownFrame(frames, source) && !IsAgentFrame(frames, source)
    case BodyRequired => IsAgentFrame(frames, source) && Text.IsBlank(body)
    case SendNotJournalled => SendAccepted(frames, source, target, body)
    case _ =>
      IsAgentFrame(frames, source) && !Text.IsBlank(body) && TargetRefused(frames, source, target, elsewhere, e)
  }

  predicate TargetRefused(frames: seq<Frame>, source: FrameId, target: FrameId, elsewhere: bool, e: SendError) {
    match e
    case CrossSessionTarget => !KnownFrame(frames, target) && elsewhere
    case TargetNotFound => !KnownFrame(frames, target) && !elsewhere
    case SelfTarget => target == source
    case _ => KnownFrame(frames, target) && target != source && !IsAgentFrame(frames, target)
  }

  predicate SendAccepted(frames: seq<Frame>, source: FrameId, target: FrameId, body: string) {
    IsAgentFrame(frames, source) && !Text.IsBlank(body) && IsAgentFrame(frames, target) && target != source
  }

  /** What each refusal of a read means. */
  predicate ReadRefused(frames: seq<Frame>, source: FrameId, peer: FrameId, e: ReadError) {
    match e
    case ReadSourceNotFound => !KnownFrame(frames, source)
    case ReadSourceNotAgent => KnownFrame(frames, source) && !IsAgentFrame(frames, source)
    case PeerNotFound => IsAgentFrame(frames, source) && peer != "" && !IsAgentFrame(frames, peer)
    case ReadNotJournalled => ReadAccepted(frames, source, peer)
  }

  predicate ReadAccepted(frames: seq<Frame>, source: FrameId, peer: FrameId) {
    IsAgentFrame(frames, source) && (peer == "" || IsAgentFrame(frames, peer))
  }

  /** What each refusal of a reply means, on the message found for it. */
  predicate ReplyRefused(frames: seq<Frame>, ms: seq<FrameMessage>, source: FrameId, id: MessageId, found: int,
                         blank: bool, e: ReplyError) {
    match e
    case ReplySourceNotFound => !KnownFrame(frames, source)
    case ReplySourceNotAgent => KnownFrame(frames, source) && !IsAgentFrame(frames, source)
    case MessageNotFound => IsAgentFrame(frames, source) && !Has(ms, id)
    case NotMessageTarget => IsAgentFrame(frames, source) && FirstWith(ms, id, found) && ms[found].target != source
    case ReplyAlreadyExists => Addressed(frames, ms, source, id, found) && ms[found].reply.Some?
    case EmptyReply => Addressed(frames, ms, source, id, found) && ms[found].reply.None? && blank
    case ReplyNotJournalled => Addressed(frames, ms, source, id, found) && ms[found].reply.None? && !blank
  }

  predicate FirstWith(ms: seq<FrameMessage>, id: MessageId, found: int) {
    0 <= found < |ms| && ms[found].id == id && forall i :: 0 <= i < found ==> ms[i].id != id
  }

  predicate Addressed(frames: seq<Frame>, ms: seq<FrameMessage>, source: FrameId, id: MessageId, found: int) {
    IsAgentFrame(frames, source) && FirstWith(ms, id, found) && ms[found].target == source
  }

  /** With distinct ids, marking by position is marking by id. */
  lemma MarkAtIsMarkRead(ms: seq<FrameMessage>, at: set<int>, ids: seq<MessageId>, out: seq<FrameMessage>)
    requires forall i :: 0 <= i < |ms| ==> (ms[i].id in ids <==> i in at)
    requires forall i :: 0 <= i < |ms| ==> ms[i].id != ""
    requires |out| == |ms| && forall i :: 0 <= i < |ms| ==> out[i] == if i in at then ms[i].(read := true) else ms[i]
    ensures out == MarkRead(ms, MarkedIds(ids, ""))
  {
    var marked := MarkRead(ms, MarkedIds(ids, ""));
    forall i | 0 <= i < |ms| ensures out[i] == marked[i] {
      assert ms[i].id in MarkedIds(ids, "") <==> i in at;
    }
  }

  lemma BootDistinct(s: Store, frames: set<FrameId>, readable: bool)
    requires Inv(s) && frames !! s.ledger.gone
    ensures Distinct(Boot(s, frames, readable))
  {
    RestartsKeep(s, frames);
    SanitizeDistinct(frames, s.ledger.saved);
  }

  /** What a restart leaves as it was, and that it forgets no frame that is up. */
  lemma RestartIs(s: Store, frames: set<FrameId>)
    ensures var s' := Next(s, Restart(frames));
            && s'.ledger.live == Boot(s, frames, true)
            && s'.file == s.file && s'.ledger.saved == s.ledger.saved
            && s'.ledger.savedAt == s.ledger.savedAt && s'.ledger.savedGone == s.ledger.savedGone
            && s'.ledger.gone !! frames - s.ledger.gone
            && (!Loads(s.file) ==> forall readable :: Boot(s, frames, readable) == Boot(s, frames, true))
  {
  }

  /** Read marks do not show. */
  ghost predicate IgnoresRead(shown: FrameMessage -> Shown) {
    forall m: FrameMessage :: shown(m.(read := true)) == shown(m)
  }

  lemma ShownIgnoresRead()
    ensures IgnoresRead(ShownOf)
  {
    forall m: FrameMessage ensures ShownOf(m.(read := true)) == ShownOf(m) {
      assert ReplyPreview(m.(read := true)) == ReplyPreview(m);
    }
  }

  /** `frameMessagingReply` rewrites the message it found, which is the first with its id. */
  lemma ReplyAtFound(l: Ledger, k: nat, r: FrameReply, status: string)
    requires k < |l.live| && forall i :: 0 <= i < k ==> l.live[i].id != l.live[k].id
    ensures Taken(l, Replied(l.live[k].id, Some(r)), status) ==
            l.(live := l.live[k := WithReply(l.live[k], r, status)],
               journal := l.journal + [Replied(l.live[k].id, Some(r))])
  {
    LiveReplyAt(l.live, l.live[k].id, r, status, k);
  }

  /** The handlers take the steps of `MessagingRuns`, and only when those are possible. */
  ghost predicate Stepped(s: Store, s': Store, op: Op) {
    Enabled(s, op) && s' == Next(s, op)
  }

  /** The reply a caller's text makes. */
  predicate Answers(r: FrameReply, source: FrameId, body: string, finalAnswer: string, resolution: string,
                    confidence: string, id: string, now: int) {
    && r.source == source && r.body == body && r.finalAnswer == finalAnswer && r.resolution == resolution
    && r.createdAt == now && r.id == id
    && r.confidence == Text.FirstNonEmpty([confidence, "high"])
    && r.finalAnswerPreview == Preview(Text.FirstNonEmpty([finalAnswer, body]))
  }

  class Broker {
    /** What a message shows in the summary; `ShownOf` in the running system. */
    const shown: FrameMessage -> Shown
    var frames: seq<Frame>
    var messages: seq<FrameMessage>
    var summary: Summary
    var file: File
    var saved: seq<FrameMessage>
    ghost var journal: seq<Record>
    ghost var gone: set<FrameId>
    ghost var savedAt: nat
    ghost var savedGone: set<FrameId>

    ghost function Model(): Store
      reads this
    {
      Store(Ledger(messages, journal, saved, gone, savedAt, savedGone), file)
    }

    ghost predicate Valid()
      reads this
    {
      && Distinct(messages)
      && summary == Summarize(shown, messages)
      && forall f :: f in frames ==> f.id !in gone
    }

    constructor (shown: FrameMessage -> Shown, frames: seq<Frame>)
      ensures Valid() && Model() == INITIAL && this.frames == frames && this.shown == shown
    {
      this.shown := shown;
      this.frames := frames;
      messages, file, saved := [], EMPTY, [];
      summary := Summary(0, "", "", 0, "");
      journal, gone, savedAt, savedGone := [], {}, 0, {};
    }

    /** The running system's broker. */
    constructor Running(frames: seq<Frame>)
      ensures Valid() && Model() == INITIAL && this.frames == frames && shown == ShownOf && IgnoresRead(shown)
    {
      this.shown := ShownOf;
      this.frames := frames;
      messages, file, saved := [], EMPTY, [];
      summary := Summary(0, "", "", 0, "");
      journal, gone, savedAt, savedGone := [], {}, 0, {};
      new;
      ShownIgnoresRead();
    }

    /** Journal the record of `op`; if that went well, commit in memory and save the snapshot, which may fail. */
    method Commit(ghost op: Op, rec: Record, next: seq<FrameMessage>, append: Append, saveOk: bool)
      requires Valid() && Handler(op) && Enabled(Model(), op)
      requires rec == RecordOf(op) && append == op.append && saveOk == op.saveOk
      requires next == Taken(Model().ledger, rec, StatusOf(op)).live
      modifies this`messages, this`summary, this`file, this`saved, this`journal, this`savedAt, this`savedGone
      ensures Valid() && Stepped(old(Model()), Model(), op)
      ensures messages == if append.Written? then next else old(messages)
    {
      TakenDistinct(Model().ledger, rec, StatusOf(op));
      Write(rec, next, StatusOf(op), append, saveOk);
    }

    method Write(rec: Record, next: seq<FrameMessage>, ghost status: string, append: Append, saveOk: bool)
      requires next == Taken(Model().ledger, rec, status).live && summary == Summarize(shown, messages)
      modifies this`messages, this`summary, this`file, this`saved, this`journal, this`savedAt, this`savedGone
      ensures Model() == Handled(old(Model()), rec, status, append, saveOk)
      ensures messages == if append.Written? then next else old(messages)
      ensures summary == Summarize(shown, messages)
    {
      file := Appended(file, rec, append);
      if !append.Written? { return; }
      journal := journal + [rec];
      messages := next;
      summary := ComputeSummary(shown, next);
      SaveSnapshot(saveOk);
    }

    method CheckSend(source: FrameId, target: FrameId, body: string, elsewhere: bool) returns (r: Option<SendError>)
      ensures r.None? ==> SendAccepted(frames, source, target, body)
      ensures r.Some? ==> SendRefused(frames, source, target, body, elsewhere, r.value) && r.value != SendNotJournalled
    {
      var src := FindFrame(frames, source);
      if src.None? { return Some(SendSourceNotFound); }
      if !src.value.agent { return Some(SendSourceNotAgent); }
      Text.TrimSpaceFacts(body);
      if Text.TrimSpace(body) == "" { return Some(BodyRequired); }
      var dst := FindFrame(frames, target);
      if dst.None? { return Some(if elsewhere then CrossSessionTarget else TargetNotFound); }
      if target == source { return Some(SelfTarget); }
      if !dst.value.agent { return Some(TargetNotAgent); }
      return None;
    }

    /** `frameMessagingSend`. */
    method Send(source: FrameId, target: FrameId, topic: string, body: string, priority: string,
                id: MessageId, now: int, elsewhere: bool, append: Append, saveOk: bool)
      returns (r: Result<FrameMessage, SendError>)
      requires Valid() && Fresh(journal, id) && !Has(messages, id)
      requires append.Written? ==> |body| < append.bytes
      modifies this
      ensures Valid() && frames == old(frames)
      ensures r.Ok? <==> SendAccepted(frames, source, target, body) && append.Written?
      ensures r.Err? ==> SendRefused(frames, source, target, body, elsewhere, r.error)
      ensures var msg := FrameMessage(id, source, target, topic, body, priority, now, false, PENDING, PENDING, None);
              && (r.Ok? ==> r.value == msg)
              && if SendAccepted(frames, source, target, body)
                 then Stepped(old(Model()), Model(), MessagingRuns.Send(msg, append, saveOk))
                 else unchanged(this)
    {
      var rejected := CheckSend(source, target, body, elsewhere);
      if rejected.Some? { return Err(rejected.value); }
      var msg := FrameMessage(id, source, target, topic, body, priority, now, false, PENDING, PENDING, None);
      Commit(MessagingRuns.Send(msg, append, saveOk), Sent(Some(msg)), messages + [msg], append, saveOk);
      if !append.Written? { return Err(SendNotJournalled); }
      return Ok(msg);
    }

    /** The messages `source` may see, and those of them it has not read. */
    method Collect(source: FrameId, peer: FrameId) returns (inbox: seq<FrameMessage>, ids: seq<MessageId>, at: seq<int>)
      requires forall i, k :: 0 <= i < k < |messages| ==> messages[i].id != messages[k].id
      ensures inbox == Inbox(source, peer, messages)
      ensures forall i :: 0 <= i < |messages| ==> (i in at <==> UnreadBy(source, peer, messages[i]))
      ensures forall i :: 0 <= i < |messages| ==> (messages[i].id in ids <==> i in at)
      ensures forall i :: i in at ==> 0 <= i < |messages|
      ensures ids == [] <==> at == []
    {
      inbox, ids, at := [], [], [];
      for n := 0 to |messages|
        invariant inbox == Inbox(source, peer, messages[..n])
        invariant forall i :: 0 <= i < n ==> (i in at <==> UnreadBy(source, peer, messages[i]))
        invariant forall i :: 0 <= i < |messages| ==> (messages[i].id in ids <==> i in at)
        invariant forall i :: i in at ==> 0 <= i < n
        invariant |ids| == |at|
      {
        var msg := messages[n];
        assert messages[..n + 1][..n] == messages[..n];
        if msg.source != source && msg.target != source { continue; }
        if peer != "" && msg.source != peer && msg.target != peer { continue; }
        if msg.target == source && !msg.read {
          ids := ids + [msg.id];
          at := at + [n];
        }
        inbox := inbox + [msg];
      }
      assert messages[..|messages|] == messages;
    }

    method MarkAt(at: seq<int>) returns (next: seq<FrameMessage>)
      requires forall i :: i in at ==> 0 <= i < |messages|
      ensures |next| == |messages|
      ensures forall i :: 0 <= i < |messages| ==>
                next[i] == if i in at then messages[i].(read := true) else messages[i]
    {
      next := messages;
      for k := 0 to |at|
        invariant |next| == |messages|
        invariant forall i :: 0 <= i < |messages| ==>
                    next[i] == if i in at[..k] then messages[i].(read := true) else messages[i]
      {
        assert at[k] in at;
        next := next[at[k] := next[at[k]].(read := true)];
        assert at[..k + 1] == at[..k] + [at[k]];
      }
      assert at[..|at|] == at;
    }

    /** The list with the messages at `at`, whose ids are `ids`, marked read. */
    method Marked(ids: seq<MessageId>, at: seq<int>) returns (next: seq<FrameMessage>)
      requires Distinct(messages)
      requires forall i :: i in at ==> 0 <= i < |messages|
      requires forall i :: 0 <= i < |messages| ==> (messages[i].id in ids <==> i in at)
      ensures next == MarkRead(messages, MarkedIds(ids, "")) && Distinct(next)
      ensures forall i :: 0 <= i < |messages| ==>
                next[i] == if i in at then messages[i].(read := true) else messages[i]
    {
      next := MarkAt(at);
      MarkAtIsMarkRead(messages, (set i | i in at), ids, next);
      forall i | 0 <= i < |messages| ensures next[i].id == messages[i].id {}
    }

    /** Journals the read marks and commits them. */
    method AcceptRead(ids: seq<MessageId>, at: seq<int>, append: Append, saveOk: bool)
      requires Valid()
      requires forall i :: i in at ==> 0 <= i < |messages|
      requires forall i :: 0 <= i < |messages| ==> (messages[i].id in ids <==> i in at)
      modifies this
      ensures Valid() && frames == old(frames)
      ensures Stepped(old(Model()), Model(), MessagingRuns.Read(ids, append, saveOk))
      ensures |messages| == |old(messages)|
      ensures forall i :: 0 <= i < |messages| ==>
                messages[i] ==
                if append.Written? && i in at then old(messages)[i].(read := true) else old(messages)[i]
    {
      var next := Marked(ids, at);
      Commit(MessagingRuns.Read(ids, append, saveOk), ReadMarks(ids, ""), next, append, saveOk);
    }

    method CheckRead(source: FrameId, peer: FrameId) returns (r: Option<ReadError>)
      ensures r.None? ==> ReadAccepted(frames, source, peer)
      ensures r.Some? ==> ReadRefused(frames, source, peer, r.value) && r.value != ReadNotJournalled
    {
      var src := FindFrame(frames, source);
      if src.None? { return Some(ReadSourceNotFound); }
      if !src.value.agent { return Some(ReadSourceNotAgent); }
      if peer != "" {
        var target := FindFrame(frames, peer);
        if target.None? || !target.value.agent { return Some(PeerNotFound); }
      }
      return None;
    }

    /** `frameMessagingRead`: returns what the caller may see and marks what is addressed to it. */
    method ReadInbox(source: FrameId, peer: FrameId, append: Append, saveOk: bool)
      returns (r: Result<seq<FrameMessage>, ReadError>, ghost ids: seq<MessageId>)
      requires Valid()
      modifies this
      ensures Valid() && frames == old(frames)
      ensures r.Ok? ==> r.value == Inbox(source, peer, messages)
      ensures r.Ok? ==> forall i :: 0 <= i < |messages| ==> !UnreadBy(source, peer, messages[i])
      ensures r.Ok? ==> ReadAccepted(frames, source, peer)
      ensures r.Err? ==> ReadRefused(frames, source, peer, r.error)
      ensures r == Err(ReadNotJournalled) ==> !append.Written?
      ensures if ids != [] then Stepped(old(Model()), Model(), MessagingRuns.Read(ids, append, saveOk))
              else unchanged(this)
      ensures ids != [] ==> ReadAccepted(frames, source, peer) && r.Ok? == append.Written?
    {
      ids := [];
      var rejected := CheckRead(source, peer);
      if rejected.Some? { return Err(rejected.value), []; }
      var inbox, readIds, at := Collect(source, peer);
      if |readIds| == 0 { return Ok(inbox), []; }
      AcceptRead(readIds, at, append, saveOk);
      if !append.Written? { return Err(ReadNotJournalled), readIds; }
      var shown, _, _ := Collect(source, peer);
      return Ok(shown), readIds;
    }

    method CheckReply(source: FrameId, messageId: MessageId, body: string, finalAnswer: string, resolution: string)
      returns (r: Option<ReplyError>, found: int)
      ensures var blank := Text.IsBlank(body) && Text.IsBlank(finalAnswer) && Text.IsBlank(resolution);
              && (r.None? ==>
                    Addressed(frames, messages, source, messageId, found) && messages[found].reply.None? && !blank)
              && (r.Some? ==> ReplyRefused(frames, messages, source, messageId, found, blank, r.value))
      ensures r != Some(ReplyNotJournalled)
    {
      found := -1;
      var src := FindFrame(frames, source);
      if src.None? { return Some(ReplySourceNotFound), -1; }
      if !src.value.agent { return Some(ReplySourceNotAgent), -1; }
      found := FindMessage(messages, messageId);
      if found == -1 { return Some(MessageNotFound), -1; }
      var msg := messages[found];
      if msg.target != source { return Some(NotMessageTarget), found; }
      if msg.reply.Some? { return Some(ReplyAlreadyExists), found; }
      Text.TrimSpaceFacts(body);
      Text.TrimSpaceFacts(finalAnswer);
      Text.TrimSpaceFacts(resolution);
      if Text.TrimSpace(body) == "" && Text.TrimSpace(finalAnswer) == "" && Text.TrimSpace(resolution) == "" {
        return Some(EmptyReply), found;
      }
      return None, found;
    }

    method BuildReply(source: FrameId, body: string, finalAnswer: string, resolution: string,
                      confidence: string, id: string, now: int) returns (r: FrameReply)
      ensures Answers(r, source, body, finalAnswer, resolution, confidence, id, now)
    {
      r := FrameReply(id, source, body, finalAnswer, now, resolution,
                      Text.FirstNonEmpty([confidence, "high"]),
                      Preview(Text.FirstNonEmpty([finalAnswer, body])));
    }

    /** Journals the reply and commits it on the message at `found`. */
    method AcceptReply(found: nat, reply: FrameReply, status: string, append: Append, saveOk: bool)
      requires Valid() && found < |messages| && messages[found].target == reply.source && messages[found].reply.None?
      requires forall i :: 0 <= i < found ==> messages[i].id != messages[found].id
      requires messages[found].id != "" && status != ""
      modifies this
      ensures Valid() && frames == old(frames)
      ensures Stepped(old(Model()), Model(), MessagingRuns.Reply(old(messages)[found].id, reply, status, append, saveOk))
    {
      ReplyAtFound(Model().ledger, found, reply, status);
      Commit(MessagingRuns.Reply(messages[found].id, reply, status, append, saveOk),
             Replied(messages[found].id, Some(reply)),
             messages[found := WithReply(messages[found], reply, status)], append, saveOk);
    }

    /** `frameMessagingReply`. */
    method ReplyTo(source: FrameId, messageId: MessageId, body: string, finalAnswer: string, resolution: string,
                   confidence: string, id: string, now: int, append: Append, saveOk: bool)
      returns (r: Result<FrameReply, ReplyError>, ghost found: int, ghost reply: FrameReply)
      requires Valid()
      modifies this
      ensures Valid() && frames == old(frames)
      ensures r.Ok? ==> r.value == reply && append.Written?
      ensures r.Ok? ==>
                Addressed(frames, old(messages), source, messageId, found) && Open(old(messages), messageId, source)
      ensures r.Err? ==>
                var blank := Text.IsBlank(body) && Text.IsBlank(finalAnswer) && Text.IsBlank(resolution);
                ReplyRefused(frames, old(messages), source, messageId, found, blank, r.error)
      ensures r == Err(ReplyNotJournalled) ==> !append.Written?
      ensures if r.Ok? || r.error.ReplyNotJournalled?
              then
                && Answers(reply, source, body, finalAnswer, resolution, confidence, id, now)
                && Stepped(old(Model()), Model(),
                           MessagingRuns.Reply(messageId, reply, LiveStatus(resolution), append, saveOk))
              else unchanged(this)
    {
      reply := *;
      var rejected, index := CheckReply(source, messageId, body, finalAnswer, resolution);
      found := index;
      if rejected.Some? { return Err(rejected.value), index, reply; }
      var built := BuildReply(source, body, finalAnswer, resolution, confidence, id, now);
      reply := built;
      var status := LiveStatus(resolution);
      StatusesAgree(resolution);
      AcceptReply(index, built, status, append, saveOk);
      if !append.Written? { return Err(ReplyNotJournalled), index, reply; }
      return Ok(built), index, reply;
    }

    /** `markSessionMessagesReadThroughID`: the ids it newly marks, up to the first message with `lastId`. */
    method ThroughId(lastId: MessageId) returns (boundary: int, ids: seq<MessageId>, at: seq<int>)
      requires forall i, k :: 0 <= i < k < |messages| ==> messages[i].id != messages[k].id
      ensures -1 <= boundary < |messages|
      ensures boundary == -1 <==> lastId == "" || !Has(messages, lastId)
      ensures boundary >= 0 ==> messages[boundary].id == lastId
      ensures forall i :: i in at <==> 0 <= i <= boundary && !messages[i].read
      ensures forall i :: 0 <= i < |messages| ==> (messages[i].id in ids <==> i in at)
      ensures boundary == -1 ==> ids == []
      ensures ids == [] <==> at == []
    {
      boundary, ids, at := -1, [], [];
      if lastId == "" { return; }
      boundary := FindMessage(messages, lastId);
      if boundary == -1 { return; }
      for n := 0 to boundary + 1
        invariant forall i :: i in at <==> 0 <= i < n && !messages[i].read
        invariant forall i :: 0 <= i < |messages| ==> (messages[i].id in ids <==> i in at)
        invariant |ids| == |at|
      {
        if !messages[n].read {
          ids := ids + [messages[n].id];
          at := at + [n];
        }
      }
    }

    /**
     The web surface's read (`reduceReadSessionMessages` and its effects): memory is
     marked and saved first, the journal append comes after and its failure is ignored.
     */
    method ReadThroughId(lastId: MessageId, saveOk: bool, append: Append, resaveOk: bool)
      returns (ghost ids: seq<MessageId>)
      requires Valid() && IgnoresRead(shown)
      modifies this
      ensures Valid() && frames == old(frames)
      ensures if ids == [] then unchanged(this)
              else Stepped(old(Model()), Model(), MessagingRuns.ReadThrough(ids, saveOk, append, resaveOk))
      ensures lastId != "" && Has(messages, lastId) ==>
                exists k :: 0 <= k < |messages| && messages[k].id == lastId &&
                            forall i :: 0 <= i <= k ==> messages[i].read
    {
      var boundary, readIds, at := ThroughId(lastId);
      ids := readIds;
      if boundary == -1 || |readIds| == 0 { return; }
      MarkThrough(readIds, at, saveOk, append, resaveOk);
    }

    method MarkThrough(ids: seq<MessageId>, at: seq<int>, saveOk: bool, append: Append, resaveOk: bool)
      requires Valid() && IgnoresRead(shown)
      requires forall i :: i in at ==> 0 <= i < |messages|
      requires forall i :: 0 <= i < |messages| ==> (messages[i].id in ids <==> i in at)
      modifies this
      ensures Valid() && frames == old(frames)
      ensures Stepped(old(Model()), Model(), MessagingRuns.ReadThrough(ids, saveOk, append, resaveOk))
      ensures |messages| == |old(messages)|
      ensures forall i :: 0 <= i < |messages| ==>
                messages[i] == if i in at then old(messages)[i].(read := true) else old(messages)[i]
    {
      var next := Marked(ids, at);
      var shownNow := SummaryWithMarks(ids, next);
      PublishMarks(ids, next, shownNow, saveOk, append, resaveOk);
    }

    /** Only the unread count is recomputed; that is the whole new summary. */
    method SummaryWithMarks(ids: seq<MessageId>, next: seq<FrameMessage>) returns (s: Summary)
      requires summary == Summarize(shown, messages) && IgnoresRead(shown)
      requires next == MarkRead(messages, MarkedIds(ids, ""))
      ensures s == Summarize(shown, next)
    {
      var unread := CountUnread(next);
      SummaryAfterRead(shown, messages, MarkedIds(ids, ""));
      s := summary.(unread := unread);
    }

    method PublishMarks(ids: seq<MessageId>, next: seq<FrameMessage>, shownNow: Summary,
                        saveOk: bool, append: Append, resaveOk: bool)
      requires next == MarkRead(messages, MarkedIds(ids, ""))
      modifies this`messages, this`summary, this`file, this`journal, this`saved, this`savedAt, this`savedGone
      ensures Model() == Next(old(Model()), MessagingRuns.ReadThrough(ids, saveOk, append, resaveOk))
      ensures messages == next && summary == shownNow
    {
      messages, summary := next, shownNow;
      SaveSnapshot(saveOk);
      file := Appended(file, ReadMarks(ids, ""), append);
      if !append.NotWritten? { journal := journal + [ReadMarks(ids, "")]; }
      SaveSnapshot(resaveOk);
    }

    method CountUnread(ms: seq<FrameMessage>) returns (unread: nat)
      ensures unread == Summarize(shown, ms).unread
    {
      unread := 0;
      for n := 0 to |ms|
        invariant unread == Summarize(shown, ms[..n]).unread
      {
        assert ms[..n + 1][..n] == ms[..n];
        if !ms[n].read { unread := unread + 1; }
      }
      assert ms[..|ms|] == ms;
    }

    method SaveSnapshot(ok: bool)
      modifies this`saved, this`savedAt, this`savedGone
      ensures Model() == old(Model()).(ledger := Saving(old(Model()).ledger, ok))
    {
      if ok {
        saved := messages;
        savedAt, savedGone := |journal|, gone;
      }
    }

    /**
     A restart with the frames in `alive`: memory comes from disk alone. One that can
     open its journal, or could not read it anyway, is a step of a run.
     */
    method Restart(alive: seq<Frame>, readable: bool)
      requires Valid() && Inv(Model()) && forall f :: f in alive ==> f.id !in gone
      modifies this
      ensures Valid() && frames == alive
      ensures messages == Boot(old(Model()), set f | f in alive :: f.id, readable)
      ensures file == old(file) && saved == old(saved)
      ensures readable || !Loads(old(file)) ==>
                Stepped(old(Model()), Model(), MessagingRuns.Restart(set f | f in alive :: f.id))
    {
      var live := set f | f in alive :: f.id;
      BootDistinct(Model(), live, readable);
      RestartIs(Model(), live);
      Reload(alive, live, readable, Next(Model(), MessagingRuns.Restart(live)));
    }

    /** `next` is where a restart leads, as far as memory and disk do not say it. */
    method Reload(alive: seq<Frame>, live: set<FrameId>, readable: bool, ghost next: Store)
      requires Distinct(Boot(Model(), live, readable))
      requires next.file == file && next.ledger.saved == saved
      requires next.ledger.savedAt == savedAt && next.ledger.savedGone == savedGone
      requires forall f :: f in alive ==> f.id !in next.ledger.gone
      modifies this
      ensures Valid() && frames == alive && file == old(file) && saved == old(saved)
      ensures messages == Boot(old(Model()), live, readable)
      ensures Model() == next.(ledger := next.ledger.(live := messages))
    {
      var restored, shownNow := RestoreMessages(live, readable);
      messages, summary, frames := restored, shownNow, alive;
      journal, gone := next.ledger.journal, next.ledger.gone;
    }

    method RestoreMessages(live: set<FrameId>, readable: bool) returns (restored: seq<FrameMessage>, shownNow: Summary)
      ensures restored == Boot(Model(), live, readable) && shownNow == Summarize(shown, restored)
    {
      var session := RestoreSession(shown, Model(), saved, file, live, readable);
      return session.messages, session.summary;
    }
  }
}
