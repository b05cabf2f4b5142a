/**
 The frame-messaging record types, the journal replay and the sanitiser of the
 host runtime (frame_messaging_store.go, bootstrap.go), as specification
 functions on values. `FrameMessagingStore` holds the in-place forms,
 `MessagingRecovery` the crash-recovery theorem.

 Times are whole seconds, as the journal's RFC 3339 stamps are.
 */
module FrameMessaging {
  import opened Wrappers
  import Text

  type FrameId = string
  type MessageId = string
  /** The source and target each message id was sent with. */
  type Endpoints = map<MessageId, (FrameId, FrameId)>

  datatype FrameReply = FrameReply(
    id: string, source: FrameId, body: string, finalAnswer: string, createdAt: int,
    resolution: string, confidence: string, finalAnswerPreview: string)

  datatype FrameMessage = FrameMessage(
    id: MessageId, source: FrameId, target: FrameId, topic: string, body: string,
    priority: string, createdAt: int, read: bool, replyStatus: string,
    deliveryStatus: string, reply: Option<FrameReply>)

  /** One line of messages.jsonl. A field JSON leaves out is `None` or empty. */
  datatype Record =
    | Sent(message: Option<FrameMessage>)
    | Replied(messageId: MessageId, reply: Option<FrameReply>)
    | ReadMarks(messageIds: seq<MessageId>, singleId: MessageId)
    | OtherKind

  const PENDING := "pending"
  const REPLIED := "replied"

  // ---------------------------------------------------------------- replay

  /** The status the live reply path stores. */
  function LiveStatus(resolution: string): string {
    Text.FirstNonEmpty([resolution, REPLIED])
  }

  /** The status replaying a reply record stores. */
  function ReplayStatus(resolution: string): string {
    if resolution != "" then resolution else REPLIED
  }

  /** The two ways an existing message is rewritten during replay. */
  datatype Edit = Preserve(sent: FrameMessage) | SetReply(reply: FrameReply)

  function Apply1(e: Edit, m: FrameMessage): FrameMessage {
    match e
    case Preserve(sent) =>
      sent.(read := sent.read || m.read,
            reply := if m.reply.Some? then m.reply else sent.reply,
            replyStatus := if m.replyStatus != "" then m.replyStatus else sent.replyStatus,
            deliveryStatus := if m.deliveryStatus != "" then m.deliveryStatus else sent.deliveryStatus)
    case SetReply(reply) =>
      m.(reply := Some(reply), replyStatus := ReplayStatus(reply.resolution), deliveryStatus := REPLIED)
  }

  predicate Has(ms: seq<FrameMessage>, id: MessageId) {
    exists i :: 0 <= i < |ms| && ms[i].id == id
  }

  lemma HasAppend(ms: seq<FrameMessage>, m: FrameMessage, id: MessageId)
    ensures Has(ms + [m], id) <==> Has(ms, id) || m.id == id
  {
    assert (ms + [m])[|ms|] == m;
    if Has(ms, id) {
      var k :| 0 <= k < |ms| && ms[k].id == id;
      assert (ms + [m])[k].id == id;
    }
  }

  /** Rewrites the first message carrying `id`, if any. */
  function UpdateFirst(ms: seq<FrameMessage>, id: MessageId, e: Edit): (r: seq<FrameMessage>)
    ensures |r| == |ms|
  {
    if ms == [] then []
    else if ms[0].id == id then [Apply1(e, ms[0])] + ms[1..]
    else [ms[0]] + UpdateFirst(ms[1..], id, e)
  }

  /** The ids a read record marks. */
  function MarkedIds(ids: seq<MessageId>, single: MessageId): set<MessageId> {
    var all := if ids == [] && single != "" then [single] else ids;
    set id | id in all && id != ""
  }

  function MarkRead(ms: seq<FrameMessage>, ids: set<MessageId>): (r: seq<FrameMessage>)
    ensures |r| == |ms|
    ensures forall i :: 0 <= i < |ms| ==> r[i] == if ms[i].id in ids then ms[i].(read := true) else ms[i]
  {
    if ms == [] then []
    else [if ms[0].id in ids then ms[0].(read := true) else ms[0]] + MarkRead(ms[1..], ids)
  }

  /** `applyFrameMessagingJournalRecord`. */
  function Apply(ms: seq<FrameMessage>, rec: Record): seq<FrameMessage> {
    match rec
    case Sent(message) =>
      if message.None? then ms
      else if Has(ms, message.value.id) then UpdateFirst(ms, message.value.id, Preserve(message.value))
      else ms + [message.value]
    case Replied(id, reply) =>
      if reply.None? || id == "" then ms else UpdateFirst(ms, id, SetReply(reply.value))
    case ReadMarks(ids, single) => MarkRead(ms, MarkedIds(ids, single))
    case OtherKind => ms
  }

  /** The replay loop of `loadFrameMessagingFromJournal`. */
  function Replay(journal: seq<Record>, base: seq<FrameMessage>): seq<FrameMessage> {
    if journal == [] then base
    else Apply(Replay(journal[..|journal| - 1], base), journal[|journal| - 1])
  }

  lemma {:induction false} ReplayConcat(a: seq<Record>, b: seq<Record>, base: seq<FrameMessage>)
    ensures Replay(a + b, base) == Replay(b, Replay(a, base))
  {
    if b == [] {
      assert a + b == a;
    } else {
      ReplayConcat(a, b[..|b| - 1], base);
      assert (a + b)[..|a + b| - 1] == a + b[..|b| - 1];
    }
  }

  lemma {:induction false} UpdateFirstAt(ms: seq<FrameMessage>, id: MessageId, e: Edit, k: nat)
    requires k < |ms| && ms[k].id == id && forall j :: 0 <= j < k ==> ms[j].id != id
    ensures UpdateFirst(ms, id, e) == ms[k := Apply1(e, ms[k])]
  {
    if k > 0 {
      UpdateFirstAt(ms[1..], id, e, k - 1);
      assert ms == [ms[0]] + ms[1..];
    }
  }

  lemma {:induction false} UpdateFirstAbsent(ms: seq<FrameMessage>, id: MessageId, e: Edit)
    requires !Has(ms, id)
    ensures UpdateFirst(ms, id, e) == ms
  {
    if ms != [] {
      assert ms[0].id != id;
      assert forall i :: 0 <= i < |ms[1..]| ==> ms[1..][i] == ms[i + 1];
      UpdateFirstAbsent(ms[1..], id, e);
    }
  }

  // -------------------------------------------------------------- sanitise

  /** The test `sanitizeFrameMessaging` keeps a message by. */
  predicate Survives(live: set<FrameId>, m: FrameMessage) {
    m.source in live && m.target in live && (m.reply.Some? ==> m.reply.value.source in live)
  }

  function Sanitize(live: set<FrameId>, ms: seq<FrameMessage>): seq<FrameMessage> {
    if ms == [] then []
    else (if Survives(live, ms[0]) then [ms[0]] else []) + Sanitize(live, ms[1..])
  }

  /** Each message has the endpoints its id was sent with, and is answered by its target. */
  ghost predicate Coherent(ends: Endpoints, ms: seq<FrameMessage>) {
    forall i {:trigger CoherentMessage(ends, ms[i])} :: 0 <= i < |ms| ==> CoherentMessage(ends, ms[i])
  }

  ghost predicate CoherentMessage(ends: Endpoints, m: FrameMessage) {
    m.id in ends && ends[m.id] == (m.source, m.target) && (m.reply.Some? ==> m.reply.value.source == m.target)
  }

  ghost predicate CoherentRecord(ends: Endpoints, rec: Record) {
    match rec
    case Sent(message) => message.Some? ==> CoherentMessage(ends, message.value)
    case Replied(id, reply) => reply.Some? ==> id in ends && reply.value.source == ends[id].1
    case _ => true
  }

  ghost predicate CoherentJournal(ends: Endpoints, journal: seq<Record>) {
    forall i {:trigger CoherentRecord(ends, journal[i])} :: 0 <= i < |journal| ==> CoherentRecord(ends, journal[i])
  }

  /** The journal records that still matter once only `live` frames are kept. */
  function SanitizeRecord(live: set<FrameId>, rec: Record): Record {
    if rec.Sent? && rec.message.Some? && !Survives(live, rec.message.value) then OtherKind else rec
  }

  function SanitizeJournal(live: set<FrameId>, journal: seq<Record>): (r: seq<Record>)
    ensures |r| == |journal|
    ensures forall i :: 0 <= i < |r| ==> r[i] == SanitizeRecord(live, journal[i])
  {
    if journal == [] then []
    else SanitizeJournal(live, journal[..|journal| - 1]) + [SanitizeRecord(live, journal[|journal| - 1])]
  }

  lemma SanitizeCons(live: set<FrameId>, m: FrameMessage, rest: seq<FrameMessage>)
    ensures Sanitize(live, [m] + rest) ==
            if Survives(live, m) then [m] + Sanitize(live, rest) else Sanitize(live, rest)
  {
    assert ([m] + rest)[1..] == rest;
  }

  lemma {:induction false} SanitizeConcat(live: set<FrameId>, a: seq<FrameMessage>, b: seq<FrameMessage>)
    ensures Sanitize(live, a + b) == Sanitize(live, a) + Sanitize(live, b)
  {
    if a == [] {
      assert a + b == b;
    } else {
      SanitizeConcat(live, a[1..], b);
      assert (a + b)[1..] == a[1..] + b;
    }
  }

  lemma {:induction false} SanitizeMember(live: set<FrameId>, ms: seq<FrameMessage>, m: FrameMessage)
    ensures m in Sanitize(live, ms) <==> m in ms && Survives(live, m)
  {
    if ms != [] {
      SanitizeMember(live, ms[1..], m);
    }
  }

  lemma {:induction false} SanitizeIdempotent(live: set<FrameId>, ms: seq<FrameMessage>)
    ensures Sanitize(live, Sanitize(live, ms)) == Sanitize(live, ms)
  {
    if ms != [] {
      SanitizeIdempotent(live, ms[1..]);
      SanitizeConcat(live, if Survives(live, ms[0]) then [ms[0]] else [], Sanitize(live, ms[1..]));
    }
  }

  lemma {:induction false} SanitizeUpdate(
    ends: Endpoints, live: set<FrameId>, ms: seq<FrameMessage>, id: MessageId, e: Edit)
    requires Coherent(ends, ms)
    requires match e case Preserve(sent) => sent.id == id && CoherentMessage(ends, sent)
                     case SetReply(reply) => id in ends && reply.source == ends[id].1
    ensures Coherent(ends, UpdateFirst(ms, id, e))
    ensures Sanitize(live, UpdateFirst(ms, id, e)) == UpdateFirst(Sanitize(live, ms), id, e)
  {
    if ms != [] {
      var m, rest := ms[0], ms[1..];
      assert CoherentMessage(ends, m);
      assert Coherent(ends, rest);
      SanitizeUpdate(ends, live, rest, id, e);
      SanitizeCons(live, m, rest);
      if m.id != id {
        SanitizeCons(live, m, UpdateFirst(rest, id, e));
        assert ([m] + Sanitize(live, rest))[1..] == Sanitize(live, rest);
      } else {
        SanitizeCons(live, Apply1(e, m), rest);
        assert Survives(live, m) == Survives(live, Apply1(e, m));
        if Survives(live, m) {
          assert ([m] + Sanitize(live, rest))[1..] == Sanitize(live, rest);
        } else {
          SanitizeDropsId(ends, live, rest, id);
          UpdateFirstAbsent(Sanitize(live, rest), id, e);
        }
      }
    }
  }

  /** Messages with one id have one pair of endpoints, so they survive or go together. */
  lemma {:induction false} SanitizeDropsId(
    ends: Endpoints, live: set<FrameId>, ms: seq<FrameMessage>, id: MessageId)
    requires Coherent(ends, ms) && id in ends && (ends[id].0 !in live || ends[id].1 !in live)
    ensures !Has(Sanitize(live, ms), id)
  {
    if ms != [] {
      assert CoherentMessage(ends, ms[0]);
      assert Coherent(ends, ms[1..]);
      SanitizeDropsId(ends, live, ms[1..], id);
    }
  }

  lemma SanitizeApply(
    ends: Endpoints, live: set<FrameId>, ms: seq<FrameMessage>, rec: Record)
    requires Coherent(ends, ms) && CoherentRecord(ends, rec)
    ensures Coherent(ends, Apply(ms, rec))
    ensures Sanitize(live, Apply(ms, rec)) == Apply(Sanitize(live, ms), SanitizeRecord(live, rec))
  {
    match rec
    case Sent(message) =>
      if message.Some? {
        SanitizeSent(ends, live, ms, message.value);
      }
    case Replied(id, reply) =>
      if reply.Some? && id != "" {
        SanitizeUpdate(ends, live, ms, id, SetReply(reply.value));
      }
    case ReadMarks(ids, single) => SanitizeMarkRead(ends, live, ms, MarkedIds(ids, single));
    case OtherKind =>
  }

  lemma SanitizeSent(
    ends: Endpoints, live: set<FrameId>, ms: seq<FrameMessage>, m: FrameMessage)
    requires Coherent(ends, ms) && CoherentMessage(ends, m)
    ensures Coherent(ends, Apply(ms, Sent(Some(m))))
    ensures Sanitize(live, Apply(ms, Sent(Some(m)))) ==
            Apply(Sanitize(live, ms), SanitizeRecord(live, Sent(Some(m))))
  {
    var kept := Sanitize(live, ms);
    if Has(ms, m.id) {
      SanitizeUpdate(ends, live, ms, m.id, Preserve(m));
      if !Survives(live, m) {
        SanitizeDropsId(ends, live, ms, m.id);
        UpdateFirstAbsent(kept, m.id, Preserve(m));
      } else {
        var k :| 0 <= k < |ms| && ms[k].id == m.id;
        assert CoherentMessage(ends, ms[k]);
        SanitizeMember(live, ms, ms[k]);
        assert Has(kept, m.id);
      }
    } else {
      SanitizeConcat(live, ms, [m]);
      if Has(kept, m.id) {
        var k :| 0 <= k < |kept| && kept[k].id == m.id;
        SanitizeMember(live, ms, kept[k]);
      }
    }
  }

  lemma {:induction false} SanitizeMarkRead(
    ends: Endpoints, live: set<FrameId>, ms: seq<FrameMessage>, ids: set<MessageId>)
    requires Coherent(ends, ms)
    ensures Coherent(ends, MarkRead(ms, ids))
    ensures Sanitize(live, MarkRead(ms, ids)) == MarkRead(Sanitize(live, ms), ids)
  {
    if ms != [] {
      assert CoherentMessage(ends, ms[0]);
      assert Coherent(ends, ms[1..]);
      SanitizeMarkRead(ends, live, ms[1..], ids);
    }
  }

  /** Sanitising after a replay is replaying the surviving records over the surviving messages. */
  lemma {:induction false} SanitizeReplay(
    ends: Endpoints, live: set<FrameId>, journal: seq<Record>, base: seq<FrameMessage>)
    requires Coherent(ends, base) && CoherentJournal(ends, journal)
    ensures Coherent(ends, Replay(journal, base))
    ensures Sanitize(live, Replay(journal, base)) == Replay(SanitizeJournal(live, journal), Sanitize(live, base))
  {
    if journal != [] {
      var n := |journal| - 1;
      SanitizeReplay(ends, live, journal[..n], base);
      SanitizeApply(ends, live, Replay(journal[..n], base), journal[n]);
      assert SanitizeJournal(live, journal)[..n] == SanitizeJournal(live, journal[..n]);
    }
  }

  /**
   Boot sanitises the snapshot, replays the whole journal over it, and sanitises
   again. The result is the one sanitising only once at the end would give, order
   included, although the dropped messages were re-appended at the end in between.
   */
  lemma SanitizeOnceIsEnough(
    ends: Endpoints, live: set<FrameId>, journal: seq<Record>, base: seq<FrameMessage>)
    requires Coherent(ends, base) && CoherentJournal(ends, journal)
    ensures Sanitize(live, Replay(journal, Sanitize(live, base))) == Sanitize(live, Replay(journal, base))
  {
    SanitizeReplay(ends, live, journal, base);
    SanitizeCoherent(ends, live, base);
    SanitizeReplay(ends, live, journal, Sanitize(live, base));
    SanitizeIdempotent(live, base);
  }

  lemma {:induction false} SanitizeCoherent(
    ends: Endpoints, live: set<FrameId>, ms: seq<FrameMessage>)
    requires Coherent(ends, ms)
    ensures Coherent(ends, Sanitize(live, ms))
  {
    if ms != [] {
      assert CoherentMessage(ends, ms[0]);
      assert Coherent(ends, ms[1..]);
      SanitizeCoherent(ends, live, ms[1..]);
    }
  }
}
