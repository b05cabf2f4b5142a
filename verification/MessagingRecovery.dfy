/**
 Crash recovery of frame messaging: every send, read and reply is journalled,
 committed in memory and then snapshotted, and any append or save may fail. A
 boot replays the whole journal over whatever snapshot is on disk.
 */
module MessagingRecovery {
  import opened Wrappers
  import opened FrameMessaging

  // ------------------------------------------------ what a journal records

  function Sents(j: seq<Record>): seq<FrameMessage> {
    if j == [] then []
    else
      var rest, last := Sents(j[..|j| - 1]), j[|j| - 1];
      if last.Sent? && last.message.Some? then rest + [last.message.value] else rest
  }

  function ReplyIn(j: seq<Record>, id: MessageId): Option<FrameReply> {
    if j == [] then None
    else
      var last := j[|j| - 1];
      if last.Replied? && last.messageId == id && last.reply.Some? then last.reply
      else ReplyIn(j[..|j| - 1], id)
  }

  predicate Marks(rec: Record, id: MessageId) {
    rec.ReadMarks? && id in MarkedIds(rec.messageIds, rec.singleId)
  }

  predicate ReadIn(j: seq<Record>, id: MessageId) {
    j != [] && (Marks(j[|j| - 1], id) || ReadIn(j[..|j| - 1], id))
  }

  function EndsOf(j: seq<Record>): Endpoints {
    if j == [] then map[]
    else
      var rest, last := EndsOf(j[..|j| - 1]), j[|j| - 1];
      if last.Sent? && last.message.Some?
      then rest[last.message.value.id := (last.message.value.source, last.message.value.target)]
      else rest
  }

  /** A message as `frameMessagingSend` builds it. */
  predicate Pristine(m: FrameMessage) {
    m.id != "" && !m.read && m.reply.None? && m.replyStatus == PENDING && m.deliveryStatus == PENDING
  }

  predicate Fresh(j: seq<Record>, id: MessageId) {
    id != "" && !Has(Sents(j), id) && ReplyIn(j, id).None? && !ReadIn(j, id)
  }

  predicate MayFollow(j: seq<Record>, rec: Record) {
    match rec
    case Sent(message) => message.Some? ==> Pristine(message.value) && Fresh(j, message.value.id)
    case Replied(id, reply) => id != "" && (reply.Some? ==> ReplyIn(j, id).None?)
    case _ => true
  }

  /** Ids are sent once and answered at most once. */
  predicate WellFormed(j: seq<Record>) {
    j == [] || (WellFormed(j[..|j| - 1]) && MayFollow(j[..|j| - 1], j[|j| - 1]))
  }

  // ------------------------------------- lists a journal has been applied to

  /** `m` is sent message `s` after journal `j`; read marks may be ahead of `j`. */
  predicate Matches(j: seq<Record>, s: FrameMessage, m: FrameMessage) {
    && m.(read := s.read, replyStatus := s.replyStatus, deliveryStatus := s.deliveryStatus, reply := s.reply) == s
    && m.reply == ReplyIn(j, s.id)
    && (ReadIn(j, s.id) ==> m.read)
    && (if m.reply.Some?
        then m.deliveryStatus == REPLIED && m.replyStatus != ""
        else m.deliveryStatus == PENDING && m.replyStatus == PENDING)
  }

  predicate MatchAll(j: seq<Record>, ss: seq<FrameMessage>, ms: seq<FrameMessage>) {
    |ss| == |ms| && forall i {:trigger Matches(j, ss[i], ms[i])} :: 0 <= i < |ss| ==> Matches(j, ss[i], ms[i])
  }

  predicate Reached(j: seq<Record>, ms: seq<FrameMessage>) {
    MatchAll(j, Sents(j), ms)
  }

  lemma {:induction false} SentsDistinct(j: seq<Record>)
    requires WellFormed(j)
    ensures forall i :: 0 <= i < |Sents(j)| ==> Pristine(Sents(j)[i])
    ensures forall i, k :: 0 <= i < k < |Sents(j)| ==> Sents(j)[i].id != Sents(j)[k].id
  {
    if j != [] {
      SentsDistinct(j[..|j| - 1]);
    }
  }

  lemma InitOf(j: seq<Record>, rec: Record)
    ensures (j + [rec])[..|j + [rec]| - 1] == j && (j + [rec])[|j + [rec]| - 1] == rec
  {
  }

  lemma ReachedSend(j: seq<Record>, ms: seq<FrameMessage>, m: FrameMessage)
    requires Reached(j, ms) && Pristine(m) && Fresh(j, m.id)
    ensures Reached(j + [Sent(Some(m))], ms + [m])
  {
    var j', ss := j + [Sent(Some(m))], Sents(j);
    InitOf(j, Sent(Some(m)));
    forall i | 0 <= i < |ss + [m]| ensures Matches(j', (ss + [m])[i], (ms + [m])[i]) {
      if i < |ss| { assert Matches(j, ss[i], ms[i]); }
    }
  }

  function WithReply(m: FrameMessage, r: FrameReply, status: string): FrameMessage {
    m.(reply := Some(r), replyStatus := status, deliveryStatus := REPLIED)
  }

  lemma ReachedReply(j: seq<Record>, ms: seq<FrameMessage>, k: nat, r: FrameReply, status: string)
    requires WellFormed(j) && Reached(j, ms) && k < |ms| && ms[k].reply.None?
    requires status != ""
    ensures Reached(j + [Replied(ms[k].id, Some(r))], ms[k := WithReply(ms[k], r, status)])
  {
    InitOf(j, Replied(ms[k].id, Some(r)));
    SentsDistinct(j);
    assert Matches(j, Sents(j)[k], ms[k]);
    forall i | 0 <= i < |ms|
      ensures Matches(j + [Replied(ms[k].id, Some(r))], Sents(j)[i], ms[k := WithReply(ms[k], r, status)][i])
    {
      assert Matches(j, Sents(j)[i], ms[i]);
    }
  }

  lemma ReachedOrphan(j: seq<Record>, ms: seq<FrameMessage>, id: MessageId, r: FrameReply)
    requires Reached(j, ms) && !Has(Sents(j), id)
    ensures Reached(j + [Replied(id, Some(r))], ms)
  {
    InitOf(j, Replied(id, Some(r)));
    forall i | 0 <= i < |ms| ensures Matches(j + [Replied(id, Some(r))], Sents(j)[i], ms[i]) {
      assert Matches(j, Sents(j)[i], ms[i]);
      assert Sents(j)[i].id != id;
    }
  }

  lemma ReachedRead(j: seq<Record>, ms: seq<FrameMessage>, rec: Record)
    requires Reached(j, ms) && rec.ReadMarks?
    ensures Reached(j + [rec], MarkRead(ms, MarkedIds(rec.messageIds, rec.singleId)))
  {
    InitOf(j, rec);
    var marked := MarkRead(ms, MarkedIds(rec.messageIds, rec.singleId));
    forall i | 0 <= i < |ms| ensures Matches(j + [rec], Sents(j)[i], marked[i]) {
      assert Matches(j, Sents(j)[i], ms[i]);
    }
  }

  lemma ReachedMark(j: seq<Record>, ms: seq<FrameMessage>, ids: set<MessageId>)
    requires Reached(j, ms)
    ensures Reached(j, MarkRead(ms, ids))
  {
    forall i | 0 <= i < |ms| ensures Matches(j, Sents(j)[i], MarkRead(ms, ids)[i]) {
      assert Matches(j, Sents(j)[i], ms[i]);
    }
  }

  lemma MatchedAbsent(j: seq<Record>, ms: seq<FrameMessage>, id: MessageId)
    requires Reached(j, ms)
    ensures Has(Sents(j), id) == Has(ms, id)
  {
    if Has(Sents(j), id) {
      var k :| 0 <= k < |Sents(j)| && Sents(j)[k].id == id;
      assert Matches(j, Sents(j)[k], ms[k]);
    }
    if Has(ms, id) {
      var k :| 0 <= k < |ms| && ms[k].id == id;
      assert Matches(j, Sents(j)[k], ms[k]);
    }
  }

  /** The first message with a sent id is the only one. */
  lemma FirstMatch(j: seq<Record>, ms: seq<FrameMessage>, id: MessageId) returns (k: nat)
    requires WellFormed(j) && Reached(j, ms) && Has(ms, id)
    ensures k < |ms| && ms[k].id == id && forall i :: 0 <= i < |ms| && i != k ==> ms[i].id != id
  {
    k :| 0 <= k < |ms| && ms[k].id == id;
    SentsDistinct(j);
    forall i | 0 <= i < |ms| && i != k ensures ms[i].id != id {
      assert Matches(j, Sents(j)[i], ms[i]) && Matches(j, Sents(j)[k], ms[k]);
      if i < k { assert Sents(j)[i].id != Sents(j)[k].id; } else { assert Sents(j)[k].id != Sents(j)[i].id; }
    }
  }

  /** One replayed record takes a list at `j` to a list at `j + [rec]`. */
  lemma ReachedApply(j: seq<Record>, ms: seq<FrameMessage>, rec: Record)
    requires WellFormed(j) && MayFollow(j, rec) && Reached(j, ms)
    ensures Reached(j + [rec], Apply(ms, rec))
  {
    InitOf(j, rec);
    match rec
    case Sent(message) =>
      if message.Some? {
        MatchedAbsent(j, ms, message.value.id);
        ReachedSend(j, ms, message.value);
      } else { ReachedIdle(j, ms, rec); }
    case Replied(id, reply) =>
      MatchedAbsent(j, ms, id);
      if reply.None? {
        ReachedIdle(j, ms, rec);
      } else if !Has(ms, id) {
        UpdateFirstAbsent(ms, id, SetReply(reply.value));
        ReachedOrphan(j, ms, id, reply.value);
      } else {
        var k := FirstMatch(j, ms, id);
        assert Matches(j, Sents(j)[k], ms[k]);
        UpdateFirstAt(ms, id, SetReply(reply.value), k);
        ReachedReply(j, ms, k, reply.value, ReplayStatus(reply.value.resolution));
      }
    case ReadMarks(ids, single) => ReachedRead(j, ms, rec);
    case OtherKind => ReachedIdle(j, ms, rec);
  }

  lemma ReachedIdle(j: seq<Record>, ms: seq<FrameMessage>, rec: Record)
    requires Reached(j, ms)
    requires rec.OtherKind? || (rec.Sent? && rec.message.None?) || (rec.Replied? && rec.reply.None?)
    ensures Reached(j + [rec], ms)
  {
    InitOf(j, rec);
    forall i | 0 <= i < |ms| ensures Matches(j + [rec], Sents(j)[i], ms[i]) {
      assert Matches(j, Sents(j)[i], ms[i]);
    }
  }

  // ------------------------------------------------------------- absorption

  lemma {:induction false} Prefixes(j: seq<Record>, n: nat, id: MessageId)
    requires WellFormed(j) && n <= |j|
    ensures WellFormed(j[..n])
    ensures ReadIn(j[..n], id) ==> ReadIn(j, id)
    ensures ReplyIn(j[..n], id).Some? ==> ReplyIn(j, id) == ReplyIn(j[..n], id)
    ensures Has(Sents(j[..n]), id) ==> Has(Sents(j), id)
    ensures Sents(j[..n]) <= Sents(j)
  {
    if n == |j| {
      assert j[..n] == j;
    } else {
      var p := j[..|j| - 1];
      Prefixes(p, n, id);
      assert p[..n] == j[..n];
      assert Sents(p) <= Sents(j);
    }
  }

  /** What a record at position `n` says is still what the whole journal says. */
  lemma RecordStands(j: seq<Record>, n: nat)
    requires WellFormed(j) && n < |j|
    ensures WellFormed(j[..n]) && MayFollow(j[..n], j[n])
    ensures j[n].Sent? && j[n].message.Some? ==> j[n].message.value in Sents(j)
    ensures j[n].Replied? && j[n].reply.Some? ==> ReplyIn(j, j[n].messageId) == j[n].reply
    ensures forall id :: Marks(j[n], id) ==> ReadIn(j, id)
  {
    var q := j[..n + 1];
    assert q[..n] == j[..n] && q[|q| - 1] == j[n];
    Prefixes(j, n + 1, if j[n].Replied? then j[n].messageId else "");
    forall id | Marks(j[n], id) ensures ReadIn(j, id) {
      Prefixes(j, n + 1, id);
    }
    if j[n].Sent? && j[n].message.Some? {
      assert j[n].message.value in Sents(q);
    }
  }

  /** `m` with the reply status a replay of `j` has given it. */
  function Restamped(j: seq<Record>, m: FrameMessage): FrameMessage {
    var r := ReplyIn(j, m.id);
    if r.Some? then m.(replyStatus := ReplayStatus(r.value.resolution)) else m
  }

  predicate AllRestamped(j: seq<Record>, ms: seq<FrameMessage>, out: seq<FrameMessage>) {
    |out| == |ms| && forall i :: 0 <= i < |ms| ==> out[i] == Restamped(j, ms[i])
  }

  lemma PreserveKeeps(j: seq<Record>, q: seq<Record>, s: FrameMessage, m: FrameMessage)
    requires Pristine(s) && Matches(j, s, m)
    ensures Apply1(Preserve(s), Restamped(q, m)) == Restamped(q, m)
  {
  }

  lemma AbsorbSent(j: seq<Record>, q: seq<Record>, ms: seq<FrameMessage>, out: seq<FrameMessage>, k: nat)
    requires WellFormed(j) && Reached(j, ms) && AllRestamped(q, ms, out) && k < |ms|
    ensures Apply(out, Sent(Some(Sents(j)[k]))) == out
  {
    SentsDistinct(j);
    var m := Sents(j)[k];
    assert Matches(j, m, ms[k]);
    forall i | 0 <= i < k ensures out[i].id != m.id {
      assert Matches(j, Sents(j)[i], ms[i]) && Sents(j)[i].id != Sents(j)[k].id;
    }
    UpdateFirstAt(out, m.id, Preserve(m), k);
    PreserveKeeps(j, q, m, ms[k]);
  }

  lemma AbsorbReply(j: seq<Record>, q: seq<Record>, ms: seq<FrameMessage>, out: seq<FrameMessage>, rec: Record)
    requires WellFormed(j) && Reached(j, ms) && AllRestamped(q, ms, out)
    requires rec.Replied? && rec.reply.Some? && rec.messageId != "" && ReplyIn(j, rec.messageId) == rec.reply
    ensures AllRestamped(q + [rec], ms, Apply(out, rec))
  {
    InitOf(q, rec);
    var id, e := rec.messageId, SetReply(rec.reply.value);
    if Has(ms, id) {
      var k := FirstMatch(j, ms, id);
      assert Matches(j, Sents(j)[k], ms[k]);
      UpdateFirstAt(out, id, e, k);
    } else {
      forall i | 0 <= i < |ms| ensures out[i].id != id { assert ms[i].id != id; }
      UpdateFirstAbsent(out, id, e);
    }
  }

  lemma AbsorbRead(j: seq<Record>, q: seq<Record>, ms: seq<FrameMessage>, out: seq<FrameMessage>, rec: Record)
    requires Reached(j, ms) && AllRestamped(q, ms, out)
    requires rec.ReadMarks? && forall id :: Marks(rec, id) ==> ReadIn(j, id)
    ensures AllRestamped(q + [rec], ms, Apply(out, rec))
  {
    InitOf(q, rec);
    forall i | 0 <= i < |ms| && Marks(rec, ms[i].id) ensures out[i].read {
      assert Matches(j, Sents(j)[i], ms[i]);
    }
  }

  lemma RestampedIdle(q: seq<Record>, ms: seq<FrameMessage>, out: seq<FrameMessage>, rec: Record)
    requires AllRestamped(q, ms, out) && !(rec.Replied? && rec.reply.Some?)
    ensures AllRestamped(q + [rec], ms, out)
  {
    InitOf(q, rec);
  }

  /** Re-applying a record a list already accounts for only restamps its reply status. */
  lemma AbsorbRecord(j: seq<Record>, n: nat, ms: seq<FrameMessage>, out: seq<FrameMessage>)
    requires WellFormed(j) && n < |j| && Reached(j, ms) && AllRestamped(j[..n], ms, out)
    ensures AllRestamped(j[..n] + [j[n]], ms, Apply(out, j[n]))
  {
    var q, rec := j[..n], j[n];
    RecordStands(j, n);
    if rec.Replied? && rec.reply.Some? {
      AbsorbReply(j, q, ms, out, rec);
    } else {
      RestampedIdle(q, ms, out, rec);
      if rec.Sent? && rec.message.Some? {
        var k :| 0 <= k < |Sents(j)| && Sents(j)[k] == rec.message.value;
        AbsorbSent(j, q, ms, out, k);
      } else if rec.ReadMarks? {
        AbsorbRead(j, q, ms, out, rec);
      }
    }
  }

  lemma {:induction false} Absorb(j: seq<Record>, n: nat, ms: seq<FrameMessage>)
    requires WellFormed(j) && n <= |j| && Reached(j, ms)
    ensures AllRestamped(j[..n], ms, Replay(j[..n], ms))
  {
    if n == 0 {
      assert j[..n] == [];
    } else {
      Absorb(j, n - 1, ms);
      AbsorbRecord(j, n - 1, ms, Replay(j[..n - 1], ms));
      assert j[..n][..n - 1] == j[..n - 1] && j[..n] == j[..n - 1] + [j[n - 1]];
    }
  }

  // ------------------------------------------------ replay from any snapshot

  /** `out` is at journal `j`, its read marks are those of `j` and of `base`. */
  predicate Recovered(j: seq<Record>, base: seq<FrameMessage>, out: seq<FrameMessage>) {
    && Reached(j, out)
    && |base| <= |out|
    && (forall i :: 0 <= i < |out| ==>
          out[i].read == (ReadIn(j, out[i].id) || (i < |base| && base[i].read)))
    && (forall i :: 0 <= i < |out| && out[i].reply.Some? ==>
          out[i].replyStatus == ReplayStatus(out[i].reply.value.resolution))
  }

  lemma {:induction false} ReplayFrom(j: seq<Record>, n: nat, m: nat, base: seq<FrameMessage>)
    requires WellFormed(j) && n <= m <= |j| && Reached(j[..n], base)
    ensures WellFormed(j[..m]) && Recovered(j[..m], base, Replay(j[..m], base))
  {
    Prefixes(j, m, "");
    if m == n {
      ReplayAbsorbed(j[..n], base);
    } else {
      ReplayFrom(j, n, m - 1, base);
      RecordStands(j, m - 1);
      var p, rec, out := j[..m - 1], j[m - 1], Replay(j[..m - 1], base);
      assert j[..m] == p + [rec] && j[..m][..m - 1] == p;
      ReachedApply(p, out, rec);
      ReplayRecord(p, rec, base, out);
    }
  }

  lemma ReplayAbsorbed(j: seq<Record>, base: seq<FrameMessage>)
    requires WellFormed(j) && Reached(j, base)
    ensures Recovered(j, base, Replay(j, base))
  {
    Absorb(j, |j|, base);
    assert j[..|j|] == j;
    var out := Replay(j, base);
    forall i | 0 <= i < |base| ensures Matches(j, Sents(j)[i], out[i]) {
      assert Matches(j, Sents(j)[i], base[i]);
    }
    forall i | 0 <= i < |base|
      ensures out[i].read == (ReadIn(j, out[i].id) || base[i].read)
      ensures out[i].reply.Some? ==> out[i].replyStatus == ReplayStatus(out[i].reply.value.resolution)
    {
      assert Matches(j, Sents(j)[i], base[i]);
    }
  }

  lemma ReplayRecord(j: seq<Record>, rec: Record, base: seq<FrameMessage>, out: seq<FrameMessage>)
    requires WellFormed(j) && MayFollow(j, rec)
    requires Recovered(j, base, out) && Reached(j + [rec], Apply(out, rec))
    ensures Recovered(j + [rec], base, Apply(out, rec))
  {
    InitOf(j, rec);
    match rec
    case Sent(message) => if message.Some? { MatchedAbsent(j, out, message.value.id); }
    case Replied(id, reply) =>
      if reply.Some? {
        if Has(out, id) {
          var k := FirstMatch(j, out, id);
          UpdateFirstAt(out, id, SetReply(reply.value), k);
        } else {
          UpdateFirstAbsent(out, id, SetReply(reply.value));
        }
      }
    case ReadMarks(ids, single) =>
    case OtherKind =>
  }

  // ------------------------------------------- journals after frames are gone

  predicate Touches(m: FrameMessage, gone: set<FrameId>) {
    m.source in gone || m.target in gone
  }

  function LivingRecord(gone: set<FrameId>, rec: Record): Record {
    if rec.Sent? && rec.message.Some? && Touches(rec.message.value, gone) then OtherKind else rec
  }

  /** The journal without the messages that touch frames which are gone. */
  function Living(gone: set<FrameId>, j: seq<Record>): (r: seq<Record>)
    ensures |r| == |j| && forall i :: 0 <= i < |j| ==> r[i] == LivingRecord(gone, j[i])
  {
    seq(|j|, i requires 0 <= i < |j| => LivingRecord(gone, j[i]))
  }

  lemma LivingInit(gone: set<FrameId>, j: seq<Record>, n: nat)
    requires n <= |j|
    ensures Living(gone, j)[..n] == Living(gone, j[..n])
  {
  }

  lemma {:induction false} LivingFacts(gone: set<FrameId>, j: seq<Record>, id: MessageId)
    ensures ReplyIn(Living(gone, j), id) == ReplyIn(j, id)
    ensures ReadIn(Living(gone, j), id) == ReadIn(j, id)
    ensures Has(Sents(Living(gone, j)), id) ==> Has(Sents(j), id)
  {
    if j != [] {
      LivingInit(gone, j, |j| - 1);
      LivingFacts(gone, j[..|j| - 1], id);
      var last := j[|j| - 1];
      if last.Sent? && last.message.Some? {
        HasAppend(Sents(j[..|j| - 1]), last.message.value, id);
        HasAppend(Sents(Living(gone, j[..|j| - 1])), last.message.value, id);
      }
    }
  }

  lemma {:induction false} LivingWellFormed(gone: set<FrameId>, j: seq<Record>)
    requires WellFormed(j)
    ensures WellFormed(Living(gone, j))
  {
    if j != [] {
      var p, rec := j[..|j| - 1], j[|j| - 1];
      LivingInit(gone, j, |j| - 1);
      LivingWellFormed(gone, p);
      LivingFacts(gone, p, if rec.Sent? && rec.message.Some? then rec.message.value.id
                           else if rec.Replied? then rec.messageId else "");
    }
  }

  function Frames(j: seq<Record>): set<FrameId> {
    if j == [] then {}
    else
      var rest, last := Frames(j[..|j| - 1]), j[|j| - 1];
      if last.Sent? && last.message.Some?
      then rest + {last.message.value.source, last.message.value.target} else rest
  }

  /** Sanitising a journal's messages to `live` is forgetting the frames not in `live`. */
  lemma {:induction false} LivingSents(live: set<FrameId>, gone: set<FrameId>, frames: set<FrameId>, j: seq<Record>)
    requires WellFormed(j) && Frames(j) <= frames && live !! gone
    ensures Sents(Living(frames - live, j)) == Sanitize(live, Sents(Living(gone, j)))
  {
    if j != [] {
      var p, rec := j[..|j| - 1], j[|j| - 1];
      LivingSents(live, gone, frames, p);
      LivingInit(frames - live, j, |p|);
      LivingInit(gone, j, |p|);
      if rec.Sent? && rec.message.Some? {
        SanitizeConcat(live, Sents(Living(gone, p)), [rec.message.value]);
      }
    }
  }

  lemma {:induction false} MatchSanitize(
    j: seq<Record>, q: seq<Record>, live: set<FrameId>, ss: seq<FrameMessage>, ms: seq<FrameMessage>)
    requires MatchAll(j, ss, ms)
    requires forall id :: ReplyIn(j, id) == ReplyIn(q, id) && ReadIn(j, id) == ReadIn(q, id)
    requires forall i :: 0 <= i < |ss| ==> ss[i].reply.None?
    requires forall i :: 0 <= i < |ms| && ms[i].reply.Some? ==> ms[i].reply.value.source == ms[i].target
    ensures MatchAll(q, Sanitize(live, ss), Sanitize(live, ms))
  {
    if ss != [] {
      assert Matches(j, ss[0], ms[0]);
      assert Survives(live, ss[0]) == Survives(live, ms[0]);
      forall i | 0 <= i < |ss[1..]| ensures Matches(j, ss[1..][i], ms[1..][i]) {
        assert Matches(j, ss[i + 1], ms[i + 1]);
      }
      MatchSanitize(j, q, live, ss[1..], ms[1..]);
      SanitizeCons(live, ss[0], ss[1..]);
      SanitizeCons(live, ms[0], ms[1..]);
      assert ss == [ss[0]] + ss[1..] && ms == [ms[0]] + ms[1..];
    }
  }

  // ------------------------------------------------------------ coherence

  lemma {:induction false} EndsDomain(j: seq<Record>)
    requires WellFormed(j)
    ensures forall id :: id in EndsOf(j) <==> Has(Sents(j), id)
    ensures forall i :: 0 <= i < |Sents(j)| ==>
              Sents(j)[i].id in EndsOf(j) && EndsOf(j)[Sents(j)[i].id] == (Sents(j)[i].source, Sents(j)[i].target)
  {
    if j != [] {
      var p, rec := j[..|j| - 1], j[|j| - 1];
      EndsDomain(p);
      if rec.Sent? && rec.message.Some? {
        var m := rec.message.value;
        assert Sents(j) == Sents(p) + [m];
        forall i | 0 <= i < |Sents(p)| ensures Sents(p)[i].id != m.id {}
        forall id ensures id in EndsOf(j) <==> Has(Sents(j), id) {
          HasAppend(Sents(p), m, id);
        }
      }
    }
  }

  lemma {:induction false} ReplyCoherent(ends: Endpoints, j: seq<Record>, id: MessageId)
    requires CoherentJournal(ends, j)
    ensures ReplyIn(j, id).Some? ==> id in ends && ReplyIn(j, id).value.source == ends[id].1
  {
    if j != [] {
      assert CoherentRecord(ends, j[|j| - 1]);
      ReplyCoherent(ends, j[..|j| - 1], id);
    }
  }

  lemma ReachedCoherent(j: seq<Record>, n: nat, gone: set<FrameId>, ms: seq<FrameMessage>)
    requires WellFormed(j) && CoherentJournal(EndsOf(j), j) && n <= |j|
    requires Reached(Living(gone, j[..n]), ms)
    ensures Coherent(EndsOf(j), ms)
  {
    var q := j[..n];
    EndsDomain(j);
    forall i | 0 <= i < |ms| ensures CoherentMessage(EndsOf(j), ms[i]) {
      var s := Sents(Living(gone, q))[i];
      assert Matches(Living(gone, q), s, ms[i]);
      LivingFacts(gone, q, s.id);
      Prefixes(j, n, s.id);
      LivingSentsSubset(gone, q, s);
      assert s in Sents(j);
      ReplyCoherent(EndsOf(j), q, s.id);
    }
  }

  lemma {:induction false} LivingSentsSubset(gone: set<FrameId>, j: seq<Record>, s: FrameMessage)
    requires s in Sents(Living(gone, j))
    ensures s in Sents(j) && !Touches(s, gone)
  {
    var p := j[..|j| - 1];
    LivingInit(gone, j, |p|);
    if s in Sents(Living(gone, p)) {
      LivingSentsSubset(gone, p, s);
    }
  }
}
