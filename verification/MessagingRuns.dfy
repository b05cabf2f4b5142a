/**
 Whole runs of frame messaging for one session: sends, reads, replies, reads from
 the web surface, snapshot saves and restarts. Every snapshot save may fail, and
 every journal append may fail, be cut short or write a line too long to be read
 back. A crash between two of these writes leaves the disk as the same step with
 the later writes failed, so runs cover crashes too.
 */
module MessagingRuns {
  import opened Wrappers
  import opened FrameMessaging
  import opened MessagingRecovery
  import opened MessagingLedger
  import opened JournalFile
  import Text

  /**
   Memory and snapshot are in `ledger`, the journal on disk is `file`.
   */
  datatype Store = Store(ledger: Ledger, file: File)

  const INITIAL := Store(Ledger([], [], [], {}, 0, {}), EMPTY)

  datatype Op =
    | Send(message: FrameMessage, append: Append, saveOk: bool)
    | Reply(messageId: MessageId, reply: FrameReply, status: string, append: Append, saveOk: bool)
    | Read(ids: seq<MessageId>, append: Append, saveOk: bool)
    | ReadThrough(ids: seq<MessageId>, saveOk: bool, append: Append, resaveOk: bool)
    | Save
    | Restart(frames: set<FrameId>)

  predicate Handler(op: Op) {
    op.Send? || op.Reply? || op.Read?
  }

  /** The record a handler journals. */
  function RecordOf(op: Op): Record
    requires Handler(op)
  {
    match op
    case Send(m, _, _) => Sent(Some(m))
    case Reply(id, r, _, _, _) => Replied(id, Some(r))
    case Read(ids, _, _) => ReadMarks(ids, "")
  }

  function StatusOf(op: Op): string {
    if op.Reply? then op.status else REPLIED
  }

  /** What the accepting branches of the handlers have checked; a body takes a byte a character at least. */
  predicate Enabled(s: Store, op: Op) {
    match op
    case Send(m, append, _) =>
      && Follows(s.ledger, Sent(Some(m))) && !Has(s.ledger.live, m.id)
      && (append.Written? ==> |m.body| < append.bytes)
    case Restart(frames) => frames !! s.ledger.gone
    case ReadThrough(_, _, _, _) => true
    case Save => true
    case _ => Follows(s.ledger, RecordOf(op)) && StatusOf(op) != ""
  }

  /**
   The boot path: the snapshot is sanitised; a journal that can be opened and read
   is replayed over it and the result sanitised; otherwise the snapshot stands.
   */
  function Boot(s: Store, frames: set<FrameId>, readable: bool): seq<FrameMessage> {
    if readable && Loads(s.file) then Recover(s.ledger.(journal := Records(s.file)), frames)
    else Sanitize(frames, s.ledger.saved)
  }

  /** The accepting part of a send, a reply or a read: journal, commit, save. */
  function Handled(s: Store, rec: Record, status: string, append: Append, saveOk: bool): Store {
    var file := Appended(s.file, rec, append);
    if append.Written? then s.(file := file, ledger := Saving(Taken(s.ledger, rec, status), saveOk))
    else s.(file := file)
  }

  /** The web surface's read: memory is marked and saved, then journalled, and saved again. */
  function MarkedThrough(l: Ledger, ids: seq<MessageId>, saveOk: bool, onFile: bool, resaveOk: bool): Ledger {
    var marked := Saving(l.(live := MarkRead(l.live, MarkedIds(ids, ""))), saveOk);
    Saving(if onFile then marked.(journal := l.journal + [ReadMarks(ids, "")]) else marked, resaveOk)
  }

  function Next(s: Store, op: Op): Store {
    match op
    case Send(m, append, saveOk) => Handled(s, RecordOf(op), StatusOf(op), append, saveOk)
    case Reply(id, r, status, append, saveOk) => Handled(s, RecordOf(op), StatusOf(op), append, saveOk)
    case Read(ids, append, saveOk) => Handled(s, RecordOf(op), StatusOf(op), append, saveOk)
    case ReadThrough(ids, saveOk, append, resaveOk) =>
      s.(file := Appended(s.file, ReadMarks(ids, ""), append),
         ledger := MarkedThrough(s.ledger, ids, saveOk, !append.NotWritten?, resaveOk))
    case Save => s.(ledger := Saving(s.ledger, true))
    case Restart(frames) =>
      if Loads(s.file) then s.(ledger := Restarted(s.ledger.(journal := Records(s.file)), frames))
      else s.(ledger := s.ledger.(live := Boot(s, frames, true),
                                  gone := s.ledger.gone + (Frames(s.ledger.journal) - frames)))
  }

  predicate Possible(s: Store, ops: seq<Op>) {
    ops == [] || (Possible(s, ops[..|ops| - 1]) && Enabled(Run(s, ops[..|ops| - 1]), ops[|ops| - 1]))
  }

  function Run(s: Store, ops: seq<Op>): Store {
    if ops == [] then s else Next(Run(s, ops[..|ops| - 1]), ops[|ops| - 1])
  }

  // ------------------------------------------------------------- invariant

  /** Message ids are non-empty and occur once. */
  predicate Distinct(ms: seq<FrameMessage>) {
    && (forall i, k :: 0 <= i < k < |ms| ==> ms[i].id != ms[k].id)
    && (forall i :: 0 <= i < |ms| ==> ms[i].id != "")
  }

  /** The file ends in a line that lacks its break, of a record whose handler refused. */
  predicate Refused(s: Store) {
    s.file.tail.Unended? && Records(s.file) == s.ledger.journal + [s.file.tail.record]
  }

  /** The file holds what memory has taken in, but for such a line. */
  ghost predicate Tracked(s: Store) {
    && Agrees(s.ledger)
    && if Refused(s) then Follows(s.ledger, s.file.tail.record) else Records(s.file) == s.ledger.journal
  }

  predicate Named(rec: Record) {
    rec.Sent? && rec.message.Some? ==> rec.message.value.id != ""
  }

  ghost predicate Inv(s: Store) {
    && Distinct(s.ledger.live) && Distinct(s.ledger.saved)
    && (forall rec :: rec in Records(s.file) ==> Named(rec))
    && (Loads(s.file) ==> Tracked(s))
  }

  /** Memory as it would be had a refused line been taken in. */
  function CaughtUp(s: Store): Ledger {
    if !Refused(s) then s.ledger
    else
      var rec := s.file.tail.record;
      Taken(s.ledger, rec,
            if rec.Replied? && rec.reply.Some? then ReplayStatus(rec.reply.value.resolution) else REPLIED)
  }

  lemma CatchUp(s: Store)
    requires Tracked(s)
    ensures Agrees(CaughtUp(s)) && CaughtUp(s).journal == Records(s.file)
    ensures CaughtUp(s).saved == s.ledger.saved && CaughtUp(s).gone == s.ledger.gone
  {
    if Refused(s) {
      var rec := s.file.tail.record;
      TakenKeeps(s.ledger, rec, if rec.Replied? then ReplayStatus(rec.reply.value.resolution) else REPLIED);
    }
  }

  // ------------------------------------------------- runs keep the invariant

  lemma {:induction false} UpdateIds(ms: seq<FrameMessage>, id: MessageId, e: Edit)
    requires e.Preserve? ==> e.sent.id == id
    ensures forall i :: 0 <= i < |ms| ==> UpdateFirst(ms, id, e)[i].id == ms[i].id
  {
    if ms != [] {
      UpdateIds(ms[1..], id, e);
    }
  }

  /** Whatever a journal holds, replaying it leaves no id twice. */
  lemma {:induction false} ReplayDistinct(j: seq<Record>, base: seq<FrameMessage>)
    requires Distinct(base) && forall rec :: rec in j ==> Named(rec)
    ensures Distinct(Replay(j, base))
  {
    if j != [] {
      var p, rec := j[..|j| - 1], j[|j| - 1];
      assert forall r :: r in p ==> r in j;
      ReplayDistinct(p, base);
      assert rec in j && Named(rec);
      ApplyDistinct(Replay(p, base), rec);
    }
  }

  lemma ApplyDistinct(ms: seq<FrameMessage>, rec: Record)
    requires Distinct(ms) && Named(rec)
    ensures Distinct(Apply(ms, rec))
  {
    match rec
    case Sent(m) => if m.Some? { UpdateIds(ms, m.value.id, Preserve(m.value)); }
    case Replied(id, r) => if r.Some? { UpdateIds(ms, id, SetReply(r.value)); }
    case ReadMarks(ids, single) =>
    case OtherKind =>
  }

  lemma {:induction false} WholeMember(lines: seq<Line>, rec: Record)
    ensures rec in WholeRecords(lines) <==> Whole(rec) in lines
  {
    if lines != [] {
      WholeMember(lines[..|lines| - 1], rec);
      assert lines == lines[..|lines| - 1] + [lines[|lines| - 1]];
    }
  }

  lemma AppendedNamed(f: File, rec: Record, a: Append)
    requires Named(rec) && forall r :: r in Records(f) ==> Named(r)
    ensures forall r :: r in Records(Appended(f, rec, a)) ==> Named(r)
  {
    forall r | r in Records(Appended(f, rec, a)) ensures Named(r) {
      WholeMember(f.lines, r);
      WholeMember(Appended(f, rec, a).lines, r);
    }
  }

  lemma {:induction false} ReplyIds(ms: seq<FrameMessage>, id: MessageId, r: FrameReply, status: string)
    ensures forall i :: 0 <= i < |ms| ==> LiveReply(ms, id, r, status)[i].id == ms[i].id
  {
    if ms != [] {
      ReplyIds(ms[1..], id, r, status);
    }
  }

  lemma TakenDistinct(l: Ledger, rec: Record, status: string)
    requires Distinct(l.live) && Follows(l, rec) && (rec.Sent? ==> !Has(l.live, rec.message.value.id))
    ensures Distinct(Taken(l, rec, status).live)
  {
    match rec
    case Sent(m) =>
    case Replied(id, r) => ReplyIds(l.live, id, r.value, status);
    case ReadMarks(ids, single) =>
  }

  lemma HandledKeeps(s: Store, op: Op)
    requires Inv(s) && Enabled(s, op) && Handler(op)
    ensures Inv(Next(s, op))
  {
    var rec, status, s' := RecordOf(op), StatusOf(op), Next(s, op);
    AppendedLoads(s.file, rec, op.append);
    AppendedNamed(s.file, rec, op.append);
    TakenDistinct(s.ledger, rec, status);
    if Loads(s'.file) && op.append.Written? {
      TakenKeeps(s.ledger, rec, status);
      SavingKeeps(Taken(s.ledger, rec, status), op.saveOk);
    }
  }

  lemma MarkThroughKeeps(l: Ledger, ids: seq<MessageId>, saveOk: bool, onFile: bool, resaveOk: bool)
    requires Agrees(l)
    ensures Agrees(MarkedThrough(l, ids, saveOk, onFile, resaveOk))
  {
    var t := l.(live := MarkRead(l.live, MarkedIds(ids, "")));
    assert Agrees(t) by { ReadKeeps(l, ids); }
    var marked := Saving(t, saveOk);
    assert Agrees(marked) by { SavingKeeps(t, saveOk); }
    var next := if onFile then marked.(journal := l.journal + [ReadMarks(ids, "")]) else marked;
    assert Agrees(next) by {
      if onFile { LateReadKeeps(marked, ids); }
    }
    SavingKeeps(next, resaveOk);
  }

  /** Read marks do not disturb a record that waits at the end of the file. */
  lemma MarkFollows(l: Ledger, ids: seq<MessageId>, saveOk: bool, resaveOk: bool, rec: Record)
    requires Follows(l, rec)
    ensures Follows(MarkedThrough(l, ids, saveOk, false, resaveOk), rec)
  {
    if rec.Replied? {
      var k :| 0 <= k < |l.live| && l.live[k].id == rec.messageId && l.live[k].target == rec.reply.value.source &&
               l.live[k].reply.None?;
      var marked := MarkRead(l.live, MarkedIds(ids, ""));
      assert marked[k].id == rec.messageId;
    }
  }

  lemma MarkDistinct(l: Ledger, ids: seq<MessageId>, saveOk: bool, onFile: bool, resaveOk: bool)
    requires Distinct(l.live) && Distinct(l.saved)
    ensures var t := MarkedThrough(l, ids, saveOk, onFile, resaveOk); Distinct(t.live) && Distinct(t.saved)
    ensures MarkedThrough(l, ids, saveOk, onFile, resaveOk).journal ==
            l.journal + if onFile then [ReadMarks(ids, "")] else []
  {
    assert l.journal + [] == l.journal;
  }

  lemma ReadThroughTracked(s: Store, op: Op)
    requires Tracked(s) && op.ReadThrough? && Loads(Next(s, op).file)
    ensures Tracked(Next(s, op))
  {
    AppendedLoads(s.file, ReadMarks(op.ids, ""), op.append);
    MarkThroughKeeps(s.ledger, op.ids, op.saveOk, !op.append.NotWritten?, op.resaveOk);
    if Refused(s) {
      MarkFollows(s.ledger, op.ids, op.saveOk, op.resaveOk, s.file.tail.record);
    }
  }

  lemma ReadThroughKeeps(s: Store, op: Op)
    requires Inv(s) && op.ReadThrough?
    ensures Inv(Next(s, op))
  {
    AppendedLoads(s.file, ReadMarks(op.ids, ""), op.append);
    AppendedNamed(s.file, ReadMarks(op.ids, ""), op.append);
    MarkDistinct(s.ledger, op.ids, op.saveOk, !op.append.NotWritten?, op.resaveOk);
    if Loads(Next(s, op).file) { ReadThroughTracked(s, op); }
  }

  lemma {:induction false} SanitizeDistinct(frames: set<FrameId>, ms: seq<FrameMessage>)
    requires Distinct(ms)
    ensures Distinct(Sanitize(frames, ms))
  {
    if ms != [] {
      assert Distinct(ms[1..]);
      SanitizeDistinct(frames, ms[1..]);
      var rest := Sanitize(frames, ms[1..]);
      forall i | 0 <= i < |rest| ensures rest[i].id != ms[0].id {
        SanitizeMember(frames, ms[1..], rest[i]);
      }
    }
  }

  lemma RestartsKeep(s: Store, frames: set<FrameId>)
    requires Inv(s) && frames !! s.ledger.gone
    ensures Inv(Next(s, Restart(frames)))
  {
    SanitizeDistinct(frames, s.ledger.saved);
    if Loads(s.file) {
      CatchUp(s);
      RestartKeeps(CaughtUp(s), frames);
      ReplayDistinct(Records(s.file), Sanitize(frames, s.ledger.saved));
      SanitizeDistinct(frames, Replay(Records(s.file), Sanitize(frames, s.ledger.saved)));
    }
  }

  lemma NextKeeps(s: Store, op: Op)
    requires Inv(s) && Enabled(s, op)
    ensures Inv(Next(s, op))
  {
    match op
    case Restart(frames) => RestartsKeep(s, frames);
    case ReadThrough(_, _, _, _) => ReadThroughKeeps(s, op);
    case Save => if Agrees(s.ledger) { SavingKeeps(s.ledger, true); }
    case _ => HandledKeeps(s, op);
  }

  lemma {:induction false} RunKeeps(ops: seq<Op>)
    requires Possible(INITIAL, ops)
    ensures Inv(Run(INITIAL, ops))
  {
    if ops != [] {
      RunKeeps(ops[..|ops| - 1]);
      NextKeeps(Run(INITIAL, ops[..|ops| - 1]), ops[|ops| - 1]);
    }
  }

  // ----------------------------------------------------------- main results

  /**
   Crash recovery. While the journal can be read, and whatever snapshot is on disk,
   a boot gets back the live messages between the frames it restores, in order,
   exactly as far as they are on disk.
   */
  lemma RecoveryIsDurable(s: Store, frames: set<FrameId>)
    requires Inv(s) && Loads(s.file) && frames !! s.ledger.gone
    ensures var kept := Sanitize(frames, CaughtUp(s).live);
            && |Boot(s, frames, true)| == |kept|
            && forall i :: 0 <= i < |kept| ==> Boot(s, frames, true)[i] == Durable(CaughtUp(s), kept[i])
  {
    CatchUp(s);
    ReplayIsDurable(CaughtUp(s), frames);
    assert Boot(s, frames, true) == Recover(CaughtUp(s), frames);
  }

  /** Every run, every snapshot and journal left on disk, every set of frames that comes back up. */
  lemma CrashRecovery(ops: seq<Op>, frames: set<FrameId>, readable: bool)
    requires Possible(INITIAL, ops) && frames !! Run(INITIAL, ops).ledger.gone
    ensures var s, boot := Run(INITIAL, ops), Boot(Run(INITIAL, ops), frames, readable);
            if !readable || !Loads(s.file) then boot == Sanitize(frames, s.ledger.saved)
            else
              var kept := Sanitize(frames, CaughtUp(s).live);
              |boot| == |kept| && forall i :: 0 <= i < |kept| ==> boot[i] == Durable(CaughtUp(s), kept[i])
  {
    RunKeeps(ops);
    if readable && Loads(Run(INITIAL, ops).file) {
      RecoveryIsDurable(Run(INITIAL, ops), frames);
    }
  }

  /** A record that would change none of the messages kept. */
  predicate Idle(frames: set<FrameId>, kept: seq<FrameMessage>, rec: Record) {
    match rec
    case Sent(m) => m.Some? ==> !Survives(frames, m.value)
    case Replied(id, _) => !Has(kept, id)
    case ReadMarks(ids, single) => forall m :: m in kept && m.id in MarkedIds(ids, single) ==> m.read
    case OtherKind => true
  }

  lemma LiveFacts(l: Ledger, m: FrameMessage)
    requires Agrees(l) && m in l.live
    ensures m.reply == ReplyIn(l.journal, m.id)
  {
    var k :| 0 <= k < |l.live| && l.live[k] == m;
    var lj := Living(l.gone, l.journal);
    assert Matches(lj, Sents(lj)[k], l.live[k]);
    LivingFacts(l.gone, l.journal, m.id);
  }

  lemma {:induction false} SanitizeReplied(
    frames: set<FrameId>, ms: seq<FrameMessage>, id: MessageId, r: FrameReply, status: string)
    requires !Has(Sanitize(frames, ms), id)
    requires forall m :: m in ms && m.id == id ==> m.reply.None?
    ensures Sanitize(frames, LiveReply(ms, id, r, status)) == Sanitize(frames, ms)
  {
    if ms != [] {
      var kept, rest := Sanitize(frames, ms), Sanitize(frames, ms[1..]);
      if ms[0].id == id {
        SanitizeMember(frames, ms, ms[0]);
        assert ms[0] in ms && ms[0] !in kept;
        SanitizeCons(frames, WithReply(ms[0], r, status), ms[1..]);
      } else {
        assert rest == kept[|kept| - |rest|..];
        SanitizeReplied(frames, ms[1..], id, r, status);
        SanitizeCons(frames, ms[0], LiveReply(ms[1..], id, r, status));
      }
    }
  }

  lemma IdleKeeps(s: Store, frames: set<FrameId>)
    requires Tracked(s) && Refused(s) && Idle(frames, Sanitize(frames, s.ledger.live), s.file.tail.record)
    ensures Sanitize(frames, CaughtUp(s).live) == Sanitize(frames, s.ledger.live)
  {
    var l := s.ledger;
    match s.file.tail.record
    case Sent(m) => SanitizeConcat(frames, l.live, [m.value]);
    case Replied(id, r) =>
      forall m | m in l.live && m.id == id ensures m.reply.None? {
        OpenUnanswered(l, id, r.value.source, m);
      }
      SanitizeReplied(frames, l.live, id, r.value, ReplayStatus(r.value.resolution));
    case ReadMarks(ids, single) =>
      assert l.journal[..|l.journal|] == l.journal;
      ReachedCoherent(l.journal, |l.journal|, l.gone, l.live);
      SanitizeMarkRead(EndsOf(l.journal), frames, l.live, MarkedIds(ids, single));
      var kept := Sanitize(frames, l.live);
      assert forall i :: 0 <= i < |kept| ==> kept[i] in kept;
      assert MarkRead(kept, MarkedIds(ids, single)) == kept;
  }

  lemma OpenUnanswered(l: Ledger, id: MessageId, source: FrameId, m: FrameMessage)
    requires Agrees(l) && Open(l.live, id, source) && m in l.live && m.id == id
    ensures m.reply.None?
  {
    var k :| 0 <= k < |l.live| && l.live[k].id == id && l.live[k].target == source && l.live[k].reply.None?;
    LiveFacts(l, l.live[k]);
    LiveFacts(l, m);
  }

  /** A record that would change this message. */
  predicate Changes(rec: Record, m: FrameMessage) {
    match rec
    case Replied(id, _) => m.id == id
    case ReadMarks(ids, single) => m.id in MarkedIds(ids, single) && !m.read
    case _ => false
  }

  lemma ChangeShows(s: Store, m: FrameMessage, n: FrameMessage)
    requires Tracked(s) && Refused(s) && Changes(s.file.tail.record, m)
    requires m in s.ledger.live && n in CaughtUp(s).live
    ensures Durable(CaughtUp(s), n) != m
  {
    var l, rec := s.ledger, s.file.tail.record;
    if n.id == m.id {
      CatchUp(s);
      InitOf(l.journal, rec);
      LiveFacts(CaughtUp(s), n);
      if rec.Replied? {
        OpenUnanswered(l, m.id, rec.reply.value.source, m);
      }
    }
  }

  lemma BusyShows(s: Store, frames: set<FrameId>)
    requires Inv(s) && Loads(s.file) && frames !! s.ledger.gone
    requires Refused(s) && !Idle(frames, Sanitize(frames, s.ledger.live), s.file.tail.record)
    ensures Boot(s, frames, true) != Sanitize(frames, s.ledger.live)
  {
    RecoveryIsDurable(s, frames);
    var l, c, rec := s.ledger, CaughtUp(s), s.file.tail.record;
    var kept, got := Sanitize(frames, l.live), Sanitize(frames, c.live);
    if rec.Sent? {
      SanitizeConcat(frames, l.live, [rec.message.value]);
    } else if |got| == |kept| {
      var k :| 0 <= k < |kept| && Changes(rec, kept[k]);
      SanitizeMember(frames, l.live, kept[k]);
      SanitizeMember(frames, c.live, got[k]);
      ChangeShows(s, kept[k], got[k]);
    }
  }

  /**
   A boot restores the live messages exactly iff, with a journal it can read, each
   read mark and status is on disk and no line of a refused append says otherwise;
   and, with one it cannot read, the snapshot already holds them.
   */
  lemma RecoveryExactIff(s: Store, frames: set<FrameId>, readable: bool)
    requires Inv(s) && frames !! s.ledger.gone
    ensures var kept := Sanitize(frames, s.ledger.live);
            Boot(s, frames, readable) == kept <==>
            if !readable || !Loads(s.file) then Sanitize(frames, s.ledger.saved) == kept
            else
              && (Refused(s) ==> Idle(frames, kept, s.file.tail.record))
              && (forall m :: m in kept ==>
                    && (m.read ==> ReadIn(Records(s.file), m.id) || SavedRead(s.ledger.saved, m.id))
                    && (m.reply.Some? ==> m.replyStatus == ReplayStatus(m.reply.value.resolution)))
  {
    if readable && Loads(s.file) {
      CatchUp(s);
      ReplayExactIff(CaughtUp(s), frames);
      if Refused(s) {
        if Idle(frames, Sanitize(frames, s.ledger.live), s.file.tail.record) {
          IdleKeeps(s, frames);
        } else {
          BusyShows(s, frames);
        }
      }
    }
  }

  /** A snapshot taken after the last change is enough, journal or no journal, once the statuses agree. */
  lemma SnapshotSuffices(s: Store, frames: set<FrameId>, readable: bool)
    requires Inv(s) && !Refused(s) && frames !! s.ledger.gone
    requires s.ledger.saved == s.ledger.live
    requires forall m :: m in s.ledger.live && m.reply.Some? ==> m.replyStatus == ReplayStatus(m.reply.value.resolution)
    ensures Boot(s, frames, readable) == Sanitize(frames, s.ledger.live)
  {
    RecoveryExactIff(s, frames, readable);
    forall m | m in Sanitize(frames, s.ledger.live)
      ensures m in s.ledger.live && (m.read ==> SavedRead(s.ledger.saved, m.id))
    {
      SanitizeMember(frames, s.ledger.live, m);
      var k :| 0 <= k < |s.ledger.live| && s.ledger.live[k] == m;
    }
  }

  /** A journal that cannot be read never can again, and every boot has the snapshot alone. */
  lemma {:induction false} UnreadableForGood(s: Store, ops: seq<Op>, frames: set<FrameId>, readable: bool)
    requires !Loads(s.file)
    ensures !Loads(Run(s, ops).file)
    ensures Boot(Run(s, ops), frames, readable) == Sanitize(frames, Run(s, ops).ledger.saved)
  {
    if ops != [] {
      var p, op := ops[..|ops| - 1], ops[|ops| - 1];
      UnreadableForGood(s, p, frames, readable);
      if Handler(op) {
        AppendedLoads(Run(s, p).file, RecordOf(op), op.append);
      } else if op.ReadThrough? {
        AppendedLoads(Run(s, p).file, ReadMarks(op.ids, ""), op.append);
      }
    }
  }

  /** The live path and the replay stamp the same status iff the resolution is empty or not blank. */
  lemma StatusesAgree(resolution: string)
    ensures LiveStatus(resolution) == ReplayStatus(resolution) <==> resolution == "" || !Text.IsBlank(resolution)
    ensures LiveStatus(resolution) != ""
  {
    assert !Text.IsBlank(REPLIED) by { assert !Text.IsSpace(REPLIED[0]); }
    Text.TrimSpaceFacts(REPLIED);
    Text.TrimSpaceFacts(resolution);
    assert Text.FirstNonEmpty([REPLIED]) == REPLIED;
    assert [resolution, REPLIED][1..] == [REPLIED];
    if Text.IsBlank(resolution) && resolution != "" {
      assert Text.IsSpace(resolution[0]);
    }
  }

  // ------------------------------------------------------------- clean runs

  predicate Fits(a: Append) {
    a.Written? && a.bytes <= SCANNER_LIMIT
  }

  /**
   The live status is the one a replay gives; appends write nothing or a line that
   can be read back, and those of the web surface's read marks do write.
   */
  predicate Clean(op: Op) {
    match op
    case Send(_, append, _) => append.NotWritten? || Fits(append)
    case Reply(_, r, status, append, _) =>
      status == ReplayStatus(r.resolution) && (append.NotWritten? || Fits(append))
    case Read(_, append, _) => append.NotWritten? || Fits(append)
    case ReadThrough(_, _, append, _) => Fits(append)
    case Save => true
    case Restart(_) => true
  }

  ghost predicate CleanStore(s: Store) {
    s.file.tail.Ended? && Loads(s.file) && CleanLedger(s.ledger)
  }

  lemma CleanStep(s: Store, op: Op)
    requires Inv(s) && Enabled(s, op) && Clean(op) && CleanStore(s)
    ensures CleanStore(Next(s, op))
  {
    if Handler(op) {
      AppendedLoads(s.file, RecordOf(op), op.append);
      CleanTaken(s.ledger, RecordOf(op), StatusOf(op));
    } else if op.ReadThrough? {
      AppendedLoads(s.file, ReadMarks(op.ids, ""), op.append);
      MarkOnDisk(s.ledger.journal, op.ids, s.ledger.live);
      OnDiskExtends(s.ledger.journal, ReadMarks(op.ids, ""), s.ledger.saved);
    } else if op.Restart? {
      CleanRestart(s.ledger, op.frames);
    }
  }

  lemma {:induction false} CleanRuns(ops: seq<Op>)
    requires Possible(INITIAL, ops) && forall op :: op in ops ==> Clean(op)
    ensures CleanStore(Run(INITIAL, ops))
  {
    if ops != [] {
      var p := ops[..|ops| - 1];
      CleanRuns(p);
      RunKeeps(p);
      CleanStep(Run(INITIAL, p), ops[|ops| - 1]);
    }
  }

  /** Without those exceptions a boot restores the live messages exactly. */
  lemma CrashRecoveryExact(ops: seq<Op>, frames: set<FrameId>)
    requires Possible(INITIAL, ops) && frames !! Run(INITIAL, ops).ledger.gone
    requires forall op :: op in ops ==> Clean(op)
    ensures Boot(Run(INITIAL, ops), frames, true) == Sanitize(frames, Run(INITIAL, ops).ledger.live)
  {
    var s := Run(INITIAL, ops);
    RunKeeps(ops);
    CleanRuns(ops);
    RecoveryExactIff(s, frames, true);
    forall m | m in Sanitize(frames, s.ledger.live) ensures OnDisk(s.ledger.journal, m) {
      SanitizeMember(frames, s.ledger.live, m);
    }
  }

  // -------------------------------------------------- each exception is needed

  lemma RunOne(op: Op)
    requires Enabled(INITIAL, op)
    ensures Possible(INITIAL, [op]) && Run(INITIAL, [op]) == Next(INITIAL, op)
  {
    var ops := [op];
    assert ops[..0] == [] && Run(INITIAL, []) == INITIAL && Possible(INITIAL, []);
  }

  lemma RunTwo(op: Op, then': Op)
    requires Enabled(INITIAL, op) && Enabled(Next(INITIAL, op), then')
    ensures Possible(INITIAL, [op, then']) && Run(INITIAL, [op, then']) == Next(Next(INITIAL, op), then')
  {
    RunOne(op);
    assert [op, then'][..1] == [op];
  }

  /** A sent message whose line can be read back. */
  lemma OneSend(m: FrameMessage, bytes: nat, saveOk: bool)
    requires Pristine(m) && |m.body| < bytes <= SCANNER_LIMIT
    ensures var op := Send(m, Written(bytes), saveOk);
            && Enabled(INITIAL, op)
            && Next(INITIAL, op) == Store(
                 Saving(Ledger([m], [Sent(Some(m))], [], {}, 0, {}), saveOk), File([Whole(Sent(Some(m)))], Ended))
            && Records(Next(INITIAL, op).file) == [Sent(Some(m))] && Loads(Next(INITIAL, op).file)
  {
    AppendedLoads(EMPTY, Sent(Some(m)), Written(bytes));
  }

  /** An accepted message of 1 MiB whose save fails is lost, and so is all that any later save leaves out. */
  lemma OversizedBodyLost(m: FrameMessage, bytes: nat, frames: set<FrameId>, readable: bool)
    requires Pristine(m) && SCANNER_LIMIT <= |m.body| < bytes
    ensures var ops := [Send(m, Written(bytes), false)];
            && Possible(INITIAL, ops)
            && Run(INITIAL, ops).ledger.live == [m]
            && Boot(Run(INITIAL, ops), frames, readable) == []
  {
    var op := Send(m, Written(bytes), false);
    RunOne(op);
    AppendedLoads(EMPTY, Sent(Some(m)), Written(bytes));
  }

  /** One append cut short loses what the journal held before it. */
  lemma CutLineLosesAll(m: FrameMessage, n: FrameMessage, bytes: nat, frames: set<FrameId>, readable: bool)
    requires Pristine(m) && Pristine(n) && n.id != m.id && |m.body| < bytes <= SCANNER_LIMIT
    ensures var ops := [Send(m, Written(bytes), false), Send(n, Cut(false), false)];
            && Possible(INITIAL, ops)
            && Run(INITIAL, ops).ledger.live == [m]
            && Boot(Run(INITIAL, ops), frames, readable) == []
  {
    OneSend(m, bytes, false);
    assert Fresh([Sent(Some(m))], n.id) by {
      assert [Sent(Some(m))][..0] == [];
      assert Sents([Sent(Some(m))]) == [m];
    }
    RunTwo(Send(m, Written(bytes), false), Send(n, Cut(false), false));
  }

  /** A refused send that lacked only its line break is there after a boot. */
  lemma RefusedSendReturns(m: FrameMessage)
    requires Pristine(m)
    ensures var ops := [Send(m, Cut(true), false)];
            && Possible(INITIAL, ops)
            && Run(INITIAL, ops).ledger.live == []
            && Boot(Run(INITIAL, ops), {m.source, m.target}, true) == [m]
  {
    RunOne(Send(m, Cut(true), false));
    var s := Run(INITIAL, [Send(m, Cut(true), false)]);
    assert Records(s.file) == [Sent(Some(m))] && [Sent(Some(m))][..0] == [];
    assert Replay([], []) == [] && Apply([], Sent(Some(m))) == [m];
    assert Replay([Sent(Some(m))], []) == [m];
    assert Sanitize({m.source, m.target}, [m]) == [m];
  }

  /** A boot that cannot open its journal goes without what only the journal has. */
  lemma UnopenedJournal(m: FrameMessage, bytes: nat)
    requires Pristine(m) && |m.body| < bytes <= SCANNER_LIMIT
    ensures var ops, frames := [Send(m, Written(bytes), false)], {m.source, m.target};
            && Possible(INITIAL, ops)
            && Boot(Run(INITIAL, ops), frames, false) == []
            && Boot(Run(INITIAL, ops), frames, true) == [m]
  {
    OneSend(m, bytes, false);
    RunOne(Send(m, Written(bytes), false));
    assert [Sent(Some(m))][..0] == [];
    assert Replay([], []) == [] && Apply([], Sent(Some(m))) == [m];
    assert Replay([Sent(Some(m))], []) == [m];
    assert Sanitize({m.source, m.target}, [m]) == [m];
  }

  /** A web read whose append and saves fail is lost to the next boot. */
  lemma LostReadMark(m: FrameMessage, bytes: nat)
    requires Pristine(m) && |m.body| < bytes <= SCANNER_LIMIT
    ensures var ops := [Send(m, Written(bytes), true), ReadThrough([m.id], false, NotWritten, false)];
            && Possible(INITIAL, ops)
            && Boot(Run(INITIAL, ops), {m.source, m.target}, true) !=
               Sanitize({m.source, m.target}, Run(INITIAL, ops).ledger.live)
  {
    OneSend(m, bytes, true);
    var ops := [Send(m, Written(bytes), true), ReadThrough([m.id], false, NotWritten, false)];
    RunTwo(ops[0], ops[1]);
    RunKeeps(ops);
    assert m.id in MarkedIds([m.id], "");
    var s, read := Run(INITIAL, ops), m.(read := true);
    assert s.ledger.live == [read];
    RecoveryExactIff(s, {m.source, m.target}, true);
    assert Sanitize({m.source, m.target}, [read]) == [read];
    assert read in [read] && [Sent(Some(m))][..0] == [];
  }

  /** A reply with a blank but non-empty resolution comes back with another status. */
  lemma BlankResolution(m: FrameMessage, r: FrameReply, bytes: nat)
    requires Pristine(m) && r.source == m.target && r.resolution != "" && Text.IsBlank(r.resolution)
    requires |m.body| < bytes <= SCANNER_LIMIT
    ensures var ops := [Send(m, Written(bytes), true), Reply(m.id, r, LiveStatus(r.resolution), Written(bytes), true)];
            && Possible(INITIAL, ops)
            && Boot(Run(INITIAL, ops), {m.source, m.target}, true) !=
               Sanitize({m.source, m.target}, Run(INITIAL, ops).ledger.live)
  {
    StatusesAgree(r.resolution);
    OtherStatus(m, r, LiveStatus(r.resolution), bytes);
  }

  lemma OtherStatus(m: FrameMessage, r: FrameReply, status: string, bytes: nat)
    requires Pristine(m) && r.source == m.target && status != "" && status != ReplayStatus(r.resolution)
    requires |m.body| < bytes <= SCANNER_LIMIT
    ensures var ops := [Send(m, Written(bytes), true), Reply(m.id, r, status, Written(bytes), true)];
            && Possible(INITIAL, ops)
            && Boot(Run(INITIAL, ops), {m.source, m.target}, true) !=
               Sanitize({m.source, m.target}, Run(INITIAL, ops).ledger.live)
  {
    OneSend(m, bytes, true);
    var ops := [Send(m, Written(bytes), true), Reply(m.id, r, status, Written(bytes), true)];
    assert [m][0] == m;
    RunTwo(ops[0], ops[1]);
    RunKeeps(ops);
    var s, replied := Run(INITIAL, ops), WithReply(m, r, status);
    LiveReplyAt([m], m.id, r, status, 0);
    assert s.ledger.live == [replied];
    AppendedLoads(Next(INITIAL, ops[0]).file, RecordOf(ops[1]), Written(bytes));
    RecoveryExactIff(s, {m.source, m.target}, true);
    assert Sanitize({m.source, m.target}, [replied]) == [replied];
    assert replied in [replied];
  }
}
