/**
 Memory and disk of one session's frame messaging as far as both can be read as
 records: the live messages, the records they have taken in, and a snapshot that
 may be older. `MessagingRuns` adds the journal file itself and whole runs.
 */
module MessagingLedger {
  import opened Wrappers
  import opened FrameMessaging
  import opened MessagingRecovery

  /**
   `live` is memory, `journal` the records it has taken in, `saved` the snapshot
   on disk. `gone` are the frames some restart has left out. `savedAt` and
   `savedGone` are history: how much of the journal, and which frames, the
   snapshot knew of.
   */
  datatype Ledger = Ledger(
    live: seq<FrameMessage>, journal: seq<Record>, saved: seq<FrameMessage>,
    gone: set<FrameId>, savedAt: nat, savedGone: set<FrameId>)

  predicate Open(ms: seq<FrameMessage>, id: MessageId, from: FrameId) {
    exists k :: 0 <= k < |ms| && ms[k].id == id && ms[k].target == from && ms[k].reply.None?
  }

  /** The live reply of `frameMessagingReply`: the first message with the id. */
  function LiveReply(ms: seq<FrameMessage>, id: MessageId, r: FrameReply, status: string): (out: seq<FrameMessage>)
    ensures |out| == |ms|
  {
    if ms == [] then []
    else if ms[0].id == id then [WithReply(ms[0], r, status)] + ms[1..]
    else [ms[0]] + LiveReply(ms[1..], id, r, status)
  }

  /** What an accepting handler has checked about the record it appends. */
  predicate Follows(s: Ledger, rec: Record) {
    match rec
    case Sent(m) => m.Some? && Pristine(m.value) && Fresh(s.journal, m.value.id) && !Touches(m.value, s.gone)
    case Replied(id, r) => r.Some? && id != "" && Open(s.live, id, r.value.source)
    case ReadMarks(ids, single) => single == ""
    case OtherKind => false
  }

  /** Memory after taking in one record; `status` is what a reply stamps on its message. */
  function Taken(s: Ledger, rec: Record, status: string): Ledger {
    s.(journal := s.journal + [rec], live :=
         match rec
         case Sent(m) => if m.None? then s.live else s.live + [m.value]
         case Replied(id, r) => if r.None? then s.live else LiveReply(s.live, id, r.value, status)
         case ReadMarks(ids, single) => MarkRead(s.live, MarkedIds(ids, single))
         case OtherKind => s.live)
  }

  /** A boot that can read its journal: sanitise the snapshot, replay over it, sanitise again. */
  function Recover(s: Ledger, frames: set<FrameId>): seq<FrameMessage> {
    Sanitize(frames, Replay(s.journal, Sanitize(frames, s.saved)))
  }

  function Saving(s: Ledger, ok: bool): Ledger {
    if ok then s.(saved := s.live, savedAt := |s.journal|, savedGone := s.gone) else s
  }

  function Restarted(s: Ledger, frames: set<FrameId>): Ledger {
    s.(live := Recover(s, frames), gone := Frames(s.journal) - frames)
  }

  // ------------------------------------------------------------- invariant

  predicate Covers(m: FrameMessage, stored: FrameMessage) {
    stored.id == m.id && stored.read ==> m.read
  }

  ghost predicate ReadsCovered(saved: seq<FrameMessage>, live: seq<FrameMessage>) {
    forall i, k {:trigger Covers(live[k], saved[i])} ::
      0 <= i < |saved| && 0 <= k < |live| ==> Covers(live[k], saved[i])
  }

  ghost predicate Journalled(j: seq<Record>, gone: set<FrameId>) {
    WellFormed(j) && CoherentJournal(EndsOf(j), j) && gone <= Frames(j)
  }

  /** The live list is at the whole journal, the snapshot at an earlier point of it. */
  ghost predicate Agrees(s: Ledger) {
    && Journalled(s.journal, s.gone)
    && Reached(Living(s.gone, s.journal), s.live)
    && s.savedAt <= |s.journal| && s.savedGone <= s.gone
    && Reached(Living(s.savedGone, s.journal[..s.savedAt]), s.saved)
    && ReadsCovered(s.saved, s.live)
  }

  // ------------------------------------------------ what a boot gets back

  predicate SavedRead(saved: seq<FrameMessage>, id: MessageId) {
    exists k :: 0 <= k < |saved| && saved[k].id == id && saved[k].read
  }

  /** The part of a live message that is on disk. */
  function Durable(s: Ledger, m: FrameMessage): FrameMessage {
    m.(read := ReadIn(s.journal, m.id) || SavedRead(s.saved, m.id),
       replyStatus := if m.reply.Some? then ReplayStatus(m.reply.value.resolution) else m.replyStatus)
  }

  /** Sanitising a list that is at the living part of a journal. */
  lemma SanitizeReached(j: seq<Record>, n: nat, gone: set<FrameId>, frames: set<FrameId>, ms: seq<FrameMessage>)
    requires Journalled(j, gone) && n <= |j| && frames !! gone
    requires Reached(Living(gone, j[..n]), ms)
    ensures Reached(Living(Frames(j) - frames, j[..n]), Sanitize(frames, ms))
    ensures Coherent(EndsOf(j), ms)
  {
    var q, left := j[..n], Frames(j) - frames;
    Prefixes(j, n, "");
    FramesPrefix(j, n);
    LivingWellFormed(gone, q);
    SentsDistinct(Living(gone, q));
    ReachedCoherent(j, n, gone, ms);
    forall i | 0 <= i < |ms| && ms[i].reply.Some? ensures ms[i].reply.value.source == ms[i].target {
      assert CoherentMessage(EndsOf(j), ms[i]);
    }
    forall id ensures ReplyIn(Living(gone, q), id) == ReplyIn(Living(left, q), id)
              ensures ReadIn(Living(gone, q), id) == ReadIn(Living(left, q), id)
    {
      LivingFacts(gone, q, id);
      LivingFacts(left, q, id);
    }
    LivingSents(frames, gone, Frames(j), q);
    MatchSanitize(Living(gone, q), Living(left, q), frames, Sents(Living(gone, q)), ms);
  }

  lemma {:induction false} FramesPrefix(j: seq<Record>, n: nat)
    requires n <= |j|
    ensures Frames(j[..n]) <= Frames(j)
  {
    if n == |j| {
      assert j[..n] == j;
    } else {
      var p := j[..|j| - 1];
      FramesPrefix(p, n);
      assert p[..n] == j[..n];
    }
  }

  /** The boot path lands on the living part of the whole journal. */
  lemma RecoverReached(s: Ledger, frames: set<FrameId>)
    requires Agrees(s) && frames !! s.gone
    ensures Reached(Living(Frames(s.journal) - frames, s.journal), Recover(s, frames))
    ensures WellFormed(Living(Frames(s.journal) - frames, s.journal))
    ensures Recovered(Living(Frames(s.journal) - frames, s.journal), Sanitize(frames, s.saved), Recover(s, frames))
  {
    var j, left := s.journal, Frames(s.journal) - frames;
    var lj, base := Living(left, j), Sanitize(frames, s.saved);
    SavedReached(s, frames);
    LivingWellFormed(left, j);
    assert j[..|j|] == j && lj[..|lj|] == lj;
    LivingInit(left, j, s.savedAt);
    ReplayFrom(lj, s.savedAt, |lj|, base);
    SanitizeCoherent(EndsOf(j), frames, s.saved);
    SanitizeReplay(EndsOf(j), frames, j, base);
    SanitizeIdempotent(frames, s.saved);
    SanitizeJournalIsLiving(frames, j);
  }

  lemma SavedReached(s: Ledger, frames: set<FrameId>)
    requires Agrees(s) && frames !! s.gone
    ensures Reached(Living(Frames(s.journal) - frames, s.journal[..s.savedAt]), Sanitize(frames, s.saved))
    ensures Coherent(EndsOf(s.journal), s.saved)
  {
    SanitizeReached(s.journal, s.savedAt, s.savedGone, frames, s.saved);
  }

  lemma {:induction false} SanitizeJournalIsLiving(frames: set<FrameId>, j: seq<Record>)
    requires WellFormed(j)
    ensures SanitizeJournal(frames, j) == Living(Frames(j) - frames, j)
  {
    forall i | 0 <= i < |j|
      ensures SanitizeRecord(frames, j[i]) == LivingRecord(Frames(j) - frames, j[i])
    {
      RecordStands(j, i);
      if j[i].Sent? && j[i].message.Some? {
        SentFrames(j, j[i].message.value);
      }
    }
  }

  lemma {:induction false} SentFrames(j: seq<Record>, m: FrameMessage)
    requires m in Sents(j)
    ensures m.source in Frames(j) && m.target in Frames(j)
  {
    if m in Sents(j[..|j| - 1]) {
      SentFrames(j[..|j| - 1], m);
    }
  }

  /** The sanitised snapshot lines up with the recovered list, read marks included. */
  lemma SavedReadAligned(s: Ledger, frames: set<FrameId>, i: nat)
    requires Agrees(s) && frames !! s.gone && i < |Recover(s, frames)|
    ensures var base := Sanitize(frames, s.saved);
            SavedRead(s.saved, Recover(s, frames)[i].id) <==> i < |base| && base[i].read
  {
    var j, left := s.journal, Frames(s.journal) - frames;
    var lj, base, got := Living(left, j), Sanitize(frames, s.saved), Recover(s, frames);
    RecoverReached(s, frames);
    SavedReached(s, frames);
    LivingInit(left, j, s.savedAt);
    Prefixes(lj, s.savedAt, "");
    SentsDistinct(lj);
    var id := got[i].id;
    assert Matches(lj, Sents(lj)[i], got[i]);
    if i < |base| && base[i].read {
      assert Matches(lj[..s.savedAt], Sents(lj)[i], base[i]);
      SanitizeMember(frames, s.saved, base[i]);
      var k :| 0 <= k < |s.saved| && s.saved[k] == base[i];
      assert SavedRead(s.saved, id);
    }
    if SavedRead(s.saved, id) {
      var k :| 0 <= k < |s.saved| && s.saved[k].id == id && s.saved[k].read;
      assert Survives(frames, s.saved[k]) by {
        EndsDomain(j);
        assert CoherentMessage(EndsOf(j), s.saved[k]);
        LivingSentsSubset(left, j, Sents(lj)[i]);
        SentFrames(j, Sents(lj)[i]);
      }
      SanitizeMember(frames, s.saved, s.saved[k]);
      var n :| 0 <= n < |base| && base[n] == s.saved[k];
      assert Matches(lj[..s.savedAt], Sents(lj)[n], base[n]);
      assert Sents(lj)[n].id == Sents(lj)[i].id;
      assert !(n < i) && !(i < n);
    }
  }

  /**
   Crash recovery. Whatever snapshot is on disk, a boot gets back the live messages
   between the frames it restores, in order, exactly as far as they are on disk.
   */
  lemma ReplayIsDurable(s: Ledger, frames: set<FrameId>)
    requires Agrees(s) && frames !! s.gone
    ensures |Recover(s, frames)| == |Sanitize(frames, s.live)|
    ensures forall i :: 0 <= i < |Recover(s, frames)| ==>
              Recover(s, frames)[i] == Durable(s, Sanitize(frames, s.live)[i])
  {
    var j, left := s.journal, Frames(s.journal) - frames;
    var lj, kept, got := Living(left, j), Sanitize(frames, s.live), Recover(s, frames);
    assert j[..|j|] == j;
    SanitizeReached(j, |j|, s.gone, frames, s.live);
    RecoverReached(s, frames);
    forall i | 0 <= i < |got| ensures got[i] == Durable(s, kept[i]) {
      assert Matches(lj, Sents(lj)[i], got[i]) && Matches(lj, Sents(lj)[i], kept[i]);
      LivingFacts(left, j, got[i].id);
      SavedReadAligned(s, frames, i);
    }
  }

  // ------------------------------------------------------ runs keep the invariant

  lemma CoherentExtends(j: seq<Record>, rec: Record)
    requires WellFormed(j) && CoherentJournal(EndsOf(j), j) && MayFollow(j, rec)
    requires CoherentRecord(EndsOf(j + [rec]), rec)
    ensures WellFormed(j + [rec]) && CoherentJournal(EndsOf(j + [rec]), j + [rec])
    ensures Frames(j) <= Frames(j + [rec])
  {
    InitOf(j, rec);
    EndsDomain(j);
    forall i | 0 <= i < |j + [rec]| ensures CoherentRecord(EndsOf(j + [rec]), (j + [rec])[i]) {
      if i < |j| {
        assert CoherentRecord(EndsOf(j), j[i]);
      }
    }
  }

  lemma LivingAppend(gone: set<FrameId>, j: seq<Record>, rec: Record)
    ensures Living(gone, j + [rec]) == Living(gone, j) + [LivingRecord(gone, rec)]
    ensures forall n :: 0 <= n <= |j| ==> (j + [rec])[..n] == j[..n]
  {
  }

  lemma {:induction false} LiveReplyAt(ms: seq<FrameMessage>, id: MessageId, r: FrameReply, status: string, k: nat)
    requires k < |ms| && ms[k].id == id && forall i :: 0 <= i < k ==> ms[i].id != id
    ensures LiveReply(ms, id, r, status) == ms[k := WithReply(ms[k], r, status)]
  {
    if k > 0 {
      LiveReplyAt(ms[1..], id, r, status, k - 1);
      assert ms == [ms[0]] + ms[1..];
    }
  }

  lemma SavingKeeps(s: Ledger, ok: bool)
    requires Agrees(s)
    ensures Agrees(Saving(s, ok))
  {
    assert s.journal[..|s.journal|] == s.journal;
    var lj := Living(s.gone, s.journal);
    LivingWellFormed(s.gone, s.journal);
    forall i, k | 0 <= i < |s.live| && 0 <= k < |s.live| && s.live[i].id == s.live[k].id ensures i == k {
      var n := FirstMatch(lj, s.live, s.live[i].id);
    }
  }

  /** Memory and journal move by one record; the snapshot stays behind. */
  lemma CommitKeeps(s: Ledger, rec: Record, live': seq<FrameMessage>)
    requires Agrees(s) && MayFollow(s.journal, rec) && CoherentRecord(EndsOf(s.journal + [rec]), rec)
    requires Reached(Living(s.gone, s.journal + [rec]), live')
    requires ReadsCovered(s.saved, live')
    ensures Agrees(s.(live := live', journal := s.journal + [rec]))
  {
    CoherentExtends(s.journal, rec);
    LivingAppend(s.gone, s.journal, rec);
  }

  lemma SendKeeps(s: Ledger, m: FrameMessage)
    requires Agrees(s) && Pristine(m) && Fresh(s.journal, m.id) && !Touches(m, s.gone)
    ensures Agrees(s.(live := s.live + [m], journal := s.journal + [Sent(Some(m))]))
  {
    var j, rec := s.journal, Sent(Some(m));
    var lj := Living(s.gone, j);
    InitOf(j, rec);
    EndsDomain(j);
    LivingFacts(s.gone, j, m.id);
    LivingAppend(s.gone, j, rec);
    ReachedSend(lj, s.live, m);
    SavedIds(s);
    assert ReadsCovered(s.saved, s.live + [m]);
    CommitKeeps(s, rec, s.live + [m]);
  }

  /** The snapshot holds only journalled ids. */
  lemma SavedIds(s: Ledger)
    requires Agrees(s)
    ensures forall i :: 0 <= i < |s.saved| ==> Has(Sents(s.journal), s.saved[i].id)
  {
    var q := s.journal[..s.savedAt];
    forall i | 0 <= i < |s.saved| ensures Has(Sents(s.journal), s.saved[i].id) {
      var t := Sents(Living(s.savedGone, q))[i];
      assert Matches(Living(s.savedGone, q), t, s.saved[i]);
      assert Has(Sents(Living(s.savedGone, q)), t.id);
      LivingFacts(s.savedGone, q, t.id);
      Prefixes(s.journal, s.savedAt, t.id);
    }
  }

  /** An open message is the only one with its id, and its reply will be coherent. */
  lemma OpenMessage(s: Ledger, id: MessageId, r: FrameReply) returns (k: nat)
    requires Agrees(s) && id != "" && Open(s.live, id, r.source)
    ensures k < |s.live| && s.live[k].id == id && s.live[k].reply.None?
    ensures forall i :: 0 <= i < k ==> s.live[i].id != id
    ensures MayFollow(s.journal, Replied(id, Some(r)))
    ensures CoherentRecord(EndsOf(s.journal), Replied(id, Some(r)))
  {
    var j, lj := s.journal, Living(s.gone, s.journal);
    LivingWellFormed(s.gone, j);
    k := FirstMatch(lj, s.live, id);
    assert Matches(lj, Sents(lj)[k], s.live[k]);
    LivingFacts(s.gone, j, id);
    LivingSentsSubset(s.gone, j, Sents(lj)[k]);
    EndsDomain(j);
  }

  lemma ReplyKeeps(s: Ledger, id: MessageId, r: FrameReply, status: string)
    requires Agrees(s) && id != "" && status != "" && Open(s.live, id, r.source)
    ensures Agrees(s.(live := LiveReply(s.live, id, r, status), journal := s.journal + [Replied(id, Some(r))]))
  {
    var j, rec, lj := s.journal, Replied(id, Some(r)), Living(s.gone, s.journal);
    var k := OpenMessage(s, id, r);
    LiveReplyAt(s.live, id, r, status, k);
    var replied := LiveReply(s.live, id, r, status);
    assert Reached(Living(s.gone, j + [rec]), replied) by {
      LivingWellFormed(s.gone, j);
      LivingAppend(s.gone, j, rec);
      ReachedReply(lj, s.live, k, r, status);
    }
    assert ReadsCovered(s.saved, replied) by {
      forall i, n | 0 <= i < |s.saved| && 0 <= n < |replied| ensures Covers(replied[n], s.saved[i]) {
        assert Covers(s.live[n], s.saved[i]);
      }
    }
    assert CoherentRecord(EndsOf(j + [rec]), rec) by { InitOf(j, rec); }
    CommitKeeps(s, rec, replied);
  }

  lemma ReadKeeps(s: Ledger, ids: seq<MessageId>)
    requires Agrees(s)
    ensures Agrees(s.(live := MarkRead(s.live, MarkedIds(ids, "")), journal := s.journal + [ReadMarks(ids, "")]))
    ensures Agrees(s.(live := MarkRead(s.live, MarkedIds(ids, ""))))
  {
    var rec, marked := ReadMarks(ids, ""), MarkRead(s.live, MarkedIds(ids, ""));
    LivingAppend(s.gone, s.journal, rec);
    ReachedRead(Living(s.gone, s.journal), s.live, rec);
    ReachedMark(Living(s.gone, s.journal), s.live, MarkedIds(ids, ""));
    CommitKeeps(s, rec, marked);
  }

  /** Journalling the marks after the fact, as the web surface's read does. */
  lemma LateReadKeeps(s: Ledger, ids: seq<MessageId>)
    requires Agrees(s) && forall i :: 0 <= i < |s.live| && s.live[i].id in MarkedIds(ids, "") ==> s.live[i].read
    ensures Agrees(s.(journal := s.journal + [ReadMarks(ids, "")]))
  {
    var marked := MarkRead(s.live, MarkedIds(ids, ""));
    ReadKeeps(s, ids);
    assert marked == s.live;
  }

  lemma TakenKeeps(s: Ledger, rec: Record, status: string)
    requires Agrees(s) && Follows(s, rec) && status != ""
    ensures Agrees(Taken(s, rec, status))
  {
    match rec
    case Sent(m) => SendKeeps(s, m.value);
    case Replied(id, r) => ReplyKeeps(s, id, r.value, status);
    case ReadMarks(ids, single) => ReadKeeps(s, ids);
  }

  lemma RestartKeeps(s: Ledger, frames: set<FrameId>)
    requires Agrees(s) && frames !! s.gone
    ensures Agrees(Restarted(s, frames))
  {
    RecoverReached(s, frames);
    ReplayIsDurable(s, frames);
    var got := Recover(s, frames);
    forall i, k | 0 <= i < |s.saved| && 0 <= k < |got| ensures Covers(got[k], s.saved[i]) {
      if s.saved[i].id == got[k].id && s.saved[i].read {
        assert SavedRead(s.saved, got[k].id);
      }
    }
  }

  /** A boot restores the live messages exactly iff each one's read mark and status are on disk. */
  lemma ReplayExactIff(s: Ledger, frames: set<FrameId>)
    requires Agrees(s) && frames !! s.gone
    ensures Recover(s, frames) == Sanitize(frames, s.live) <==>
            forall m :: m in Sanitize(frames, s.live) ==>
              && (m.read ==> ReadIn(s.journal, m.id) || SavedRead(s.saved, m.id))
              && (m.reply.Some? ==> m.replyStatus == ReplayStatus(m.reply.value.resolution))
  {
    ReplayIsDurable(s, frames);
    var kept, got := Sanitize(frames, s.live), Recover(s, frames);
    forall i | 0 <= i < |kept| ensures Durable(s, kept[i]).read ==> kept[i].read {
      var m := kept[i];
      SanitizeMember(frames, s.live, m);
      var k :| 0 <= k < |s.live| && s.live[k] == m;
      assert Matches(Living(s.gone, s.journal), Sents(Living(s.gone, s.journal))[k], s.live[k]);
      LivingFacts(s.gone, s.journal, m.id);
      if SavedRead(s.saved, m.id) {
        var n :| 0 <= n < |s.saved| && s.saved[n].id == m.id && s.saved[n].read;
        assert Covers(s.live[k], s.saved[n]);
      }
    }
    if got == kept {
      forall m | m in kept
        ensures m.read ==> ReadIn(s.journal, m.id) || SavedRead(s.saved, m.id)
        ensures m.reply.Some? ==> m.replyStatus == ReplayStatus(m.reply.value.resolution)
      {
        var i :| 0 <= i < |kept| && kept[i] == m;
        assert got[i] == Durable(s, kept[i]);
      }
    }
  }

  ghost predicate OnDisk(j: seq<Record>, m: FrameMessage) {
    && (m.read ==> ReadIn(j, m.id))
    && (m.reply.Some? ==> m.replyStatus == ReplayStatus(m.reply.value.resolution))
  }

  ghost predicate AllOnDisk(j: seq<Record>, ms: seq<FrameMessage>) {
    forall m :: m in ms ==> OnDisk(j, m)
  }

  lemma OnDiskExtends(j: seq<Record>, rec: Record, ms: seq<FrameMessage>)
    requires AllOnDisk(j, ms)
    ensures AllOnDisk(j + [rec], ms)
  {
    InitOf(j, rec);
    forall m | m in ms ensures OnDisk(j + [rec], m) {
      assert OnDisk(j, m);
    }
  }

  lemma MarkOnDisk(j: seq<Record>, ids: seq<MessageId>, ms: seq<FrameMessage>)
    requires AllOnDisk(j, ms)
    ensures AllOnDisk(j + [ReadMarks(ids, "")], MarkRead(ms, MarkedIds(ids, "")))
  {
    InitOf(j, ReadMarks(ids, ""));
    var marked := MarkRead(ms, MarkedIds(ids, ""));
    forall m | m in marked ensures OnDisk(j + [ReadMarks(ids, "")], m) {
      var i :| 0 <= i < |marked| && marked[i] == m;
      assert ms[i] in ms && OnDisk(j, ms[i]);
    }
  }

  lemma {:induction false} ReplyOnDisk(
    j: seq<Record>, ms: seq<FrameMessage>, id: MessageId, r: FrameReply, status: string)
    requires AllOnDisk(j, ms) && status == ReplayStatus(r.resolution)
    ensures AllOnDisk(j, LiveReply(ms, id, r, status))
  {
    if ms != [] {
      assert ms[0] in ms && OnDisk(j, ms[0]);
      assert AllOnDisk(j, ms[1..]) by { assert forall m :: m in ms[1..] ==> m in ms; }
      ReplyOnDisk(j, ms[1..], id, r, status);
    }
  }

  lemma CleanRestart(s: Ledger, frames: set<FrameId>)
    requires Agrees(s) && frames !! s.gone && AllOnDisk(s.journal, s.live) && AllOnDisk(s.journal, s.saved)
    ensures AllOnDisk(s.journal, Recover(s, frames))
  {
    ReplayIsDurable(s, frames);
    var got, kept := Recover(s, frames), Sanitize(frames, s.live);
    forall m | m in got ensures OnDisk(s.journal, m) {
      var i :| 0 <= i < |got| && got[i] == m;
      assert m == Durable(s, kept[i]);
      if SavedRead(s.saved, m.id) {
        var k :| 0 <= k < |s.saved| && s.saved[k].id == m.id && s.saved[k].read;
        assert s.saved[k] in s.saved;
      }
    }
  }

  ghost predicate CleanLedger(s: Ledger) {
    AllOnDisk(s.journal, s.live) && AllOnDisk(s.journal, s.saved)
  }

  lemma CleanTaken(s: Ledger, rec: Record, status: string)
    requires CleanLedger(s) && Follows(s, rec)
    requires rec.Replied? ==> status == ReplayStatus(rec.reply.value.resolution)
    ensures CleanLedger(Taken(s, rec, status))
  {
    OnDiskExtends(s.journal, rec, s.saved);
    match rec
    case Sent(m) => OnDiskExtends(s.journal, rec, s.live);
    case Replied(id, r) =>
      ReplyOnDisk(s.journal, s.live, id, r.value, status);
      OnDiskExtends(s.journal, rec, LiveReply(s.live, id, r.value, status));
    case ReadMarks(ids, single) => MarkOnDisk(s.journal, ids, s.live);
  }
}
