/**
 The in-place half of frame messaging: the replay handlers that rewrite a
 session's message list, and the broker methods the event loop runs for an
 agent's send, read and reply and for the web surface's read.
 */
module FrameMessagingStore {
  import opened Wrappers
  import opened FrameMessaging
  import opened JournalFile
  import opened MessagingLedger
  import opened MessagingRuns
  import Text

  // ---------------------------------------------------------------- summary

  datatype Summary = Summary(
    unread: nat, latestMessage: string, latestReply: string, pendingDelivery: nat, lastStatus: string)

  /** `stateMessagePreview`: whitespace folded, at most 120 characters. */
  function Preview(body: string): (r: string)
    ensures |r| <= 120
  {
    var folded := Text.JoinSpace(Text.Fields(body));
    if |folded| <= 120 then folded else folded[..117] + "..."
  }

  function ReplyPreview(m: FrameMessage): string {
    if m.reply.None? then ""
    else Preview(Text.FirstNonEmpty([m.reply.value.finalAnswer, m.reply.value.body]))
  }

  /** What one message shows in the summary. */
  datatype Shown = Shown(message: string, reply: string, status: string)

  function ShownOf(m: FrameMessage): Shown {
    Shown(Preview(m.body), ReplyPreview(m), if m.replyStatus != "" then m.replyStatus else m.deliveryStatus)
  }

  function Latest(previous: string, candidate: string): string {
    if candidate != "" then candidate else previous
  }

  /** The summary of a message list, given what each message shows. */
  function Summarize(shown: FrameMessage -> Shown, ms: seq<FrameMessage>): Summary {
    if ms == [] then Summary(0, "", "", 0, "")
    else
      var s, m := Summarize(shown, ms[..|ms| - 1]), ms[|ms| - 1];
      Summary(s.unread + (if m.read then 0 else 1),
              Latest(s.latestMessage, shown(m).message),
              Latest(s.latestReply, shown(m).reply),
              s.pendingDelivery + (if m.reply.None? then 1 else 0),
              Latest(s.lastStatus, shown(m).status))
  }

  function UnreadAt(ms: seq<FrameMessage>): set<int> {
    set i | 0 <= i < |ms| && !ms[i].read
  }

  function UnansweredAt(ms: seq<FrameMessage>): set<int> {
    set i | 0 <= i < |ms| && ms[i].reply.None?
  }

  lemma UnreadGrows(ms: seq<FrameMessage>, n: nat)
    requires n + 1 == |ms|
    ensures |UnreadAt(ms)| == |UnreadAt(ms[..n])| + (if ms[n].read then 0 else 1)
  {
    var before := UnreadAt(ms[..n]);
    if ms[n].read {
      assert UnreadAt(ms) == before;
    } else {
      assert UnreadAt(ms) == before + {n};
    }
  }

  lemma UnansweredGrows(ms: seq<FrameMessage>, n: nat)
    requires n + 1 == |ms|
    ensures |UnansweredAt(ms)| == |UnansweredAt(ms[..n])| + (if ms[n].reply.None? then 1 else 0)
  {
    var before := UnansweredAt(ms[..n]);
    if ms[n].reply.Some? {
      assert UnansweredAt(ms) == before;
    } else {
      assert UnansweredAt(ms) == before + {n};
    }
  }

  /** The counts are of the unread and of the unanswered messages. */
  lemma {:induction false} SummaryMeaning(shown: FrameMessage -> Shown, ms: seq<FrameMessage>)
    ensures Summarize(shown, ms).unread == |UnreadAt(ms)|
    ensures Summarize(shown, ms).pendingDelivery == |UnansweredAt(ms)|
  {
    if ms != [] {
      var n := |ms| - 1;
      SummaryMeaning(shown, ms[..n]);
      UnreadGrows(ms, n);
      UnansweredGrows(ms, n);
    }
  }

  /** The status and previews are those of the last message that shows one. */
  lemma {:induction false} SummaryShowsLatest(shown: FrameMessage -> Shown, ms: seq<FrameMessage>, k: nat)
    requires k < |ms|
    ensures shown(ms[k]).status != "" && (forall i :: k < i < |ms| ==> shown(ms[i]).status == "") ==>
              Summarize(shown, ms).lastStatus == shown(ms[k]).status
    ensures shown(ms[k]).message != "" && (forall i :: k < i < |ms| ==> shown(ms[i]).message == "") ==>
              Summarize(shown, ms).latestMessage == shown(ms[k]).message
    ensures shown(ms[k]).reply != "" && (forall i :: k < i < |ms| ==> shown(ms[i]).reply == "") ==>
              Summarize(shown, ms).latestReply == shown(ms[k]).reply
  {
    var n := |ms| - 1;
    if k < n {
      SummaryShowsLatest(shown, ms[..n], k);
      forall i | k < i < n ensures ms[..n][i] == ms[i] {}
    }
  }

  /** Summaries of lists that agree up to their last message, which shows the same. */
  lemma SummarizeLike(shown: FrameMessage -> Shown, a: seq<FrameMessage>, b: seq<FrameMessage>)
    requires a != [] && b != [] && shown(a[|a| - 1]) == shown(b[|b| - 1]) && a[|a| - 1].reply == b[|b| - 1].reply
    requires var s, t := Summarize(shown, a[..|a| - 1]), Summarize(shown, b[..|b| - 1]); s == t.(unread := s.unread)
    ensures var s, t := Summarize(shown, a), Summarize(shown, b); s == t.(unread := s.unread)
  {
  }

  /** Marking messages read changes the unread count and nothing else. */
  lemma {:induction false} SummaryAfterRead(shown: FrameMessage -> Shown, ms: seq<FrameMessage>, ids: set<MessageId>)
    requires forall m: FrameMessage :: shown(m.(read := true)) == shown(m)
    ensures Summarize(shown, MarkRead(ms, ids)) ==
            Summarize(shown, ms).(unread := Summarize(shown, MarkRead(ms, ids)).unread)
  {
    if ms != [] {
      var n := |ms| - 1;
      SummaryAfterRead(shown, ms[..n], ids);
      var marked := MarkRead(ms, ids);
      assert marked[..n] == MarkRead(ms[..n], ids);
      assert marked[n] == ms[n] || marked[n] == ms[n].(read := true);
      SummarizeLike(shown, marked, ms);
    }
  }

  method ComputeSummary(shown: FrameMessage -> Shown, messages: seq<FrameMessage>) returns (s: Summary)
    ensures s == Summarize(shown, messages)
  {
    var unread, pending: nat := 0, 0;
    var latestMessage, latestReply, lastStatus := "", "", "";
    for i := 0 to |messages|
      invariant Summary(unread, latestMessage, latestReply, pending, lastStatus) == Summarize(shown, messages[..i])
    {
      var msg := messages[i];
      assert messages[..i + 1][..i] == messages[..i];
      if !msg.read { unread := unread + 1; }
      if msg.reply.None? { pending := pending + 1; }
      if shown(msg).message != "" { latestMessage := shown(msg).message; }
      if shown(msg).reply != "" { latestReply := shown(msg).reply; }
      if shown(msg).status != "" { lastStatus := shown(msg).status; }
    }
    assert messages[..|messages|] == messages;
    s := Summary(unread, latestMessage, latestReply, pending, lastStatus);
  }

  method NonEmptyIds(ids: seq<MessageId>) returns (readSet: set<MessageId>)
    ensures readSet == set id | id in ids && id != ""
  {
    readSet := {};
    for k := 0 to |ids|
      invariant readSet == set id | id in ids[..k] && id != ""
    {
      if ids[k] != "" { readSet := readSet + {ids[k]}; }
    }
    assert ids[..|ids|] == ids;
  }

  method FindMessage(messages: seq<FrameMessage>, id: MessageId) returns (index: int)
    ensures -1 <= index < |messages|
    ensures index >= 0 ==> messages[index].id == id && forall i :: 0 <= i < index ==> messages[i].id != id
    ensures index == -1 <==> !Has(messages, id)
  {
    for i := 0 to |messages|
      invariant forall j :: 0 <= j < i ==> messages[j].id != id
    {
      if messages[i].id == id { return i; }
    }
    return -1;
  }

  // ---------------------------------------------------------------- replay

  lemma InitialReplay(rec: Record, base: seq<FrameMessage>)
    ensures Replay([rec], base) == Apply(base, rec)
  {
    assert [rec][..0] == [];
  }

  /** The durable messaging payload of one session. */
  class SessionFrameMessaging {
    const shown: FrameMessage -> Shown
    var messages: seq<FrameMessage>
    var summary: Summary

    constructor (shown: FrameMessage -> Shown, messages: seq<FrameMessage>, summary: Summary)
      ensures this.messages == messages && this.summary == summary && this.shown == shown
    {
      this.shown := shown;
      this.messages := messages;
      this.summary := summary;
    }

    method ApplySent(message: Option<FrameMessage>)
      modifies this`messages
      ensures messages == Apply(old(messages), Sent(message))
    {
      if message.None? { return; }
      var msg := message.value;
      var idx := FindMessage(messages, msg.id);
      if idx >= 0 {
        var preserved := messages[idx];
        UpdateFirstAt(messages, msg.id, Preserve(msg), idx);
        if preserved.read { msg := msg.(read := true); }
        if preserved.reply.Some? { msg := msg.(reply := preserved.reply); }
        if preserved.replyStatus != "" { msg := msg.(replyStatus := preserved.replyStatus); }
        if preserved.deliveryStatus != "" { msg := msg.(deliveryStatus := preserved.deliveryStatus); }
        messages := messages[idx := msg];
        return;
      }
      messages := messages + [msg];
    }

    method ApplyReply(messageId: MessageId, reply: Option<FrameReply>)
      modifies this`messages
      ensures messages == Apply(old(messages), Replied(messageId, reply))
    {
      if reply.None? || messageId == "" { return; }
      ghost var before := messages;
      var i := 0;
      while i < |messages|
        invariant 0 <= i <= |messages| && messages == before
        invariant forall j :: 0 <= j < i ==> messages[j].id != messageId
      {
        if messages[i].id != messageId {
          i := i + 1;
          continue;
        }
        var status := if reply.value.resolution != "" then reply.value.resolution else REPLIED;
        messages := messages[i := messages[i].(reply := reply, replyStatus := status, deliveryStatus := REPLIED)];
        UpdateFirstAt(before, messageId, SetReply(reply.value), i);
        return;
      }
      UpdateFirstAbsent(before, messageId, SetReply(reply.value));
    }

    method ApplyRead(messageIds: seq<MessageId>, singleId: MessageId)
      modifies this`messages
      ensures messages == Apply(old(messages), ReadMarks(messageIds, singleId))
    {
      var ids := messageIds;
      if |ids| == 0 && singleId != "" { ids := [singleId]; }
      var readSet := NonEmptyIds(ids);
      MarkMessages(readSet);
    }

    method MarkMessages(readSet: set<MessageId>)
      modifies this`messages
      ensures messages == MarkRead(old(messages), readSet)
    {
      ghost var before := messages;
      var i := 0;
      while i < |messages|
        invariant 0 <= i <= |messages| && |messages| == |before|
        invariant forall j :: 0 <= j < i ==> messages[j] == MarkRead(before, readSet)[j]
        invariant forall j :: i <= j < |messages| ==> messages[j] == before[j]
      {
        if messages[i].id in readSet {
          messages := messages[i := messages[i].(read := true)];
        }
        i := i + 1;
      }
    }

    method ApplyRecord(rec: Record)
      modifies this`messages
      ensures messages == Apply(old(messages), rec)
    {
      match rec {
        case Sent(message) => ApplySent(message);
        case Replied(id, reply) => ApplyReply(id, reply);
        case ReadMarks(ids, single) => ApplyRead(ids, single);
        case OtherKind =>
      }
    }

    /** The scanned lines, in order, up to the first that cannot be read. */
    method ApplyLines(lines: seq<Line>) returns (ok: bool)
      modifies this`messages
      ensures ok <==> Unreadable !in lines
      ensures ok ==> messages == Replay(WholeRecords(lines), old(messages))
    {
      ghost var base := messages;
      for i := 0 to |lines|
        invariant Unreadable !in lines[..i] && messages == Replay(WholeRecords(lines[..i]), base)
      {
        assert lines[..i + 1][..i] == lines[..i];
        if lines[i].Unreadable? { return false; }
        ApplyRecord(lines[i].record);
        ReplayConcat(WholeRecords(lines[..i]), [lines[i].record], base);
        InitialReplay(lines[i].record, Replay(WholeRecords(lines[..i]), base));
      }
      assert lines[..|lines|] == lines;
      return true;
    }

    /** `loadFrameMessagingFromJournal`: an unreadable line anywhere is an error. */
    method LoadFromJournal(file: File) returns (ok: bool)
      modifies this
      ensures ok <==> Loads(file)
      ensures ok ==> messages == Replay(Records(file), old(messages)) && summary == Summarize(shown, messages)
    {
      ghost var base := messages;
      ok := ApplyLines(file.lines);
      if !ok || file.tail.Fragment? { return false; }
      if file.tail.Unended? {
        ApplyRecord(file.tail.record);
        ReplayConcat(WholeRecords(file.lines), [file.tail.record], base);
        InitialReplay(file.tail.record, Replay(WholeRecords(file.lines), base));
      } else {
        assert Records(file) == WholeRecords(file.lines);
      }
      summary := ComputeSummary(shown, messages);
    }

    /** `sanitizeFrameMessaging`. */
    method Sanitise(live: set<FrameId>)
      modifies this
      ensures messages == Sanitize(live, old(messages)) && summary == Summarize(shown, messages)
    {
      var filtered: seq<FrameMessage> := [];
      for i := 0 to |messages|
        invariant messages == old(messages) && filtered == Sanitize(live, messages[..i])
      {
        assert messages[..i + 1] == messages[..i] + [messages[i]];
        SanitizeConcat(live, messages[..i], [messages[i]]);
        var msg := messages[i];
        if msg.source !in live { continue; }
        if msg.target !in live { continue; }
        if msg.reply.Some? && msg.reply.value.source !in live { continue; }
        filtered := filtered + [msg];
      }
      assert messages[..|messages|] == messages;
      messages := filtered;
      summary := ComputeSummary(shown, messages);
    }
  }

  /** The boot path of one session: the snapshot is sanitised, and replaced if the journal loads. */
  method RestoreSession(shown: FrameMessage -> Shown, ghost s: Store,
                        saved: seq<FrameMessage>, file: File, live: set<FrameId>, readable: bool)
    returns (out: SessionFrameMessaging)
    requires saved == s.ledger.saved && file == s.file
    ensures fresh(out) && out.messages == Boot(s, live, readable) && out.summary == Summarize(shown, out.messages)
  {
    var zero := Summary(0, "", "", 0, "");
    out := new SessionFrameMessaging(shown, saved, zero);
    out.Sanitise(live);
    if !readable { return; }
    var clone := new SessionFrameMessaging(shown, out.messages, out.summary);
    var ok := clone.LoadFromJournal(file);
    if !ok { return; }
    clone.Sanitise(live);
    out := clone;
  }
}
