/**
 What a client sees of one subscription key, which may be subscribed again and again:
 one gapless run of chunks after the other, never mixed.
 */
module SurfaceOrder {
  import opened Wrappers
  import opened SurfaceProtocol
  import opened SurfaceInvariant
  import opened SurfaceDelivery

  predicate SameKey(ws: seq<Wire>, i: nat, j: nat)
    requires i < |ws| && j < |ws|
  {
    ws[i].Surface? && ws[j].Surface? && ws[i].chunk.key == ws[j].chunk.key
  }

  /** Between two chunks of one subscription there is none of another on its key. */
  predicate Unbroken(ws: seq<Wire>, i: nat, j: nat, l: nat) {
    i < j < l < |ws| && SameKey(ws, i, j) && SameKey(ws, j, l) && ws[i].chunk.tag == ws[l].chunk.tag ==>
      ws[j].chunk.tag == ws[i].chunk.tag
  }

  /** Behind a chunk of the subscription that stands there is none of another on its key. */
  predicate Latest(subs: map<Key, Tag>, ws: seq<Wire>, i: nat, j: nat) {
    i < j < |ws| && SameKey(ws, i, j) && ws[i].chunk.key in subs && subs[ws[i].chunk.key] == ws[i].chunk.tag ==>
      ws[j].chunk.tag == ws[i].chunk.tag
  }

  ghost predicate Ordered(subs: map<Key, Tag>, ws: seq<Wire>) {
    && (forall i, j, l {:trigger Unbroken(ws, i, j, l)} :: Unbroken(ws, i, j, l))
    && (forall i, j {:trigger Latest(subs, ws, i, j)} :: Latest(subs, ws, i, j))
  }

  ghost predicate OrderInv(s: State) {
    forall c {:trigger s.conns[c]} :: c in s.conns ==> Ordered(s.subs, Pipe(s.conns[c]))
  }

  lemma OrderedAppend(subs: map<Key, Tag>, ws: seq<Wire>, w: Wire)
    requires Ordered(subs, ws)
    requires w.Surface? ==> w.chunk.key in subs && subs[w.chunk.key] == w.chunk.tag
    ensures Ordered(subs, ws + [w])
  {
    var all := ws + [w];
    forall i, j ensures Latest(subs, all, i, j) { assert Latest(subs, ws, i, j); }
    forall i, j, l ensures Unbroken(all, i, j, l) {
      assert Unbroken(ws, i, j, l) && Latest(subs, ws, i, j);
    }
  }

  lemma OrderedFewer(subs: map<Key, Tag>, fewer: map<Key, Tag>, ws: seq<Wire>)
    requires Ordered(subs, ws) && forall key :: key in fewer ==> key in subs && fewer[key] == subs[key]
    ensures Ordered(fewer, ws)
  {
    forall i, j ensures Latest(fewer, ws, i, j) { assert Latest(subs, ws, i, j); }
  }

  /** A new subscription has no chunk anywhere yet. */
  lemma OrderedFresh(subs: map<Key, Tag>, ws: seq<Wire>, key: Key, tag: Tag)
    requires Ordered(subs, ws)
    requires forall i :: 0 <= i < |ws| && ws[i].Surface? ==> ws[i].chunk.tag != tag
    ensures Ordered(subs[key := tag], ws)
  {
    var more := subs[key := tag];
    forall i, j ensures Latest(more, ws, i, j) { assert Latest(subs, ws, i, j); }
  }

  // ------------------------------------------------------- steps keep the order

  /** What a step may do to the pipes, as far as order goes. */
  ghost predicate Moves(s: State, t: State, c: ConnId) {
    c in t.conns ==>
      || (c !in s.conns && Pipe(t.conns[c]) == [])
      || (c in s.conns && Pipe(t.conns[c]) == Pipe(s.conns[c]))
      || (c in s.conns && t.subs == s.subs && exists w ::
            && Pipe(t.conns[c]) == Pipe(s.conns[c]) + [w]
            && (w.Surface? ==> w.chunk.key in s.subs && s.subs[w.chunk.key] == w.chunk.tag))
  }

  lemma MovesKeep(s: State, t: State)
    requires OrderInv(s) && forall c {:trigger Moves(s, t, c)} :: Moves(s, t, c)
    requires forall key :: key in t.subs ==> key in s.subs && t.subs[key] == s.subs[key]
    ensures OrderInv(t)
  {
    forall c | c in t.conns ensures Ordered(t.subs, Pipe(t.conns[c])) {
      assert Moves(s, t, c);
      if c in s.conns {
        if Pipe(t.conns[c]) == Pipe(s.conns[c]) {
          OrderedFewer(s.subs, t.subs, Pipe(s.conns[c]));
        } else {
          var w :| Pipe(t.conns[c]) == Pipe(s.conns[c]) + [w] &&
                   (w.Surface? ==> w.chunk.key in s.subs && s.subs[w.chunk.key] == w.chunk.tag);
          OrderedAppend(s.subs, Pipe(s.conns[c]), w);
        }
      }
    }
  }

  lemma SubscribeOrdered(caps: Caps, s: State, key: Key, frame: FrameId)
    requires Inv(s) && OrderInv(s) && Enabled(caps, s, Subscribe(key, frame)) && key !in s.subs
    ensures OrderInv(Next(caps, s, Subscribe(key, frame)))
  {
    var t, tag := Next(caps, s, Subscribe(key, frame)), Tag(frame, Counter(s, frame) + 1);
    assert tag in s.streams ==> StreamOk(s, tag);
    forall c | c in t.conns ensures Ordered(t.subs, Pipe(t.conns[c])) {
      var ws := Pipe(s.conns[c]);
      assert ConnOk(s.streams, c, s.conns[c]);
      forall i | 0 <= i < |ws| && ws[i].Surface? ensures ws[i].chunk.tag != tag {
        assert WireOk(s.streams, c, Pipe(s.conns[c])[i]);
      }
      OrderedFresh(s.subs, ws, key, tag);
    }
  }

  lemma PushMoves(s: State, c: ConnId, w: Wire, d: ConnId)
    requires c in s.conns && (w.Surface? ==> w.chunk.key in s.subs && s.subs[w.chunk.key] == w.chunk.tag)
    ensures Moves(s, SetConn(s, c, s.conns[c].(outbox := s.conns[c].outbox + [w])), d)
  {
    var cc := s.conns[c];
    if d == c {
      assert Pipe(cc.(outbox := cc.outbox + [w])) == Pipe(cc) + [w];
    }
  }

  lemma QueueMoves(caps: Caps, s: State, key: Key, w: Wire, preferDone: bool, c: ConnId)
    requires w.Surface? ==> w.chunk.key in s.subs && s.subs[w.chunk.key] == w.chunk.tag
    ensures Moves(s, QueueWire(caps, s, key, w, preferDone), c)
  {
    if key.conn in s.conns { PushMoves(s, key.conn, w, c); }
  }

  lemma WriterMoves(caps: Caps, s: State, step: Step, c: ConnId)
    requires Enabled(caps, s, step) && (step.WriterTake? || step.WriterCheck? || step.WriterWrite?)
    ensures Moves(s, Next(caps, s, step), c)
  {
    var cc := s.conns[step.conn];
    if step.WriterTake? {
      assert cc.written + [] + cc.outbox == cc.written + [cc.outbox[0]] + cc.outbox[1..];
    } else if step.WriterWrite? && step.ok {
      assert cc.written + [cc.writing.value] + cc.outbox == (cc.written + [cc.writing.value]) + [] + cc.outbox;
    }
  }

  lemma DispatchMoves(caps: Caps, s: State, preferDone: bool, c: ConnId)
    requires s.lane != []
    ensures Moves(s, DispatchOne(caps, s, preferDone), c)
  {
    var rest := s.(lane := s.lane[1..]);
    if s.lane[0].Output? {
      var chunk := s.lane[0].chunk;
      if chunk.key in s.subs && s.subs[chunk.key] == chunk.tag {
        QueueMoves(caps, rest, chunk.key, Surface(chunk), preferDone, c);
        assert Moves(rest, QueueWire(caps, rest, chunk.key, Surface(chunk), preferDone), c);
      }
    }
  }

  lemma NextMoves(caps: Caps, s: State, step: Step, c: ConnId)
    requires Enabled(caps, s, step)
    ensures Moves(s, Next(caps, s, step), c)
  {
    match step
    case Dispatch(preferDone) => DispatchMoves(caps, s, preferDone, c);
    case PromptEvent(key, preferDone) => QueueMoves(caps, s, key, Prompt, preferDone, c);
    case WriterTake(_) => WriterMoves(caps, s, step, c);
    case WriterCheck(_) => WriterMoves(caps, s, step, c);
    case WriterWrite(_, _) => WriterMoves(caps, s, step, c);
    case _ =>
  }

  lemma SubsShrink(caps: Caps, s: State, step: Step)
    requires Enabled(caps, s, step) && !(step.Subscribe? && step.key !in s.subs)
    ensures var t := Next(caps, s, step); forall key :: key in t.subs ==> key in s.subs && t.subs[key] == s.subs[key]
  {
  }

  lemma NextOrdered(caps: Caps, s: State, step: Step)
    requires Inv(s) && OrderInv(s) && Enabled(caps, s, step)
    ensures OrderInv(Next(caps, s, step))
  {
    if step.Subscribe? && step.key !in s.subs {
      SubscribeOrdered(caps, s, step.key, step.frame);
    } else {
      var t := Next(caps, s, step);
      SubsShrink(caps, s, step);
      forall c ensures Moves(s, t, c) { NextMoves(caps, s, step, c); }
      MovesKeep(s, t);
    }
  }

  lemma {:induction false} RunOrdered(caps: Caps, steps: seq<Step>)
    requires Possible(caps, steps)
    ensures OrderInv(Run(caps, steps))
  {
    if steps != [] {
      RunOrdered(caps, steps[..|steps| - 1]);
      RunKeeps(caps, steps[..|steps| - 1]);
      NextOrdered(caps, Run(caps, steps[..|steps| - 1]), steps[|steps| - 1]);
    }
  }

  // ---------------------------------------------------------- what a key gets

  predicate Mine(w: Wire, key: Key) {
    w.Surface? && w.chunk.key == key
  }

  /** The chunks written for a key, in order. */
  function KeyChunks(ws: seq<Wire>, key: Key): seq<Chunk> {
    if ws == [] then []
    else
      var w := ws[|ws| - 1];
      KeyChunks(ws[..|ws| - 1], key) + if Mine(w, key) then [w.chunk] else []
  }

  /** The first chunk of a subscription not seen before, or the next one of the same. */
  predicate NextInRun(own: seq<Chunk>, p: nat)
    requires p < |own|
  {
    || (own[p].seqNo == 0 && forall q :: 0 <= q < p ==> own[q].tag != own[p].tag)
    || (p > 0 && own[p].tag == own[p - 1].tag && own[p].seqNo == own[p - 1].seqNo + 1)
  }

  /** Gapless runs, one subscription after the other. */
  ghost predicate GaplessRuns(own: seq<Chunk>) {
    forall p {:trigger NextInRun(own, p)} :: 0 <= p < |own| ==> NextInRun(own, p)
  }

  /** A subscription has one key. */
  predicate OneKey(ws: seq<Wire>, i: nat, j: nat) {
    i < |ws| && j < |ws| && ws[i].Surface? && ws[j].Surface? && ws[i].chunk.tag == ws[j].chunk.tag ==>
      ws[i].chunk.key == ws[j].chunk.key
  }

  predicate TagGapless(ws: seq<Wire>, tag: Tag) {
    Gapless(WireSeqs(ws, tag))
  }

  ghost predicate Sorted(ws: seq<Wire>) {
    && (forall i, j {:trigger OneKey(ws, i, j)} :: OneKey(ws, i, j))
    && (forall i, j, l {:trigger Unbroken(ws, i, j, l)} :: Unbroken(ws, i, j, l))
    && (forall tag {:trigger TagGapless(ws, tag)} :: TagGapless(ws, tag))
  }

  lemma WireSeqsMore(ws: seq<Wire>, w: Wire, tag: Tag)
    ensures WireSeqs(ws + [w], tag) == WireSeqs(ws, tag) + WireSeq(w, tag)
  {
    WireSeqsConcat(ws, [w], tag);
    assert WireSeqs([w], tag) == WireSeq(w, tag) by { assert [w][1..] == []; }
  }

  lemma TagInit(ws: seq<Wire>, w: Wire, tag: Tag)
    requires TagGapless(ws + [w], tag)
    ensures TagGapless(ws, tag)
    ensures w.Surface? && w.chunk.tag == tag ==> w.chunk.seqNo == |WireSeqs(ws, tag)|
  {
    WireSeqsMore(ws, w, tag);
    var q, r := WireSeqs(ws, tag), WireSeq(w, tag);
    GaplessPrefix(q, r);
    assert r != [] ==> (q + r)[|q|] == r[0];
  }

  lemma SortedInit(ws: seq<Wire>, w: Wire)
    requires Sorted(ws + [w])
    ensures Sorted(ws)
  {
    var all := ws + [w];
    forall i, j ensures OneKey(ws, i, j) { assert OneKey(all, i, j); }
    forall i, j, l ensures Unbroken(ws, i, j, l) { assert Unbroken(all, i, j, l); }
    forall tag ensures TagGapless(ws, tag) {
      assert TagGapless(all, tag);
      TagInit(ws, w, tag);
    }
  }

  /** The last chunk of a key, and that it is the last. */
  lemma {:induction false} LastMine(ws: seq<Wire>, key: Key) returns (j: nat)
    requires KeyChunks(ws, key) != []
    ensures j < |ws| && Mine(ws[j], key) && forall k :: j < k < |ws| ==> !Mine(ws[k], key)
    ensures var own := KeyChunks(ws, key); own[|own| - 1] == ws[j].chunk
  {
    if Mine(ws[|ws| - 1], key) {
      j := |ws| - 1;
    } else {
      j := LastMine(ws[..|ws| - 1], key);
    }
  }

  lemma {:induction false} TagSeen(ws: seq<Wire>, tag: Tag) returns (i: nat)
    requires WireSeqs(ws, tag) != []
    ensures i < |ws| && ws[i].Surface? && ws[i].chunk.tag == tag
  {
    if ws[0].Surface? && ws[0].chunk.tag == tag {
      i := 0;
    } else {
      var k := TagSeen(ws[1..], tag);
      i := k + 1;
    }
  }

  lemma {:induction false} MineIsOwn(ws: seq<Wire>, key: Key, i: nat)
    requires i < |ws| && Mine(ws[i], key)
    ensures KeyChunks(ws, key) != []
  {
    if i < |ws| - 1 { MineIsOwn(ws[..|ws| - 1], key, i); }
  }

  predicate Seen(ws: seq<Wire>, tag: Tag) {
    WireSeqs(ws, tag) != []
  }

  /** What is known of a key's chunks so far. */
  ghost predicate RunsSoFar(ws: seq<Wire>, own: seq<Chunk>) {
    && GaplessRuns(own)
    && (own != [] ==> |WireSeqs(ws, own[|own| - 1].tag)| == own[|own| - 1].seqNo + 1)
    && (forall q :: 0 <= q < |own| ==> Seen(ws, own[q].tag))
  }

  /** A chunk of a subscription seen before follows one of the same. */
  lemma FollowsOwn(ws: seq<Wire>, key: Key, x: Chunk)
    requires Sorted(ws + [Surface(x)]) && x.key == key && WireSeqs(ws, x.tag) != []
    ensures var own := KeyChunks(ws, key); own != [] && own[|own| - 1].tag == x.tag
  {
    var all, n := ws + [Surface(x)], |ws|;
    var i := TagSeen(ws, x.tag);
    assert OneKey(all, i, n);
    MineIsOwn(ws, key, i);
    var j := LastMine(ws, key);
    assert j >= i;
    assert Unbroken(all, i, j, n);
  }

  lemma SeenStays(ws: seq<Wire>, w: Wire, own: seq<Chunk>)
    requires forall q :: 0 <= q < |own| ==> Seen(ws, own[q].tag)
    ensures forall q :: 0 <= q < |own| ==> Seen(ws + [w], own[q].tag)
  {
    forall q | 0 <= q < |own| ensures Seen(ws + [w], own[q].tag) {
      WireSeqsMore(ws, w, own[q].tag);
      assert Seen(ws, own[q].tag);
    }
  }

  lemma RunsGrow(own: seq<Chunk>, x: Chunk)
    requires GaplessRuns(own)
    requires if x.seqNo == 0 then forall q :: 0 <= q < |own| ==> own[q].tag != x.tag
             else own != [] && own[|own| - 1].tag == x.tag && x.seqNo == own[|own| - 1].seqNo + 1
    ensures GaplessRuns(own + [x])
  {
    forall p | 0 <= p < |own + [x]| ensures NextInRun(own + [x], p) {
      if p < |own| { assert NextInRun(own, p); }
    }
  }

  lemma RunsAnother(ws: seq<Wire>, key: Key, x: Chunk)
    requires Sorted(ws + [Surface(x)]) && x.key == key && RunsSoFar(ws, KeyChunks(ws, key))
    ensures RunsSoFar(ws + [Surface(x)], KeyChunks(ws, key) + [x])
  {
    var all, own := ws + [Surface(x)], KeyChunks(ws, key);
    assert TagGapless(all, x.tag);
    TagInit(ws, Surface(x), x.tag);
    WireSeqsMore(ws, Surface(x), x.tag);
    SeenStays(ws, Surface(x), own);
    if x.seqNo == 0 {
      forall q | 0 <= q < |own| ensures own[q].tag != x.tag { assert Seen(ws, own[q].tag); }
    } else {
      FollowsOwn(ws, key, x);
    }
    RunsGrow(own, x);
    assert Seen(all, x.tag);
  }

  lemma RunsOther(ws: seq<Wire>, key: Key, w: Wire)
    requires Sorted(ws + [w]) && !Mine(w, key) && RunsSoFar(ws, KeyChunks(ws, key))
    ensures RunsSoFar(ws + [w], KeyChunks(ws, key))
  {
    var own := KeyChunks(ws, key);
    SeenStays(ws, w, own);
    if own != [] {
      var tag := own[|own| - 1].tag;
      var j := LastMine(ws, key);
      assert OneKey(ws + [w], j, |ws|);
      WireSeqsMore(ws, w, tag);
      assert WireSeq(w, tag) == [];
    }
  }

  lemma {:induction false} RunsOf(ws: seq<Wire>, key: Key)
    requires Sorted(ws)
    ensures RunsSoFar(ws, KeyChunks(ws, key))
  {
    if ws != [] {
      var init, w := ws[..|ws| - 1], ws[|ws| - 1];
      assert ws == init + [w];
      SortedInit(init, w);
      RunsOf(init, key);
      if Mine(w, key) {
        RunsAnother(init, key, w.chunk);
      } else {
        RunsOther(init, key, w);
        assert KeyChunks(init, key) + [] == KeyChunks(init, key);
      }
    }
  }

  lemma WrittenSorted(s: State, c: ConnId)
    requires Inv(s) && OrderInv(s) && c in s.conns
    requires forall tag :: TagGapless(s.conns[c].written, tag)
    ensures Sorted(s.conns[c].written)
  {
    var cc := s.conns[c];
    var ws, all := cc.written, Pipe(cc);
    assert ConnOk(s.streams, c, cc) && Ordered(s.subs, all);
    assert forall i :: 0 <= i < |ws| ==> ws[i] == all[i];
    forall i, j, l ensures Unbroken(ws, i, j, l) { assert Unbroken(all, i, j, l); }
    forall i: nat, j: nat ensures OneKey(ws, i, j) {
      if i < |ws| && j < |ws| { assert WireOk(s.streams, c, Pipe(cc)[i]) && WireOk(s.streams, c, Pipe(cc)[j]); }
    }
  }

  /**
   What a client gets on one key, however often it is severed and subscribed again:
   0, 1, 2, ... of one subscription, then 0, 1, 2, ... of the next, and never again
   a chunk of an earlier one.
   */
  lemma KeyGetsGaplessRuns(caps: Caps, steps: seq<Step>, c: ConnId, key: Key)
    requires Possible(caps, steps) && c in Run(caps, steps).conns
    ensures GaplessRuns(KeyChunks(Run(caps, steps).conns[c].written, key))
  {
    RunKeeps(caps, steps);
    RunOrdered(caps, steps);
    var s := Run(caps, steps);
    forall tag ensures TagGapless(s.conns[c].written, tag) { SeverNotDrop(caps, steps, c, tag); }
    WrittenSorted(s, c);
    RunsOf(s.conns[c].written, key);
  }
}
