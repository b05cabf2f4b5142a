/**
 The push relay for append-only files: a notifier marks files dirty, a sweeper
 reads what is new and broadcasts it, and a refused broadcast is retried
 (filerelay.go). Steps are the sections the two goroutines and the callers run
 atomically; `adding` is the mutex held by `add` between its Stat and its watch.
 */
module FileRelay {
  import opened Wrappers

  type Path = string
  type RecordId = nat

  /** `relayFile`, with where it began and what of it was accepted so far. */
  datatype Record = Record(path: Path, start: nat, offset: nat, dirty: bool, sent: string)

  /** Where the sweeper is: between files, holding content it read, or past the broadcast. */
  datatype Sweep =
    | Idle
    | Reading(id: RecordId, content: string, newOffset: nat)
    | Posted(id: RecordId, newOffset: nat, delivered: bool)

  /**
   `failed` are records whose last read failed with bytes to read; `missed` those
   whose file grew unwatched since their last successful read.
   */
  datatype State = State(
    disk: map<Path, string>, files: map<Path, RecordId>, records: map<RecordId, Record>,
    watching: set<Path>, notes: seq<Path>, adding: Option<Path>,
    todo: seq<RecordId>, sweep: Sweep, failed: set<RecordId>, missed: set<RecordId>)

  const INITIAL := State(map[], map[], map[], {}, [], None, [], Idle, {}, {})

  datatype Step =
    | Append(path: Path, data: string)
    | AddStat(path: Path, id: RecordId, statOk: bool, touched: bool)
    | AddWatch(ok: bool)
    | Unwatch(path: Path)
    | Notified
    | Collect(order: seq<RecordId>)
    | Read(ok: bool)
    | Broadcast(accepted: bool)
    | Commit

  function Content(disk: map<Path, string>, path: Path): string {
    if path in disk then disk[path] else ""
  }

  /** `readFrom` on a file that could be opened and read, with its truncation check. */
  function ReadFrom(content: string, offset: nat): (r: (string, nat))
    ensures offset <= |content| ==> r == (content[offset..], |content|)
    ensures r.0 == "" <==> |content| == offset || content == ""
  {
    var from := if |content| < offset then 0 else offset;
    if |content| == from then ("", from) else (content[from..], |content|)
  }

  predicate DirtyNow(s: State, id: RecordId) {
    id in s.records && s.records[id].path in s.files && s.files[s.records[id].path] == id && s.records[id].dirty
  }

  predicate Enabled(s: State, step: Step) {
    match step
    case Append(_, _) => true
    case AddStat(path, id, _, _) => s.adding.None? && path != "" && path !in s.files && id !in s.records
    case AddWatch(ok) => s.adding.Some? && (ok ==> s.adding.value in s.disk)
    case Unwatch(_) => s.adding.None?
    case Notified => s.adding.None? && s.notes != []
    case Collect(order) =>
      s.adding.None? && s.sweep.Idle? && s.todo == [] &&
      (forall id :: id in order ==> DirtyNow(s, id)) && (forall id | id in s.records :: DirtyNow(s, id) ==> id in order)
    case Read(_) => s.sweep.Idle? && s.todo != [] && s.todo[0] in s.records
    case Broadcast(_) => s.sweep.Reading? && s.sweep.id in s.records
    case Commit => s.adding.None? && s.sweep.Posted? && s.sweep.id in s.records
  }

  function SetRecord(s: State, id: RecordId, rec: Record): State {
    s.(records := s.records[id := rec])
  }

  function DoAppend(s: State, path: Path, data: string): State {
    var t := s.(disk := s.disk[path := Content(s.disk, path) + data]);
    if path in s.watching then t.(notes := s.notes + [path])
    else if data == "" then t
    else t.(missed := s.missed + (set id | id in s.records && s.records[id].path == path))
  }

  function DoAddStat(s: State, path: Path, id: RecordId, statOk: bool, touched: bool): State {
    var size := if statOk then |Content(s.disk, path)| else 0;
    var disk := if statOk && path !in s.disk && touched then s.disk[path := ""] else s.disk;
    s.(disk := disk, files := s.files[path := id], adding := Some(path),
       records := s.records[id := Record(path, size, size, false, "")],
       missed := if size < |Content(s.disk, path)| then s.missed + {id} else s.missed)
  }

  function DoRead(s: State, ok: bool): State
    requires s.todo != [] && s.todo[0] in s.records
  {
    var id := s.todo[0];
    var rec := s.records[id];
    var rest := s.(todo := s.todo[1..]);
    if !ok || rec.path !in s.disk then
      if rec.offset < |Content(s.disk, rec.path)| then rest.(failed := s.failed + {id}) else rest
    else
      var (content, newOffset) := ReadFrom(s.disk[rec.path], rec.offset);
      var clear := rest.(failed := s.failed - {id}, missed := s.missed - {id});
      if content == "" then clear else clear.(sweep := Reading(id, content, newOffset))
  }

  function Next(s: State, step: Step): State
    requires Enabled(s, step)
  {
    match step
    case Append(path, data) => DoAppend(s, path, data)
    case AddStat(path, id, statOk, touched) => DoAddStat(s, path, id, statOk, touched)
    case AddWatch(ok) =>
      s.(adding := None, watching := if ok then s.watching + {s.adding.value} else s.watching)
    case Unwatch(path) => s.(files := s.files - {path}, watching := s.watching - {path})
    case Notified =>
      var t := s.(notes := s.notes[1..]);
      if s.notes[0] in s.files && s.files[s.notes[0]] in s.records
      then SetRecord(t, s.files[s.notes[0]], s.records[s.files[s.notes[0]]].(dirty := true)) else t
    case Collect(order) =>
      s.(todo := order,
         records := map id | id in s.records :: if id in order then s.records[id].(dirty := false) else s.records[id])
    case Read(ok) => DoRead(s, ok)
    case Broadcast(accepted) =>
      var w := s.sweep;
      var rec := s.records[w.id];
      SetRecord(s, w.id, if accepted then rec.(sent := rec.sent + w.content) else rec)
        .(sweep := Posted(w.id, w.newOffset, accepted))
    case Commit =>
      var w := s.sweep;
      var rec := s.records[w.id];
      SetRecord(s, w.id, if w.delivered then rec.(offset := w.newOffset) else rec.(dirty := true)).(sweep := Idle)
  }

  predicate Possible(steps: seq<Step>) {
    steps == [] || (Possible(steps[..|steps| - 1]) && Enabled(Run(steps[..|steps| - 1]), steps[|steps| - 1]))
  }

  function Run(steps: seq<Step>): State {
    if steps == [] || !Enabled(Run(steps[..|steps| - 1]), steps[|steps| - 1]) then INITIAL
    else Next(Run(steps[..|steps| - 1]), steps[|steps| - 1])
  }

  // -------------------------------------------------------------- invariant

  predicate Live(s: State, id: RecordId) {
    id in s.records && s.records[id].path in s.files && s.files[s.records[id].path] == id
  }

  /** How far the record has been handed out: an accepted broadcast counts before its commit. */
  function SentTo(s: State, id: RecordId): nat
    requires id in s.records
  {
    if s.sweep.Posted? && s.sweep.id == id && s.sweep.delivered then s.sweep.newOffset else s.records[id].offset
  }

  /** How far the record has been read or will be known to need reading again. */
  function ReadTo(s: State, id: RecordId): nat
    requires id in s.records
  {
    if !s.sweep.Idle? && s.sweep.id == id then s.sweep.newOffset else s.records[id].offset
  }

  predicate Delivered(s: State, id: RecordId) {
    id in s.records ==>
      var rec, all := s.records[id], Content(s.disk, s.records[id].path);
      rec.start <= rec.offset <= SentTo(s, id) <= ReadTo(s, id) <= |all| && rec.sent == all[rec.start..SentTo(s, id)]
  }

  predicate Woken(s: State, id: RecordId)
    requires id in s.records
  {
    s.records[id].dirty || s.records[id].path in s.notes || id in s.todo
  }

  predicate Covered(s: State, id: RecordId) {
    id in s.records ==>
      && (Live(s, id) && ReadTo(s, id) < |Content(s.disk, s.records[id].path)| ==>
            Woken(s, id) || id in s.failed || id in s.missed)
      && (id in s.failed || id in s.missed ==> ReadTo(s, id) < |Content(s.disk, s.records[id].path)|)
  }

  predicate FileOk(s: State, path: Path) {
    path in s.files ==> s.files[path] in s.records && s.records[s.files[path]].path == path
  }

  predicate ReadingOk(s: State, w: Sweep)
    requires w.Reading? && w.id in s.records
  {
    var rec, all := s.records[w.id], Content(s.disk, s.records[w.id].path);
    rec.offset < w.newOffset <= |all| && w.content == all[rec.offset..w.newOffset]
  }

  ghost predicate Shape(s: State) {
    && (forall p {:trigger FileOk(s, p)} :: FileOk(s, p))
    && (s.sweep.Reading? ==> s.sweep.id in s.records && ReadingOk(s, s.sweep))
    && (s.sweep.Posted? ==> s.sweep.id in s.records && s.records[s.sweep.id].offset < s.sweep.newOffset)
    && (forall i :: 0 <= i < |s.todo| ==> s.todo[i] in s.records)
    && (forall id :: id in s.failed || id in s.missed ==> id in s.records)
  }

  ghost predicate Inv(s: State) {
    && Shape(s)
    && (forall id {:trigger Delivered(s, id)} :: Delivered(s, id))
    && (forall id {:trigger Covered(s, id)} :: Covered(s, id))
  }

  /** What was read or sent of a file is still there after it grew. */
  lemma GrownKeepsDelivered(s: State, t: State, id: RecordId)
    requires Delivered(s, id) && t.records == s.records && t.sweep == s.sweep
    requires id in s.records ==> Content(s.disk, s.records[id].path) <= Content(t.disk, s.records[id].path)
    ensures Delivered(t, id)
  {
  }

  lemma GrownKeepsReading(s: State, t: State)
    requires s.sweep.Reading? && s.sweep.id in s.records && ReadingOk(s, s.sweep) && t.records == s.records
    requires Content(s.disk, s.records[s.sweep.id].path) <= Content(t.disk, s.records[s.sweep.id].path)
    ensures ReadingOk(t, s.sweep)
  {
  }

  lemma AppendKeeps(s: State, path: Path, data: string)
    requires Inv(s)
    ensures Inv(DoAppend(s, path, data))
  {
    var t := DoAppend(s, path, data);
    forall p ensures Content(s.disk, p) <= Content(t.disk, p) {}
    forall p ensures FileOk(t, p) { assert FileOk(s, p); }
    forall id ensures Delivered(t, id) {
      assert Delivered(s, id);
      GrownKeepsDelivered(s, t, id);
    }
    AppendCovers(s, path, data);
    if s.sweep.Reading? { GrownKeepsReading(s, t); }
  }

  lemma AppendCovers(s: State, path: Path, data: string)
    requires Inv(s)
    ensures var t := DoAppend(s, path, data); forall id {:trigger Covered(t, id)} :: Covered(t, id)
  {
    var t := DoAppend(s, path, data);
    forall id ensures Covered(t, id) { assert Covered(s, id) && Delivered(s, id); }
  }

  lemma AddStatKeeps(s: State, path: Path, id: RecordId, statOk: bool, touched: bool)
    requires Inv(s) && Enabled(s, AddStat(path, id, statOk, touched))
    ensures Inv(DoAddStat(s, path, id, statOk, touched))
  {
    var t := DoAddStat(s, path, id, statOk, touched);
    forall p ensures FileOk(t, p) { assert FileOk(s, p); }
    forall i ensures Delivered(t, i) { assert Delivered(s, i); }
    forall i ensures Covered(t, i) { assert Covered(s, i); }
  }

  lemma QuietKeeps(s: State, t: State)
    requires Inv(s) && t == s.(files := t.files, watching := t.watching, adding := t.adding)
    requires forall p :: p in t.files ==> p in s.files && t.files[p] == s.files[p]
    ensures Inv(t)
  {
    forall p ensures FileOk(t, p) { assert FileOk(s, p); }
    forall id ensures Delivered(t, id) { assert Delivered(s, id); }
    forall id ensures Covered(t, id) { assert Covered(s, id); }
  }

  lemma NotifiedKeeps(s: State)
    requires Inv(s) && Enabled(s, Notified)
    ensures Inv(Next(s, Notified))
  {
    var t := Next(s, Notified);
    assert s.notes == [s.notes[0]] + s.notes[1..];
    assert FileOk(s, s.notes[0]);
    forall p ensures FileOk(t, p) { assert FileOk(s, p); }
    forall id ensures Delivered(t, id) { assert Delivered(s, id); }
    forall id ensures Covered(t, id) { assert Covered(s, id); }
  }

  lemma CollectKeeps(s: State, order: seq<RecordId>)
    requires Inv(s) && Enabled(s, Collect(order))
    ensures Inv(Next(s, Collect(order)))
  {
    var t := Next(s, Collect(order));
    forall p ensures FileOk(t, p) { assert FileOk(s, p); }
    forall id ensures Delivered(t, id) { assert Delivered(s, id); }
    forall id ensures Covered(t, id) {
      assert Covered(s, id);
      assert DirtyNow(s, id) ==> id in order;
    }
    forall i | 0 <= i < |order| ensures order[i] in t.records { assert DirtyNow(s, order[i]); }
  }

  lemma ReadKeeps(s: State, ok: bool)
    requires Inv(s) && Enabled(s, Read(ok))
    ensures Inv(DoRead(s, ok))
  {
    var t, id := DoRead(s, ok), s.todo[0];
    assert s.todo == [id] + s.todo[1..];
    assert Delivered(s, id) && Covered(s, id);
    forall p ensures FileOk(t, p) { assert FileOk(s, p); }
    forall i ensures Delivered(t, i) { assert Delivered(s, i); }
    forall i ensures Covered(t, i) { assert Covered(s, i); }
  }

  lemma BroadcastKeeps(s: State, accepted: bool)
    requires Inv(s) && Enabled(s, Broadcast(accepted))
    ensures Inv(Next(s, Broadcast(accepted)))
  {
    var t, id := Next(s, Broadcast(accepted)), s.sweep.id;
    assert Delivered(s, id);
    forall p ensures FileOk(t, p) { assert FileOk(s, p); }
    forall i ensures Delivered(t, i) { assert Delivered(s, i); }
    forall i ensures Covered(t, i) { assert Covered(s, i); }
  }

  lemma CommitKeeps(s: State)
    requires Inv(s) && Enabled(s, Commit)
    ensures Inv(Next(s, Commit))
  {
    var t, id := Next(s, Commit), s.sweep.id;
    assert Delivered(s, id);
    forall p ensures FileOk(t, p) { assert FileOk(s, p); }
    forall i ensures Delivered(t, i) { assert Delivered(s, i); }
    forall i ensures Covered(t, i) { assert Covered(s, i); }
  }

  lemma NextKeeps(s: State, step: Step)
    requires Inv(s) && Enabled(s, step)
    ensures Inv(Next(s, step))
  {
    match step
    case Append(path, data) => AppendKeeps(s, path, data);
    case AddStat(path, id, statOk, touched) => AddStatKeeps(s, path, id, statOk, touched);
    case AddWatch(_) => QuietKeeps(s, Next(s, step));
    case Unwatch(_) => QuietKeeps(s, Next(s, step));
    case Notified => NotifiedKeeps(s);
    case Collect(order) => CollectKeeps(s, order);
    case Read(ok) => ReadKeeps(s, ok);
    case Broadcast(accepted) => BroadcastKeeps(s, accepted);
    case Commit => CommitKeeps(s);
  }

  lemma {:induction false} RunKeeps(steps: seq<Step>)
    requires Possible(steps)
    ensures Inv(Run(steps))
  {
    if steps != [] {
      RunKeeps(steps[..|steps| - 1]);
      NextKeeps(Run(steps[..|steps| - 1]), steps[|steps| - 1]);
    }
  }

  // ----------------------------------------------------------------- theorems

  /**
   For every interleaving and every pattern of refused broadcasts, what was
   accepted of a file is the file from where the relay began to where it stands:
   nothing lost, repeated or reordered.
   */
  lemma DeliveredExactly(steps: seq<Step>, id: RecordId)
    requires Possible(steps) && id in Run(steps).records
    ensures var s := Run(steps);
            var rec, all := s.records[id], Content(s.disk, s.records[id].path);
            && rec.start <= SentTo(s, id) <= |all| && rec.sent == all[rec.start..SentTo(s, id)]
            && (s.sweep.Idle? ==> rec.sent == all[rec.start..rec.offset])
  {
    RunKeeps(steps);
    assert Delivered(Run(steps), id);
  }

  /**
   No lost wake-up: unread bytes of a watched file mean that it is dirty, has a
   notification pending, or is held by the running sweep, unless its last read
   failed or it grew while nothing was watching.
   */
  lemma NoLostWakeUp(steps: seq<Step>, id: RecordId)
    requires Possible(steps) && Live(Run(steps), id)
    requires var s := Run(steps); s.records[id].offset < |Content(s.disk, s.records[id].path)|
    ensures var s := Run(steps);
            || s.records[id].dirty || s.records[id].path in s.notes
            || id in s.todo || (!s.sweep.Idle? && s.sweep.id == id)
            || id in s.failed || id in s.missed
  {
    RunKeeps(steps);
    assert Covered(Run(steps), id);
  }

  /** Nothing is going to look at the record again. */
  predicate Asleep(s: State, id: RecordId)
    requires id in s.records
  {
    !Woken(s, id) && s.sweep.Idle?
  }

  /** A sleeping record has unread bytes exactly when its last read failed or it grew unwatched since. */
  lemma AsleepUnreadIff(steps: seq<Step>, id: RecordId)
    requires Possible(steps) && Live(Run(steps), id) && Asleep(Run(steps), id)
    ensures var s := Run(steps);
            s.records[id].offset < |Content(s.disk, s.records[id].path)| <==> id in s.failed || id in s.missed
  {
    RunKeeps(steps);
    assert Covered(Run(steps), id);
  }

  lemma RunSnoc(steps: seq<Step>, step: Step)
    requires Possible(steps) && Enabled(Run(steps), step)
    ensures Possible(steps + [step]) && Run(steps + [step]) == Next(Run(steps), step)
  {
    var all := steps + [step];
    var init, last := all[..|all| - 1], all[|all| - 1];
    assert init == steps && last == step;
    assert Possible(all) == (Possible(init) && Enabled(Run(init), last));
  }

  /** Bytes appended between the Stat and the watch are not noticed. */
  lemma AppendedBeforeWatch(data: string) returns (steps: seq<Step>)
    requires data != ""
    ensures Possible(steps) && Live(Run(steps), 0) && Asleep(Run(steps), 0)
    ensures "f" in Run(steps).watching
    ensures Content(Run(steps).disk, "f") == data && Run(steps).records[0].offset == 0
  {
    RunSnoc([], AddStat("f", 0, true, true));
    var one := [] + [AddStat("f", 0, true, true)];
    RunSnoc(one, Append("f", data));
    RunSnoc(one + [Append("f", data)], AddWatch(true));
    steps := one + [Append("f", data)] + [AddWatch(true)];
  }

  lemma MarkedDirty(data: string) returns (steps: seq<Step>)
    ensures Possible(steps)
    ensures Run(steps) == State(map["f" := data], map["f" := 0], map[0 := Record("f", 0, 0, true, "")],
                                {"f"}, [], None, [], Idle, {}, {})
  {
    var one := [] + [AddStat("f", 0, true, true)];
    var two := one + [AddWatch(true)];
    var three := two + [Append("f", data)];
    RunSnoc([], AddStat("f", 0, true, true));
    RunSnoc(one, AddWatch(true));
    RunSnoc(two, Append("f", data));
    assert "" + data == data && {} + {"f"} == {"f"};
    assert Run(three).disk == map["f" := data] && Run(three).notes == ["f"] && ["f"][1..] == [];
    RunSnoc(three, Notified);
    steps := three + [Notified];
  }

  /** A failed read clears the dirty flag for good. */
  lemma FailedReadForgets(data: string) returns (steps: seq<Step>)
    requires data != ""
    ensures Possible(steps) && Live(Run(steps), 0) && Asleep(Run(steps), 0)
    ensures Run(steps).missed == {} && Content(Run(steps).disk, "f") == data && Run(steps).records[0].offset == 0
  {
    var dirty := MarkedDirty(data);
    RunSnoc(dirty, Collect([0]));
    RunSnoc(dirty + [Collect([0])], Read(false));
    steps := dirty + [Collect([0])] + [Read(false)];
  }
}
