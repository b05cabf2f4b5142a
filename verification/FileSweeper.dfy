/**
 The relay's records, which are shared objects updated in place (filerelay.go).
 Each method is one atomic section and one step of FileRelay, so the theorems there
 hold of any interleaving of calls with the files' growth; `Sweep` is one whole
 sweep as a run of such steps.
 */
module FileSweeper {
  import opened Chains
  import opened FileRelay

  class RelayFile {
    ghost const id: RecordId
    const path: Path
    var offset: nat
    var dirty: bool

    constructor (ghost i: RecordId, p: Path, from: nat)
      ensures id == i && path == p && offset == from && !dirty
    {
      id, path, offset, dirty := i, p, from, false;
    }
  }

  ghost function Ids(fs: seq<RelayFile>): seq<RecordId> {
    seq(|fs|, i requires 0 <= i < |fs| => fs[i].id)
  }

  class Relay {
    var files: map<Path, RelayFile>
    /** Every record ever made; a sweep may still hold one that was unwatched. */
    ghost var known: set<RelayFile>
    ghost var model: State

    ghost predicate Mirrors(f: RelayFile)
      reads this, f
    {
      && f.id in model.records
      && model.records[f.id].path == f.path
      && model.records[f.id].offset == f.offset
      && model.records[f.id].dirty == f.dirty
    }

    ghost predicate Valid()
      reads this, known
    {
      && files.Keys == model.files.Keys
      && (forall p :: p in files ==> files[p] in known && files[p].path == p && model.files[p] == files[p].id)
      && (forall f :: f in known ==> Mirrors(f))
      && (forall f, g :: f in known && g in known && f.id == g.id ==> f == g)
    }

    constructor ()
      ensures Valid() && model == INITIAL && model == Run([])
    {
      files, known, model := map[], {}, INITIAL;
    }

    /** The file system's turn: a file grows, and is notified of if it is watched. */
    ghost method Grow(path: Path, data: string)
      requires Valid()
      modifies this`model
      ensures Valid() && model == Next(old(model), Append(path, data))
    {
      model := DoAppend(model, path, data);
    }

    /** `add` up to its watch, with the size its Stat saw. */
    method Add(ghost id: RecordId, path: Path, size: nat, ghost statOk: bool, ghost touched: bool)
      requires Valid() && model.adding.None? && id !in model.records
      requires size == if statOk then |Content(model.disk, path)| else 0
      modifies this
      ensures Valid()
      ensures if path == "" || path in old(files) then files == old(files) && model == old(model)
              else Enabled(old(model), AddStat(path, id, statOk, touched)) &&
                   model == Next(old(model), AddStat(path, id, statOk, touched))
    {
      if path == "" || path in files { return; }
      var f := new RelayFile(id, path, size);
      Enter(f, DoAddStat(model, path, id, statOk, touched));
    }

    /** A new record, where the model has one too. */
    method Enter(f: RelayFile, ghost next: State)
      requires Valid() && f !in known && f.id !in model.records && f.path !in files
      requires next.files == model.files[f.path := f.id] && f.id in next.records
      requires next.records == model.records[f.id := next.records[f.id]]
      requires var r := next.records[f.id]; r.path == f.path && r.offset == f.offset && r.dirty == f.dirty
      modifies this
      ensures Valid() && model == next
    {
      files := files[f.path := f];
      known := known + {f};
      model := next;
    }

    /** The watch at the end of `add`. */
    ghost method Watch(ok: bool)
      requires Valid() && Enabled(model, AddWatch(ok))
      modifies this`model
      ensures Valid() && model == Next(old(model), AddWatch(ok))
    {
      model := Next(model, AddWatch(ok));
    }

    /** `Unwatch`. */
    method Unwatch(path: Path)
      requires Valid() && model.adding.None?
      modifies this`files, this`model
      ensures Valid() && model == Next(old(model), FileRelay.Unwatch(path))
    {
      files := files - {path};
      model := Next(model, FileRelay.Unwatch(path));
    }

    /** One event of `watchLoop`. */
    method MarkDirty(path: Path)
      requires Valid() && Enabled(model, Notified) && model.notes[0] == path
      modifies this`model, files.Values
      ensures Valid() && model == Next(old(model), Notified)
    {
      ghost var before := model;
      if path in files {
        files[path].dirty := true;
      }
      model := Next(before, Notified);
    }

    /** The locked half of `sweep`: take the dirty files, clearing their flags. */
    method Collect() returns (taken: seq<RelayFile>)
      requires Valid() && model.adding.None? && model.sweep.Idle? && model.todo == []
      modifies this`model, files.Values
      ensures Valid() && Enabled(old(model), FileRelay.Collect(Ids(taken)))
      ensures model == Next(old(model), FileRelay.Collect(Ids(taken)))
      ensures forall f :: f in taken ==> f in known
      ensures forall i, j :: 0 <= i < j < |taken| ==> taken[i] != taken[j]
    {
      taken := Take();
      CollectEnabled(taken);
      Cleared(taken);
    }

    ghost method Cleared(taken: seq<RelayFile>)
      requires Enabled(model, FileRelay.Collect(Ids(taken))) && files.Keys == model.files.Keys
      requires forall p :: p in files ==> files[p] in known && files[p].path == p && model.files[p] == files[p].id
      requires forall f, g :: f in known && g in known && f.id == g.id ==> f == g
      requires forall f :: f in known ==>
                 f.id in model.records && model.records[f.id].path == f.path && model.records[f.id].offset == f.offset
      requires forall f :: f in known ==> f.dirty == if f.id in Ids(taken) then false else model.records[f.id].dirty
      modifies this`model
      ensures Valid() && model == Next(old(model), FileRelay.Collect(Ids(taken)))
    {
      model := Next(model, FileRelay.Collect(Ids(taken)));
    }

    /** What a sweep takes are the files that are dirty now, all of them. */
    lemma CollectEnabled(taken: seq<RelayFile>)
      requires model.adding.None? && model.sweep.Idle? && model.todo == [] && files.Keys == model.files.Keys
      requires forall p :: p in files ==> files[p].path == p && model.files[p] == files[p].id
      requires forall f :: f in taken ==>
                 f.path in files && files[f.path] == f && f.id in model.records &&
                 model.records[f.id].path == f.path && model.records[f.id].dirty
      requires forall p :: p in files && files[p].id in model.records && model.records[files[p].id].dirty ==>
                 files[p] in taken
      ensures Enabled(model, FileRelay.Collect(Ids(taken)))
      ensures forall f :: f in taken ==> f.id in Ids(taken)
      ensures forall id :: id in Ids(taken) ==> exists k :: 0 <= k < |taken| && taken[k].id == id
    {
      var order := Ids(taken);
      forall f | f in taken ensures f.id in order {
        var k :| 0 <= k < |taken| && taken[k] == f;
        assert order[k] == f.id;
      }
      forall id | id in order ensures DirtyNow(model, id) {
        var k :| 0 <= k < |order| && order[k] == id;
        assert taken[k] in taken;
      }
      forall id | id in model.records && DirtyNow(model, id) ensures id in order {
        assert files[model.records[id].path].id == id;
      }
    }

    /** The loop of `Collect`, in whatever order the map gives its entries. */
    method Take() returns (taken: seq<RelayFile>)
      requires Valid()
      modifies files.Values
      ensures forall f :: f in known ==> f.id in model.records && f.offset == old(f.offset)
      ensures forall f :: f in taken ==> f.path in files && files[f.path] == f && old(f.dirty) && !f.dirty
      ensures forall f :: f in known && f !in taken ==> f.dirty == old(f.dirty)
      ensures forall p :: p in files && old(files[p].dirty) ==> files[p] in taken
      ensures forall f :: f in known ==> model.records[f.id].dirty == old(f.dirty)
      ensures forall i, j :: 0 <= i < j < |taken| ==> taken[i] != taken[j]
    {
      var rest := files.Keys;
      taken := [];
      while rest != {}
        invariant rest <= files.Keys
        invariant forall f :: f in known ==> f.offset == old(f.offset)
        invariant forall f :: f in taken ==>
                    f.path in files && f.path !in rest && files[f.path] == f && old(f.dirty) && !f.dirty
        invariant forall f :: f in known && f !in taken ==> f.dirty == old(f.dirty)
        invariant forall p :: p in files && p !in rest && old(files[p].dirty) ==> files[p] in taken
        invariant forall i, j :: 0 <= i < j < |taken| ==> taken[i] != taken[j]
        decreases rest
      {
        var p :| p in rest;
        var f := files[p];
        if f.dirty {
          f.dirty := false;
          taken := taken + [f];
        }
        rest := rest - {p};
      }
    }

    /** `readFrom` for the next file of the sweep, which may grow before and after. */
    method ReadNext(f: RelayFile, readable: bool, text: string) returns (content: string, newOffset: nat)
      requires Valid() && f in known && model.sweep.Idle? && model.todo != [] && model.todo[0] == f.id
      requires text == Content(model.disk, f.path) && (readable ==> f.path in model.disk)
      modifies this`model
      ensures Valid() && model == Next(old(model), Read(readable))
      ensures content != "" ==> model.sweep == Reading(f.id, content, newOffset)
      ensures content == "" ==> model.sweep.Idle?
    {
      content, newOffset := "", f.offset;
      if readable {
        var (read, to) := ReadFrom(text, f.offset);
        content, newOffset := read, to;
      }
      model := DoRead(model, readable);
    }

    /** `broadcast`: the lane takes the content or refuses it. */
    ghost method Post(accepted: bool)
      requires Valid() && Enabled(model, Broadcast(accepted))
      modifies this`model
      ensures Valid() && model == Next(old(model), Broadcast(accepted))
    {
      model := Next(model, Broadcast(accepted));
    }

    /** The locked end of a file's turn: advance on an accepted broadcast, re-arm on a refused one. */
    method Settle(f: RelayFile, newOffset: nat, delivered: bool)
      requires Valid() && f in known && model.adding.None? && model.sweep == Posted(f.id, newOffset, delivered)
      modifies this`model, f
      ensures Valid() && Enabled(old(model), Commit) && model == Next(old(model), Commit)
    {
      ghost var before := model;
      if delivered { f.offset := newOffset; } else { f.dirty := true; }
      model := Next(before, Commit);
    }

    /** The second half of a file's turn. */
    method Send(f: RelayFile, content: string, newOffset: nat, accepted: bool)
      requires Valid() && f in known && model.adding.None? && model.sweep == Reading(f.id, content, newOffset)
      modifies this`model, f
      ensures Valid() && Steps(old(model), [Broadcast(accepted), Commit], model)
      ensures model == Sent(old(model), accepted)
    {
      SentIs(model, accepted);
      Post(accepted);
      ChainOne(StepTo, old(model), Broadcast(accepted), model);
      label posted:
      Settle(f, newOffset, accepted);
      ChainMore(StepTo, old(model), [Broadcast(accepted)], old@posted(model), Commit, model);
      assert [Broadcast(accepted)] + [Commit] == [Broadcast(accepted), Commit];
    }

    /** What a read leaves alone, and what it has to send. */
    lemma ReadIs(s: State, f: RelayFile, readable: bool, text: string)
      requires s.sweep.Idle? && s.todo != [] && s.todo[0] == f.id && f.id in s.records && s.records[f.id].path == f.path
      requires text == Content(s.disk, f.path) && (readable ==> f.path in s.disk)
      ensures var t, r := DoRead(s, readable), s.records[f.id];
              && t.records == s.records && t.disk == s.disk && t.adding == s.adding && t.todo == s.todo[1..]
              && (t.sweep.Idle? ==> s.records == s.records[f.id := Turned(r, readable, text, true)] &&
                                    s.records == s.records[f.id := Turned(r, readable, text, false)])
              && (t.sweep.Reading? ==> forall accepted ::
                    Sent(t, accepted).records == s.records[f.id := Turned(r, readable, text, accepted)])
    {
      assert s.records == s.records[f.id := s.records[f.id]];
    }

    /** One file's turn with nothing in between: its read, and its broadcast if there was something to send. */
    method Deliver(f: RelayFile, readable: bool, text: string, accepted: bool) returns (ghost steps: seq<Step>)
      requires Valid() && f in known && model.adding.None?
      requires model.sweep.Idle? && model.todo != [] && model.todo[0] == f.id
      requires text == Content(model.disk, f.path) && (readable ==> f.path in model.disk)
      modifies this`model, f
      ensures Valid() && Steps(old(model), steps, model)
      ensures model.sweep.Idle? && model.adding.None? && model.disk == old(model).disk
      ensures model.todo == old(model).todo[1..]
      ensures model.records == old(model).records[f.id := Turned(old(model).records[f.id], readable, text, accepted)]
    {
      ReadIs(model, f, readable, text);
      var content, newOffset := ReadNext(f, readable, text);
      steps := [Read(readable)];
      ChainOne(StepTo, old(model), Read(readable), model);
      if content == "" { return; }
      label read:
      Send(f, content, newOffset, accepted);
      ChainConcat(StepTo, old(model), steps, old@read(model), [Broadcast(accepted), Commit], model);
      steps := steps + [Broadcast(accepted), Commit];
    }

    /**
     A whole sweep with nothing in between is a run of the protocol, in which every
     dirty file gets one turn: what is unread is sent from its offset on; accepted, the
     file is read to its end and clean; refused, it is as it was.
     */
    method Sweep(disk: map<Path, string>, opens: Path -> bool, accepts: Path -> bool) returns (ghost steps: seq<Step>)
      requires Valid() && model.adding.None? && model.sweep.Idle? && model.todo == [] && disk == model.disk
      modifies this`model, known
      ensures Valid() && Steps(old(model), steps, model)
      ensures model.sweep.Idle? && model.todo == []
      ensures Swept(old(model), model, disk, opens, accepts)
    {
      var taken := Collect();
      ghost var cleared := model;
      steps := [FileRelay.Collect(Ids(taken))];
      ChainOne(StepTo, old(model), FileRelay.Collect(Ids(taken)), model);
      for i := 0 to |taken|
        invariant Valid() && known == old(known)
        invariant Steps(old(model), steps, model)
        invariant model.sweep.Idle? && model.adding.None? && model.disk == disk && model.todo == Ids(taken[i..])
        invariant TurnsDone(cleared, model, Ids(taken[..i]), disk, opens, accepts)
      {
        label turn:
        ghost var more := SweepTurn(taken, i, cleared, disk, opens, accepts);
        ChainConcat(StepTo, old(model), steps, old@turn(model), more, model);
        steps := steps + more;
      }
      assert taken[..|taken|] == taken;
      AllSwept(old(model), cleared, model, Ids(taken), disk, opens, accepts);
    }

    method SweepTurn(taken: seq<RelayFile>, i: nat, ghost cleared: State,
                     disk: map<Path, string>, opens: Path -> bool, accepts: Path -> bool)
      returns (ghost more: seq<Step>)
      requires Valid() && i < |taken| && (forall f :: f in taken ==> f in known)
      requires forall a, b :: 0 <= a < b < |taken| ==> taken[a] != taken[b]
      requires model.sweep.Idle? && model.adding.None? && model.disk == disk && model.todo == Ids(taken[i..])
      requires TurnsDone(cleared, model, Ids(taken[..i]), disk, opens, accepts)
      modifies this`model, taken[i]
      ensures Valid() && Steps(old(model), more, model)
      ensures model.sweep.Idle? && model.adding.None? && model.disk == disk && model.todo == Ids(taken[i + 1..])
      ensures TurnsDone(cleared, model, Ids(taken[..i + 1]), disk, opens, accepts)
    {
      var f := taken[i];
      assert f in taken && Ids(taken[i..])[1..] == Ids(taken[i + 1..]);
      NotYet(taken, i);
      var text := if f.path in disk then disk[f.path] else "";
      more := Deliver(f, opens(f.path) && f.path in disk, text, accepts(f.path));
      assert Ids(taken[..i + 1]) == Ids(taken[..i]) + [f.id];
      TurnDone(cleared, old(model), model, Ids(taken[..i]), f.id, disk, opens, accepts);
    }

    lemma NotYet(taken: seq<RelayFile>, i: nat)
      requires i < |taken| && (forall f :: f in taken ==> f in known)
      requires forall a, b :: 0 <= a < b < |taken| ==> taken[a] != taken[b]
      requires forall f, g :: f in known && g in known && f.id == g.id ==> f == g
      ensures taken[i].id !in Ids(taken[..i])
    {
    }
  }

  /** A file's content sent or refused. */
  function Sent(s: State, accepted: bool): State
    requires s.sweep.Reading? && s.sweep.id in s.records
  {
    var r := s.records[s.sweep.id];
    s.(sweep := Idle, records := s.records[s.sweep.id :=
         if accepted then r.(sent := r.sent + s.sweep.content, offset := s.sweep.newOffset) else r.(dirty := true)])
  }

  lemma SentIs(s: State, accepted: bool)
    requires Enabled(s, Broadcast(accepted)) && s.adding.None?
    ensures var t := Next(s, Broadcast(accepted)); Enabled(t, Commit) && Next(t, Commit) == Sent(s, accepted)
  {
  }

  /** A clean record after its turn. */
  function Turned(r: Record, readable: bool, text: string, accepted: bool): Record {
    var (content, newOffset) := if readable then ReadFrom(text, r.offset) else ("", r.offset);
    if content == "" then r
    else if accepted then r.(sent := r.sent + content, offset := newOffset)
    else r.(dirty := true)
  }

  function TurnOf(r: Record, disk: map<Path, string>, opens: Path -> bool, accepts: Path -> bool): Record {
    Turned(r, opens(r.path) && r.path in disk, Content(disk, r.path), accepts(r.path))
  }

  /** Every record that was dirty and watched has had its turn, and no other has changed. */
  ghost predicate Swept(s: State, t: State, disk: map<Path, string>, opens: Path -> bool, accepts: Path -> bool) {
    && t.records.Keys == s.records.Keys
    && forall id :: id in s.records ==>
         t.records[id] == if DirtyNow(s, id) then TurnOf(s.records[id].(dirty := false), disk, opens, accepts)
                          else s.records[id]
  }

  ghost predicate TurnsDone(
    s: State, t: State, ids: seq<RecordId>, disk: map<Path, string>, opens: Path -> bool, accepts: Path -> bool)
  {
    && t.records.Keys == s.records.Keys
    && forall id :: id in s.records ==>
         t.records[id] == if id in ids then TurnOf(s.records[id], disk, opens, accepts) else s.records[id]
  }

  lemma TurnDone(s: State, t: State, u: State, ids: seq<RecordId>, id: RecordId,
                 disk: map<Path, string>, opens: Path -> bool, accepts: Path -> bool)
    requires TurnsDone(s, t, ids, disk, opens, accepts) && id in s.records && id !in ids
    requires u.records == t.records[id := TurnOf(t.records[id], disk, opens, accepts)]
    ensures TurnsDone(s, u, ids + [id], disk, opens, accepts)
  {
  }

  lemma AllSwept(s: State, cleared: State, t: State, ids: seq<RecordId>,
                 disk: map<Path, string>, opens: Path -> bool, accepts: Path -> bool)
    requires Enabled(s, FileRelay.Collect(ids)) && cleared == Next(s, FileRelay.Collect(ids))
    requires TurnsDone(cleared, t, ids, disk, opens, accepts)
    ensures Swept(s, t, disk, opens, accepts)
  {
  }

  predicate StepTo(s: State, step: Step, t: State) {
    Enabled(s, step) && Next(s, step) == t
  }

  /** `steps` are possible one after the other from `s` and lead to `t`. */
  ghost predicate Steps(s: State, steps: seq<Step>, t: State) {
    Chain(StepTo, s, steps, t)
  }

  /** A sweep that begins where a run of the relay is, is itself part of a run. */
  lemma StepsRun(run: seq<Step>, steps: seq<Step>, t: State)
    requires Possible(run) && Steps(Run(run), steps, t)
    ensures Possible(run + steps) && Run(run + steps) == t
  {
    forall before, step, u | Possible(before) && StepTo(Run(before), step, u)
      ensures Possible(before + [step]) && Run(before + [step]) == u
    {
      RunSnoc(before, step);
    }
    ChainRuns(StepTo, Possible, Run, run, steps, t);
  }
}
