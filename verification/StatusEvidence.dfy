/**
 The status resolver: independent observations from four sources, folded into one
 status (status_evidence.go). Time 0 is the zero time.
 */
module StatusEvidence {
  import opened Wrappers

  datatype Status = Running | Waiting | Idle | Stopped | Pending

  datatype Source = Process | Hook | Terminal | Progress

  type Time = nat

  datatype Seen = Seen(status: Status, at: Time)

  /** `StatusEvidence` with the status it resolved to; an absent entry is not valid. */
  datatype Common = Common(
    status: Status, changedAt: Time,
    process: Option<Seen>, hook: Option<Seen>, terminal: Option<Seen>, progress: Option<Seen>,
    actionRequired: Option<Seen>)

  /** A state in which nothing has been observed. */
  predicate Unobserved(c: Common) {
    c.process == c.hook == c.terminal == c.progress == c.actionRequired == None
  }

  function Priority(s: Status): nat {
    match s
    case Stopped => 5
    case Pending => 4
    case Running => 3
    case Waiting => 2
    case Idle => 1
  }

  /** The later of two observations; the higher status when they are as old. */
  function Better(best: Option<Seen>, next: Option<Seen>): Option<Seen> {
    if next.None? then best
    else if best.None? || next.value.at > best.value.at ||
            (next.value.at == best.value.at && Priority(next.value.status) > Priority(best.value.status)) then next
    else best
  }

  /** What `ResolveStatus` decides on, if on anything. */
  function Decide(c: Common): Option<Seen> {
    if c.process.Some? && c.process.value.status == Stopped then c.process
    else if c.hook.Some? && c.hook.value.status == Pending then c.hook
    else if c.actionRequired.Some? then Some(Seen(Pending, c.actionRequired.value.at))
    else Better(Better(c.hook, c.terminal), c.progress)
  }

  /** `setResolvedStatus`. */
  function SetResolved(c: Common, seen: Option<Seen>): Common {
    if seen.None? || c.status == seen.value.status then c
    else c.(status := seen.value.status, changedAt := if seen.value.at != 0 then seen.value.at else c.changedAt)
  }

  function Resolve(c: Common): Common {
    SetResolved(c, Decide(c))
  }

  function Record(c: Common, source: Source, seen: Seen): Common {
    match source
    case Process => c.(process := Some(seen))
    case Hook => c.(hook := Some(seen))
    case Terminal => c.(terminal := Some(seen), actionRequired := if seen.status == Pending then Some(seen) else None)
    case Progress => c.(progress := Some(seen))
  }

  function Observe(c: Common, source: Source, status: Status, at: Time): Common {
    Resolve(Record(c, source, Seen(status, if at == 0 then c.changedAt else at)))
  }

  // ------------------------------------------------------------ observations

  datatype Obs = Obs(source: Source, status: Status, at: Time)

  function Run(c: Common, obs: seq<Obs>): Common {
    if obs == [] then c
    else
      var before, o := Run(c, obs[..|obs| - 1]), obs[|obs| - 1];
      Observe(before, o.source, o.status, o.at)
  }

  /** The observations of one source, in order. */
  function Of(obs: seq<Obs>, source: Source): seq<Seen> {
    if obs == [] then []
    else
      var before, o := Of(obs[..|obs| - 1], source), obs[|obs| - 1];
      if o.source == source then before + [Seen(o.status, o.at)] else before
  }

  function Last(seen: seq<Seen>): Option<Seen> {
    if seen == [] then None else Some(seen[|seen| - 1])
  }

  predicate Timed(obs: seq<Obs>) {
    forall i :: 0 <= i < |obs| ==> obs[i].at != 0
  }

  predicate EverStopped(seen: seq<Seen>) {
    exists i :: 0 <= i < |seen| && seen[i].status == Stopped
  }

  // ----------------------------------------------------------- what it means

  /** `a` is at least as good as `b`: later, or as old and no lower. */
  predicate AtLeast(a: Seen, b: Seen) {
    a.at > b.at || (a.at == b.at && Priority(a.status) >= Priority(b.status))
  }

  predicate OneOf(a: Seen, hook: Option<Seen>, terminal: Option<Seen>, progress: Option<Seen>) {
    Some(a) == hook || Some(a) == terminal || Some(a) == progress
  }

  /**
   The status the last observation of each source calls for: a stopped process, then
   a pending hook or terminal, then the latest observation, the higher status when
   two are as old. With none of these, stopped if the process ever was.
   */
  ghost predicate CalledFor(initial: Status, obs: seq<Obs>, status: Status) {
    var process, hook := Last(Of(obs, Process)), Last(Of(obs, Hook));
    var terminal, progress := Last(Of(obs, Terminal)), Last(Of(obs, Progress));
    if process.Some? && process.value.status == Stopped then status == Stopped
    else if (hook.Some? && hook.value.status == Pending) || (terminal.Some? && terminal.value.status == Pending)
    then status == Pending
    else if hook.None? && terminal.None? && progress.None?
    then status == if EverStopped(Of(obs, Process)) then Stopped else initial
    else exists best ::
      && OneOf(best, hook, terminal, progress) && best.status == status
      && forall other :: OneOf(other, hook, terminal, progress) ==> AtLeast(best, other)
  }

  /** The record holds the last observation of each source. */
  predicate Holds(c: Common, obs: seq<Obs>) {
    && c.process == Last(Of(obs, Process)) && c.hook == Last(Of(obs, Hook))
    && c.terminal == Last(Of(obs, Terminal)) && c.progress == Last(Of(obs, Progress))
    && c.actionRequired == if c.terminal.Some? && c.terminal.value.status == Pending then c.terminal else None
  }

  lemma {:induction false} RunHolds(c: Common, obs: seq<Obs>)
    requires Unobserved(c) && Timed(obs)
    ensures Holds(Run(c, obs), obs)
  {
    if obs != [] {
      RunHolds(c, obs[..|obs| - 1]);
      assert obs[|obs| - 1].at != 0;
    }
  }

  /** The scan keeps the lexicographic maximum. */
  lemma BetterIsBest(hook: Option<Seen>, terminal: Option<Seen>, progress: Option<Seen>)
    ensures var best := Better(Better(hook, terminal), progress);
            && (best.None? <==> hook.None? && terminal.None? && progress.None?)
            && (best.Some? ==> OneOf(best.value, hook, terminal, progress))
            && (best.Some? ==> forall other :: OneOf(other, hook, terminal, progress) ==> AtLeast(best.value, other))
  {
  }

  lemma EverStoppedSnoc(seen: seq<Seen>, next: Seen)
    ensures EverStopped(seen + [next]) <==> EverStopped(seen) || next.status == Stopped
  {
    var all := seen + [next];
    assert all[|seen|] == next;
    if EverStopped(seen) {
      var i :| 0 <= i < |seen| && seen[i].status == Stopped;
      assert all[i].status == Stopped;
    }
  }

  /** Without evidence but the process's, the status is what a stopped process made it. */
  lemma {:induction false} OnlyProcess(c: Common, obs: seq<Obs>)
    requires Unobserved(c) && Timed(obs)
    requires Of(obs, Hook) == Of(obs, Terminal) == Of(obs, Progress) == []
    ensures Run(c, obs).status == if EverStopped(Of(obs, Process)) then Stopped else c.status
  {
    if obs != [] {
      var init, o := obs[..|obs| - 1], obs[|obs| - 1];
      assert o.source == Process;
      OnlyProcess(c, init);
      RunHolds(c, init);
      EverStoppedSnoc(Of(init, Process), Seen(o.status, o.at));
      assert o.at != 0;
    }
  }

  /** After any observations with times, the status is the one their last per source calls for. */
  lemma StatusCalledFor(c: Common, obs: seq<Obs>)
    requires Unobserved(c) && Timed(obs)
    ensures CalledFor(c.status, obs, Run(c, obs).status)
  {
    RunHolds(c, obs);
    var t := Run(c, obs);
    BetterIsBest(t.hook, t.terminal, t.progress);
    if t.hook.None? && t.terminal.None? && t.progress.None? {
      OnlyProcess(c, obs);
    } else {
      assert obs != [];
      assert t.status == Decide(t).value.status;
    }
  }

  /** No two statuses are called for by the same observations. */
  lemma CalledForUnique(initial: Status, obs: seq<Obs>, a: Status, b: Status)
    requires CalledFor(initial, obs, a) && CalledFor(initial, obs, b)
    ensures a == b
  {
  }

  predicate SameOrderPerSource(a: seq<Obs>, b: seq<Obs>) {
    && Of(a, Process) == Of(b, Process) && Of(a, Hook) == Of(b, Hook)
    && Of(a, Terminal) == Of(b, Terminal) && Of(a, Progress) == Of(b, Progress)
  }

  /** Confluence: interleavings that keep each source's order agree on the status. */
  lemma Confluence(c: Common, a: seq<Obs>, b: seq<Obs>)
    requires Unobserved(c) && Timed(a) && Timed(b) && SameOrderPerSource(a, b)
    ensures Run(c, a).status == Run(c, b).status
  {
    StatusCalledFor(c, a);
    StatusCalledFor(c, b);
    assert CalledFor(c.status, a, Run(c, b).status);
    CalledForUnique(c.status, a, Run(c, a).status, Run(c, b).status);
  }

  /**
   Two histories with the same last observations agree too, exactly unless the
   process was once stopped, no longer is, and nothing else was ever observed.
   */
  lemma LastPerSourceDecidesIff(c: Common, a: seq<Obs>, b: seq<Obs>)
    requires Unobserved(c) && c.status != Stopped && Timed(a) && Timed(b)
    requires Last(Of(a, Process)) == Last(Of(b, Process)) && Last(Of(a, Hook)) == Last(Of(b, Hook))
    requires Last(Of(a, Terminal)) == Last(Of(b, Terminal)) && Last(Of(a, Progress)) == Last(Of(b, Progress))
    ensures Run(c, a).status == Run(c, b).status <==>
              (Of(a, Hook) == Of(a, Terminal) == Of(a, Progress) == [] ==>
                 EverStopped(Of(a, Process)) == EverStopped(Of(b, Process)))
  {
    StatusCalledFor(c, a);
    StatusCalledFor(c, b);
    if Of(a, Hook) == Of(a, Terminal) == Of(a, Progress) == [] {
      OnlyProcess(c, a);
      OnlyProcess(c, b);
    } else {
      assert CalledFor(c.status, a, Run(c, b).status);
      CalledForUnique(c.status, a, Run(c, a).status, Run(c, b).status);
    }
  }

  predicate NoProcess(obs: seq<Obs>) {
    forall i :: 0 <= i < |obs| ==> obs[i].source != Process
  }

  /** A stopped process absorbs all later hook, terminal and progress evidence, with or without times. */
  lemma {:induction false} StoppedAbsorbs(c: Common, obs: seq<Obs>)
    requires c.process.Some? && c.process.value.status == Stopped && NoProcess(obs)
    requires c.status == Stopped
    ensures Run(c, obs).status == Stopped && Run(c, obs).process == c.process && Run(c, obs).changedAt == c.changedAt
  {
    if obs != [] {
      StoppedAbsorbs(c, obs[..|obs| - 1]);
      assert obs[|obs| - 1].source != Process;
    }
  }

  // -------------------------------------------------- the time of the change

  /** The observation that decides, from the last of each source. */
  ghost predicate DecidedOn(obs: seq<Obs>, seen: Seen) {
    var process, hook := Last(Of(obs, Process)), Last(Of(obs, Hook));
    var terminal, progress := Last(Of(obs, Terminal)), Last(Of(obs, Progress));
    if process.Some? && process.value.status == Stopped then Some(seen) == process
    else if hook.Some? && hook.value.status == Pending then Some(seen) == hook
    else if terminal.Some? && terminal.value.status == Pending then Some(seen) == terminal
    else
      && OneOf(seen, hook, terminal, progress)
      && forall other :: OneOf(other, hook, terminal, progress) ==> AtLeast(seen, other)
  }

  /** The change that stands: at a point, on an observation of that point. */
  ghost predicate ChangedOn(obs: seq<Obs>, status: Status, at: Time) {
    exists seen :: DecidedOn(obs, seen) && seen.status == status && seen.at == at
  }

  /** The last point at which the status changed; 0 if it never did. */
  function LastChange(c: Common, obs: seq<Obs>): (n: nat)
    ensures n <= |obs|
  {
    if obs == [] then 0
    else if Run(c, obs).status != Run(c, obs[..|obs| - 1]).status then |obs|
    else LastChange(c, obs[..|obs| - 1])
  }

  lemma ChangeDecided(c: Common, obs: seq<Obs>)
    requires Unobserved(c) && Timed(obs) && obs != [] && Run(c, obs).status != Run(c, obs[..|obs| - 1]).status
    ensures ChangedOn(obs, Run(c, obs).status, Run(c, obs).changedAt)
  {
    RunHolds(c, obs);
    var t := Run(c, obs);
    BetterIsBest(t.hook, t.terminal, t.progress);
    var seen := Decide(t).value;
    forall source ensures Last(Of(obs, source)).Some? ==> Last(Of(obs, source)).value.at != 0 {
      LastTimed(obs, source);
    }
    assert DecidedOn(obs, seen);
  }

  lemma {:induction false} LastTimed(obs: seq<Obs>, source: Source)
    requires Timed(obs)
    ensures Last(Of(obs, source)).Some? ==> Last(Of(obs, source)).value.at != 0
  {
    if obs != [] {
      LastTimed(obs[..|obs| - 1], source);
      assert obs[|obs| - 1].at != 0;
    }
  }

  /**
   The time of the last change is the time of the observation that decided when the
   status last changed, which later ones for the same status do not move.
   */
  lemma {:induction false} ChangedAtIs(c: Common, obs: seq<Obs>)
    requires Unobserved(c) && Timed(obs)
    ensures var n := LastChange(c, obs);
            if n == 0 then Run(c, obs).status == c.status && Run(c, obs).changedAt == c.changedAt
            else ChangedOn(obs[..n], Run(c, obs).status, Run(c, obs).changedAt)
  {
    if obs != [] {
      var p := obs[..|obs| - 1];
      if Run(c, obs).status != Run(c, p).status {
        ChangeDecided(c, obs);
        assert obs[..|obs|] == obs;
      } else {
        ChangedAtIs(c, p);
        assert p[..LastChange(c, p)] == obs[..LastChange(c, p)];
      }
    }
  }

  // ------------------------------------------------- observations without a time

  /** The observations with the times they are recorded under. */
  function Stamped(c: Common, obs: seq<Obs>): seq<Obs> {
    if obs == [] then []
    else
      var p, o := obs[..|obs| - 1], obs[|obs| - 1];
      Stamped(c, p) + [if o.at == 0 then o.(at := Run(c, p).changedAt) else o]
  }

  lemma {:induction false} StampedRuns(c: Common, obs: seq<Obs>)
    requires c.changedAt != 0
    ensures Timed(Stamped(c, obs)) && Run(c, Stamped(c, obs)) == Run(c, obs) && Run(c, obs).changedAt != 0
  {
    if obs != [] {
      var p, s := obs[..|obs| - 1], Stamped(c, obs);
      StampedRuns(c, p);
      assert s[..|s| - 1] == Stamped(c, p);
    }
  }

  /** With or without times, interleavings agree that record each source's observations alike. */
  lemma ConfluenceAsRecorded(c: Common, a: seq<Obs>, b: seq<Obs>)
    requires Unobserved(c) && c.changedAt != 0 && SameOrderPerSource(Stamped(c, a), Stamped(c, b))
    ensures Run(c, a).status == Run(c, b).status
  {
    StampedRuns(c, a);
    StampedRuns(c, b);
    Confluence(c, Stamped(c, a), Stamped(c, b));
  }

  // ------------------------------------------------------ where it is not so

  const FRESH := Common(Idle, 1, None, None, None, None, None)

  lemma Run1(c: Common, a: Obs)
    ensures Run(c, [a]) == Observe(c, a.source, a.status, a.at)
  {
    assert [a][..0] == [];
  }

  lemma Run2(c: Common, a: Obs, b: Obs)
    ensures Run(c, [a, b]) == Observe(Observe(c, a.source, a.status, a.at), b.source, b.status, b.at)
  {
    assert [a, b][..1] == [a];
    Run1(c, a);
  }

  lemma Of2(a: Obs, b: Obs)
    requires a.source != b.source
    ensures SameOrderPerSource([a, b], [b, a])
  {
    assert [a, b][..1] == [a] && [b, a][..1] == [b] && [a][..0] == [] && [b][..0] == [];
    forall s: Source ensures Of([a, b], s) == Of([b, a], s) {
      assert Of([a], s) == if a.source == s then [Seen(a.status, a.at)] else [];
      assert Of([b], s) == if b.source == s then [Seen(b.status, b.at)] else [];
    }
  }

  /** The time of the last change is not confluent. */
  lemma ChangedAtDiffers()
    ensures exists a, b :: Timed(a) && Timed(b) && SameOrderPerSource(a, b) &&
                           Run(FRESH, a).changedAt != Run(FRESH, b).changedAt
  {
    var h, p := Obs(Hook, Running, 5), Obs(Progress, Running, 7);
    Of2(h, p);
    Run2(FRESH, h, p);
    Run2(FRESH, p, h);
    assert Timed([h, p]) && Timed([p, h]) && SameOrderPerSource([h, p], [p, h]);
    assert Run(FRESH, [h, p]).changedAt == 5 && Run(FRESH, [p, h]).changedAt == 7;
  }

  /**
   A hook event may come without a time. It takes the time of the last change, so its
   place among the others matters.
   */
  lemma UntimedDiffers()
    ensures exists a, b :: SameOrderPerSource(a, b) && Run(FRESH, a).status != Run(FRESH, b).status
  {
    var a, b := Obs(Hook, Running, 0), Obs(Progress, Waiting, 5);
    Of2(a, b);
    Run2(FRESH, a, b);
    Run2(FRESH, b, a);
    assert Run(FRESH, [a, b]).status == Waiting && Run(FRESH, [b, a]).status == Running;
  }

  // ------------------------------------------------------------------ in place

  /** The status part of `CommonState`, with its evidence updated in place. */
  class CommonState {
    var status: Status
    var changedAt: Time
    var process: Option<Seen>
    var hook: Option<Seen>
    var terminal: Option<Seen>
    var progress: Option<Seen>
    var actionRequired: Option<Seen>

    ghost function Model(): Common
      reads this
    {
      Common(status, changedAt, process, hook, terminal, progress, actionRequired)
    }

    constructor (initial: Status, now: Time)
      ensures Model() == Common(initial, now, None, None, None, None, None) && Unobserved(Model())
    {
      status, changedAt := initial, now;
      process, hook, terminal, progress, actionRequired := None, None, None, None, None;
    }

    method SetResolvedStatus(to: Status, at: Time)
      modifies this`status, this`changedAt
      ensures Model() == SetResolved(old(Model()), Some(Seen(to, at)))
    {
      if status == to { return; }
      status := to;
      if at != 0 { changedAt := at; }
    }

    method ResolveStatus()
      modifies this`status, this`changedAt
      ensures Model() == Resolve(old(Model()))
    {
      if process.Some? && process.value.status == Stopped {
        SetResolvedStatus(Stopped, process.value.at);
        return;
      }
      if hook.Some? && hook.value.status == Pending {
        SetResolvedStatus(Pending, hook.value.at);
        return;
      }
      if actionRequired.Some? {
        SetResolvedStatus(Pending, actionRequired.value.at);
        return;
      }
      var all := [hook, terminal, progress];
      var best: Option<Seen> := None;
      for i := 0 to 3
        invariant best == if i == 0 then None else if i == 1 then hook else if i == 2 then Better(hook, terminal)
                          else Better(Better(hook, terminal), progress)
      {
        if all[i].None? { continue; }
        if best.None? || all[i].value.at > best.value.at ||
           (all[i].value.at == best.value.at && Priority(all[i].value.status) > Priority(best.value.status)) {
          best := all[i];
        }
      }
      if best.Some? { SetResolvedStatus(best.value.status, best.value.at); }
    }

    method ObserveStatus(source: Source, to: Status, time: Time)
      modifies this
      ensures Model() == Observe(old(Model()), source, to, time)
    {
      var seen := Seen(to, if time == 0 then changedAt else time);
      match source {
        case Process => process := Some(seen);
        case Hook => hook := Some(seen);
        case Terminal =>
          terminal := Some(seen);
          actionRequired := if to == Pending then Some(seen) else None;
        case Progress => progress := Some(seen);
      }
      ResolveStatus();
    }
  }
}
