/**
 Admission of repository clones under global, per-repository, per-intent and byte
 limits (repository_preparation.go, repository_preparation_worker.go,
 repository_effects.go). The counters are compared with what they are meant to
 count: the admissions outstanding and the clone sizes charged.
 */
module PreparationCapacity {
  import opened Wrappers

  type PrepId = string

  /** `repoKey` of a preparation, and its intent; a zero RepositoryPreparation has neither. */
  datatype RepoKey = ZeroRepo | Repo(server: string, id: string)
  datatype IntentId = ZeroIntent | Intent(id: string)

  const CAP_ACTIVE := 4
  const CAP_REPOSITORY := 2
  const CAP_QUEUED := 32
  const CAP_BYTES := 20 * 1024 * 1024 * 1024

  datatype Code = Admitted | IntentBusy | QueuedFull | ActiveFull | RepositoryFull | DiskFull

  /** `PreparationCapacity`: the counters, with the two intent maps as sets. */
  datatype Counters = Counters(
    activeGlobal: nat, queuedGlobal: nat, activeByRepo: map<RepoKey, nat>, neverAvailBytes: nat,
    processByIntent: set<IntentId>, stagingByIntent: set<IntentId>)

  const NO_COUNTERS := Counters(0, 0, map[], 0, {}, {})

  function Get<K>(m: map<K, nat>, k: K): nat {
    if k in m then m[k] else 0
  }

  function AdmitClone(c: Counters, repo: RepoKey, intent: IntentId, cloneBytes: nat): Code {
    if intent in c.processByIntent || intent in c.stagingByIntent then IntentBusy
    else if c.activeGlobal >= CAP_ACTIVE then
      if c.queuedGlobal >= CAP_QUEUED then QueuedFull else ActiveFull
    else if Get(c.activeByRepo, repo) >= CAP_REPOSITORY then RepositoryFull
    else if c.neverAvailBytes + cloneBytes > CAP_BYTES then DiskFull
    else Admitted
  }

  function BeginActive(c: Counters, repo: RepoKey, intent: IntentId): Counters {
    c.(activeGlobal := c.activeGlobal + 1, activeByRepo := c.activeByRepo[repo := Get(c.activeByRepo, repo) + 1],
       processByIntent := c.processByIntent + {intent}, stagingByIntent := c.stagingByIntent + {intent})
  }

  function EndActive(c: Counters, repo: RepoKey, intent: IntentId): Counters {
    c.(activeGlobal := if c.activeGlobal > 0 then c.activeGlobal - 1 else 0,
       activeByRepo := if Get(c.activeByRepo, repo) > 0
                       then c.activeByRepo[repo := Get(c.activeByRepo, repo) - 1] else c.activeByRepo,
       processByIntent := c.processByIntent - {intent}, stagingByIntent := c.stagingByIntent - {intent})
  }

  /** `RemoveNeverAvailable` with its clamp, then `AddNeverAvailable`. */
  function Uncharge(c: Counters, n: nat): Counters {
    c.(neverAvailBytes := if c.neverAvailBytes >= n then c.neverAvailBytes - n else 0)
  }

  function Charge(c: Counters, n: nat): Counters {
    c.(neverAvailBytes := c.neverAvailBytes + n)
  }

  // ----------------------------------------------------------- the controller

  /** What a preparation record says of itself; it never changes. */
  datatype Identity = Identity(repo: RepoKey, intent: IntentId)

  /** One admission not yet released; `running` once its worker has started. */
  datatype Hold = Hold(prep: PrepId, repo: RepoKey, running: bool)

  /**
   `outstanding` are the admissions by intent, `sizes` is `neverAvailSize`.
   `leaked` and `leakedIntents` record releases made with the wrong preparation.
   `records` are the preparations of the reducer's state, `vanished` those removed.
   */
  datatype State = State(
    counters: Counters, outstanding: map<IntentId, Hold>, sizes: map<PrepId, nat>,
    queuedRefusals: nat, leaked: map<RepoKey, nat>, leakedIntents: set<IntentId>,
    records: map<PrepId, Identity>, vanished: set<PrepId>)

  const INITIAL := State(NO_COUNTERS, map[], map[], 0, map[], {}, map[], {})

  /** No code removes a preparation; `Vanish` stands for code that would. */
  datatype Step =
    | Record(prep: PrepId, repo: RepoKey, intent: IntentId)
    | Vanish(prep: PrepId)
    | TryAdmit(prep: PrepId, repo: RepoKey, intent: IntentId)
    | StartClone(intent: IntentId)
    | ReleaseAdmit(intent: IntentId)
    | ReleaseZero(intent: IntentId)
    | FinishWorker(intent: IntentId)
    | AccountClonePath(prep: PrepId, bytes: nat)
    | ReleaseAccount(prep: PrepId)

  predicate Enabled(s: State, step: Step) {
    match step
    case Record(prep, repo, intent) =>
      prep !in s.records && prep !in s.vanished && repo != ZeroRepo && intent != ZeroIntent
    case Vanish(prep) => prep in s.records
    case TryAdmit(prep, repo, intent) => prep in s.records && s.records[prep] == Identity(repo, intent)
    case StartClone(i) => i in s.outstanding && !s.outstanding[i].running
    case ReleaseAdmit(i) =>
      i in s.outstanding && !s.outstanding[i].running && s.outstanding[i].prep in s.records
    case ReleaseZero(i) =>
      i in s.outstanding && !s.outstanding[i].running && s.outstanding[i].prep !in s.records
    case FinishWorker(i) => i in s.outstanding && s.outstanding[i].running
    case AccountClonePath(_, _) => true
    case ReleaseAccount(_) => true
  }

  function DoAdmit(s: State, prep: PrepId, repo: RepoKey, intent: IntentId): State {
    match AdmitClone(s.counters, repo, intent, 0)
    case Admitted =>
      s.(counters := BeginActive(s.counters, repo, intent),
         outstanding := s.outstanding[intent := Hold(prep, repo, false)])
    case ActiveFull =>
      s.(counters := s.counters.(queuedGlobal := s.counters.queuedGlobal + 1), queuedRefusals := s.queuedRefusals + 1)
    case _ => s
  }

  /** The admission held for `intent` ends, and the counters are told `repo` and `told`. */
  function DoRelease(s: State, intent: IntentId, repo: RepoKey, told: IntentId): State {
    s.(counters := EndActive(s.counters, repo, told), outstanding := s.outstanding - {intent})
  }

  function DoReleaseAccount(s: State, prep: PrepId): State {
    if prep in s.sizes then s.(counters := Uncharge(s.counters, s.sizes[prep]), sizes := s.sizes - {prep}) else s
  }

  function DoAccount(s: State, prep: PrepId, bytes: nat): State {
    s.(counters := Charge(if prep in s.sizes then Uncharge(s.counters, s.sizes[prep]) else s.counters, bytes),
       sizes := s.sizes[prep := bytes])
  }

  function Next(s: State, step: Step): State
    requires Enabled(s, step)
  {
    match step
    case Record(prep, repo, intent) => s.(records := s.records[prep := Identity(repo, intent)])
    case Vanish(prep) => s.(records := s.records - {prep}, vanished := s.vanished + {prep})
    case TryAdmit(prep, repo, intent) => DoAdmit(s, prep, repo, intent)
    case StartClone(i) => s.(outstanding := s.outstanding[i := s.outstanding[i].(running := true)])
    case ReleaseAdmit(i) =>
      var found := s.records[s.outstanding[i].prep];
      DoRelease(s, i, found.repo, found.intent)
    case ReleaseZero(i) =>
      var repo := s.outstanding[i].repo;
      DoRelease(s, i, ZeroRepo, ZeroIntent)
        .(leaked := s.leaked[repo := Get(s.leaked, repo) + 1], leakedIntents := s.leakedIntents + {i})
    case FinishWorker(i) => DoRelease(s, i, s.outstanding[i].repo, i)
    case AccountClonePath(prep, bytes) => DoAccount(s, prep, bytes)
    case ReleaseAccount(prep) => DoReleaseAccount(s, prep)
  }

  predicate Possible(steps: seq<Step>) {
    steps == [] || (Possible(steps[..|steps| - 1]) && Enabled(Run(steps[..|steps| - 1]), steps[|steps| - 1]))
  }

  function Run(steps: seq<Step>): State {
    if steps == [] || !Enabled(Run(steps[..|steps| - 1]), steps[|steps| - 1]) then INITIAL
    else Next(Run(steps[..|steps| - 1]), steps[|steps| - 1])
  }

  // ----------------------------------------------------------------- sums

  ghost function Total<K(!new)>(m: map<K, nat>): nat
    decreases |m|
  {
    if m == map[] then 0
    else
      var k :| k in m;
      assert |m - {k}| < |m| by { assert m.Keys == (m - {k}).Keys + {k}; }
      m[k] + Total(m - {k})
  }

  lemma {:induction false} TotalMinus<K(!new)>(m: map<K, nat>, k: K)
    requires k in m
    ensures Total(m) == m[k] + Total(m - {k})
    decreases |m|
  {
    var j :| j in m && Total(m) == m[j] + Total(m - {j});
    assert m.Keys == (m - {j}).Keys + {j} && m.Keys == (m - {k}).Keys + {k};
    if j != k {
      TotalMinus(m - {j}, k);
      TotalMinus(m - {k}, j);
      assert m - {j} - {k} == m - {k} - {j};
    }
  }

  lemma TotalUpdate<K(!new)>(m: map<K, nat>, k: K, v: nat)
    ensures Total(m[k := v]) + Get(m, k) == Total(m) + v
  {
    TotalMinus(m[k := v], k);
    if k in m {
      TotalMinus(m, k);
      assert m[k := v] - {k} == m - {k};
    } else {
      assert m[k := v] - {k} == m;
    }
  }

  // -------------------------------------------------------------- invariant

  function HoldsOf(outstanding: map<IntentId, Hold>, repo: RepoKey): set<IntentId> {
    set i | i in outstanding && outstanding[i].repo == repo
  }

  predicate RepoOk(s: State, repo: RepoKey) {
    Get(s.counters.activeByRepo, repo) == |HoldsOf(s.outstanding, repo)| + Get(s.leaked, repo) <= CAP_REPOSITORY
  }

  /** An intent is marked busy exactly when it holds an admission or has leaked one. */
  predicate HoldOk(s: State, i: IntentId) {
    && (i in s.outstanding ==> s.outstanding[i].repo != ZeroRepo && i != ZeroIntent && i !in s.leakedIntents)
    && (i in s.leakedIntents ==> i != ZeroIntent)
    && (i in s.counters.processByIntent <==> i in s.outstanding || i in s.leakedIntents)
    && (i in s.counters.stagingByIntent <==> i in s.outstanding || i in s.leakedIntents)
  }

  ghost predicate ActiveOk(s: State) {
    var c := s.counters;
    && c.activeGlobal == |s.outstanding| <= CAP_ACTIVE
    && (forall repo {:trigger RepoOk(s, repo)} :: RepoOk(s, repo))
    && (forall i {:trigger HoldOk(s, i)} :: HoldOk(s, i))
    && ZeroRepo !in s.leaked
  }

  ghost predicate SumOk(s: State) {
    Total(s.counters.activeByRepo) == |s.outstanding| + Total(s.leaked)
  }

  predicate RecordOk(s: State, prep: PrepId) {
    prep in s.records ==>
      prep !in s.vanished && s.records[prep].repo != ZeroRepo && s.records[prep].intent != ZeroIntent
  }

  /** An admission is held under a preparation that has a record, with the same identity, or has lost it. */
  predicate HeldUnder(s: State, i: IntentId) {
    i in s.outstanding ==>
      var h := s.outstanding[i];
      if h.prep in s.records then s.records[h.prep] == Identity(h.repo, i) else h.prep in s.vanished
  }

  ghost predicate RecordsOk(s: State) {
    && (forall prep {:trigger RecordOk(s, prep)} :: RecordOk(s, prep))
    && (forall i {:trigger HeldUnder(s, i)} :: HeldUnder(s, i))
  }

  ghost predicate Inv(s: State) {
    && ActiveOk(s) && SumOk(s) && RecordsOk(s)
    && s.counters.queuedGlobal == s.queuedRefusals <= CAP_QUEUED
    && s.counters.neverAvailBytes == Total(s.sizes)
  }

  lemma HoldsWith(outstanding: map<IntentId, Hold>, intent: IntentId, hold: Hold, repo: RepoKey)
    requires intent !in outstanding
    ensures |HoldsOf(outstanding[intent := hold], repo)| ==
              |HoldsOf(outstanding, repo)| + (if hold.repo == repo then 1 else 0)
  {
    var before := HoldsOf(outstanding, repo);
    assert HoldsOf(outstanding[intent := hold], repo) == if hold.repo == repo then before + {intent} else before;
  }

  function Admit(s: State, prep: PrepId, repo: RepoKey, intent: IntentId): State {
    s.(counters := BeginActive(s.counters, repo, intent), outstanding := s.outstanding[intent := Hold(prep, repo, false)])
  }

  lemma AdmittedRepo(s: State, prep: PrepId, repo: RepoKey, intent: IntentId, r: RepoKey)
    requires RepoOk(s, r) && intent !in s.outstanding && Get(s.counters.activeByRepo, repo) < CAP_REPOSITORY
    ensures RepoOk(Admit(s, prep, repo, intent), r)
  {
    HoldsWith(s.outstanding, intent, Hold(prep, repo, false), r);
  }

  lemma AdmittedKeeps(s: State, prep: PrepId, repo: RepoKey, intent: IntentId)
    requires ActiveOk(s) && repo != ZeroRepo && intent != ZeroIntent
    requires AdmitClone(s.counters, repo, intent, 0) == Admitted
    ensures ActiveOk(Admit(s, prep, repo, intent))
  {
    var t := Admit(s, prep, repo, intent);
    assert HoldOk(s, intent);
    forall r ensures RepoOk(t, r) {
      assert RepoOk(s, r);
      AdmittedRepo(s, prep, repo, intent, r);
    }
    forall i ensures HoldOk(t, i) { assert HoldOk(s, i); }
  }

  lemma AdmittedSum(s: State, prep: PrepId, repo: RepoKey, intent: IntentId)
    requires SumOk(s) && intent !in s.outstanding
    ensures SumOk(Admit(s, prep, repo, intent))
  {
    TotalUpdate(s.counters.activeByRepo, repo, Get(s.counters.activeByRepo, repo) + 1);
  }

  /** Nothing is recorded or lost, and no admission appears but under a recorded preparation. */
  lemma SameRecords(s: State, t: State)
    requires RecordsOk(s) && t.records == s.records && t.vanished == s.vanished
    requires forall i :: i in t.outstanding ==>
               || (i in s.outstanding && t.outstanding[i].prep == s.outstanding[i].prep &&
                   t.outstanding[i].repo == s.outstanding[i].repo)
               || (t.outstanding[i].prep in s.records &&
                   s.records[t.outstanding[i].prep] == Identity(t.outstanding[i].repo, i))
    ensures RecordsOk(t)
  {
    forall prep ensures RecordOk(t, prep) { assert RecordOk(s, prep); }
    forall i ensures HeldUnder(t, i) { assert HeldUnder(s, i); }
  }

  lemma RecordingKeeps(s: State, step: Step)
    requires Inv(s) && Enabled(s, step) && (step.Record? || step.Vanish?)
    ensures Inv(Next(s, step))
  {
    var t := Next(s, step);
    forall prep ensures RecordOk(t, prep) { assert RecordOk(s, prep); }
    forall i ensures HeldUnder(t, i) { assert HeldUnder(s, i); }
    forall r ensures RepoOk(t, r) { assert RepoOk(s, r); }
    forall i ensures HoldOk(t, i) { assert HoldOk(s, i); }
  }

  lemma AdmitRecords(s: State, prep: PrepId, repo: RepoKey, intent: IntentId)
    requires RecordsOk(s) && Enabled(s, TryAdmit(prep, repo, intent))
    ensures RecordsOk(DoAdmit(s, prep, repo, intent)) && repo != ZeroRepo && intent != ZeroIntent
  {
    SameRecords(s, DoAdmit(s, prep, repo, intent));
    assert RecordOk(s, prep);
  }

  lemma RefusedKeeps(s: State, t: State)
    requires ActiveOk(s)
    requires t == s.(counters := s.counters.(queuedGlobal := t.counters.queuedGlobal), queuedRefusals := t.queuedRefusals)
    ensures ActiveOk(t)
  {
    forall r ensures RepoOk(t, r) { assert RepoOk(s, r); }
    forall i ensures HoldOk(t, i) { assert HoldOk(s, i); }
  }

  lemma AdmitKeeps(s: State, prep: PrepId, repo: RepoKey, intent: IntentId)
    requires Inv(s) && Enabled(s, TryAdmit(prep, repo, intent))
    ensures Inv(DoAdmit(s, prep, repo, intent))
  {
    AdmitRecords(s, prep, repo, intent);
    if AdmitClone(s.counters, repo, intent, 0) == Admitted {
      assert HoldOk(s, intent);
      AdmittedKeeps(s, prep, repo, intent);
      AdmittedSum(s, prep, repo, intent);
    } else {
      RefusedKeeps(s, DoAdmit(s, prep, repo, intent));
    }
  }

  lemma HoldsWithout(outstanding: map<IntentId, Hold>, intent: IntentId, repo: RepoKey)
    requires intent in outstanding
    ensures |HoldsOf(outstanding - {intent}, repo)| ==
              |HoldsOf(outstanding, repo)| - (if outstanding[intent].repo == repo then 1 else 0)
  {
    var rest := HoldsOf(outstanding - {intent}, repo);
    assert HoldsOf(outstanding, repo) == if outstanding[intent].repo == repo then rest + {intent} else rest;
  }

  lemma ReleasedRepo(s: State, intent: IntentId, r: RepoKey)
    requires ActiveOk(s) && intent in s.outstanding
    ensures RepoOk(DoRelease(s, intent, s.outstanding[intent].repo, intent), r)
  {
    assert RepoOk(s, r);
    HoldsWithout(s.outstanding, intent, r);
    assert r == s.outstanding[intent].repo ==> intent in HoldsOf(s.outstanding, r);
  }

  lemma ReleasedSum(s: State, intent: IntentId)
    requires SumOk(s) && intent in s.outstanding && Get(s.counters.activeByRepo, s.outstanding[intent].repo) > 0
    ensures SumOk(DoRelease(s, intent, s.outstanding[intent].repo, intent))
  {
    var repo := s.outstanding[intent].repo;
    assert s.outstanding.Keys == (s.outstanding - {intent}).Keys + {intent};
    TotalUpdate(s.counters.activeByRepo, repo, Get(s.counters.activeByRepo, repo) - 1);
  }

  /** A matching release: the clamps of `EndActive` have nothing to do. */
  lemma ReleaseKeeps(s: State, intent: IntentId)
    requires Inv(s) && intent in s.outstanding
    ensures var repo := s.outstanding[intent].repo;
            && s.counters.activeGlobal > 0 && Get(s.counters.activeByRepo, repo) > 0
            && Inv(DoRelease(s, intent, repo, intent))
  {
    var repo := s.outstanding[intent].repo;
    var t := DoRelease(s, intent, repo, intent);
    assert s.outstanding.Keys == (s.outstanding - {intent}).Keys + {intent};
    assert RepoOk(s, repo) && intent in HoldsOf(s.outstanding, repo);
    assert HoldOk(s, intent);
    SameRecords(s, t);
    ReleasedSum(s, intent);
    forall r ensures RepoOk(t, r) { ReleasedRepo(s, intent, r); }
    forall i ensures HoldOk(t, i) { assert HoldOk(s, i); }
  }

  lemma ReleaseZeroKeeps(s: State, intent: IntentId)
    requires Inv(s) && Enabled(s, ReleaseZero(intent))
    ensures Inv(Next(s, ReleaseZero(intent)))
  {
    var repo, t := s.outstanding[intent].repo, Next(s, ReleaseZero(intent));
    assert s.outstanding.Keys == t.outstanding.Keys + {intent};
    assert HoldOk(s, intent) && RepoOk(s, ZeroRepo);
    SameRecords(s, t);
    assert HoldsOf(s.outstanding, ZeroRepo) == {} by {
      forall i | i in s.outstanding ensures s.outstanding[i].repo != ZeroRepo { assert HoldOk(s, i); }
    }
    TotalUpdate(s.leaked, repo, Get(s.leaked, repo) + 1);
    forall r ensures RepoOk(t, r) {
      assert RepoOk(s, r);
      HoldsWithout(s.outstanding, intent, r);
    }
    forall i ensures HoldOk(t, i) { assert HoldOk(s, i); }
  }

  lemma StartKeeps(s: State, intent: IntentId)
    requires Inv(s) && Enabled(s, StartClone(intent))
    ensures Inv(Next(s, StartClone(intent)))
  {
    var t := Next(s, StartClone(intent));
    assert t.outstanding.Keys == s.outstanding.Keys;
    SameRecords(s, t);
    forall r ensures RepoOk(t, r) {
      assert RepoOk(s, r);
      assert HoldsOf(t.outstanding, r) == HoldsOf(s.outstanding, r);
    }
    forall i ensures HoldOk(t, i) { assert HoldOk(s, i); }
  }

  lemma AccountKeeps(s: State, prep: PrepId, bytes: nat)
    requires Inv(s)
    ensures Inv(DoAccount(s, prep, bytes)) && Inv(DoReleaseAccount(s, prep))
    ensures prep in s.sizes ==> s.counters.neverAvailBytes >= s.sizes[prep]
  {
    TotalUpdate(s.sizes, prep, bytes);
    if prep in s.sizes { TotalMinus(s.sizes, prep); }
    var t, u := DoAccount(s, prep, bytes), DoReleaseAccount(s, prep);
    SameRecords(s, t);
    SameRecords(s, u);
    forall r ensures RepoOk(t, r) && RepoOk(u, r) { assert RepoOk(s, r); }
    forall i ensures HoldOk(t, i) && HoldOk(u, i) { assert HoldOk(s, i); }
  }

  lemma NextKeeps(s: State, step: Step)
    requires Inv(s) && Enabled(s, step)
    ensures Inv(Next(s, step))
  {
    match step
    case Record(_, _, _) => RecordingKeeps(s, step);
    case Vanish(_) => RecordingKeeps(s, step);
    case TryAdmit(prep, repo, intent) => AdmitKeeps(s, prep, repo, intent);
    case StartClone(i) => StartKeeps(s, i);
    case ReleaseAdmit(i) =>
      assert HeldUnder(s, i);
      ReleaseKeeps(s, i);
    case ReleaseZero(i) => ReleaseZeroKeeps(s, i);
    case FinishWorker(i) => ReleaseKeeps(s, i);
    case AccountClonePath(prep, bytes) => AccountKeeps(s, prep, bytes);
    case ReleaseAccount(prep) => AccountKeeps(s, prep, 0);
  }

  lemma {:induction false} RunKeeps(steps: seq<Step>)
    requires Possible(steps)
    ensures Inv(Run(steps))
  {
    if steps == [] {
      forall r ensures RepoOk(INITIAL, r) { assert HoldsOf(INITIAL.outstanding, r) == {}; }
    } else {
      RunKeeps(steps[..|steps| - 1]);
      NextKeeps(Run(steps[..|steps| - 1]), steps[|steps| - 1]);
    }
  }

  // ---------------------------------------------------------------- theorems

  lemma BusyIntents(s: State)
    requires Inv(s)
    ensures s.counters.processByIntent == s.counters.stagingByIntent == s.outstanding.Keys + s.leakedIntents
  {
    var busy := s.outstanding.Keys + s.leakedIntents;
    forall i ensures i in s.counters.processByIntent <==> i in busy { assert HoldOk(s, i); }
    forall i ensures i in s.counters.stagingByIntent <==> i in busy { assert HoldOk(s, i); }
  }

  /** As in this source: preparations are put and never removed. */
  predicate NothingVanishes(steps: seq<Step>) {
    forall i :: 0 <= i < |steps| ==> !steps[i].Vanish?
  }

  /** While preparations stay, the zero preparation is never released and nothing leaks. */
  lemma {:induction false} NothingLeaked(steps: seq<Step>)
    requires Possible(steps) && NothingVanishes(steps)
    ensures Run(steps).leaked == map[] && Run(steps).leakedIntents == {} && Run(steps).vanished == {}
    ensures forall i :: !Enabled(Run(steps), ReleaseZero(i))
  {
    if steps != [] { NothingLeaked(steps[..|steps| - 1]); }
    RunKeeps(steps);
    forall i ensures !Enabled(Run(steps), ReleaseZero(i)) { assert HeldUnder(Run(steps), i); }
  }

  /**
   In every run in which preparations stay on record, the counters are exactly what
   they count, within their limits.
   */
  lemma CapacityInvariant(steps: seq<Step>, repo: RepoKey)
    requires Possible(steps) && NothingVanishes(steps)
    ensures var s, c := Run(steps), Run(steps).counters;
            && c.activeGlobal == |s.outstanding| == Total(c.activeByRepo) <= CAP_ACTIVE
            && Get(c.activeByRepo, repo) == |HoldsOf(s.outstanding, repo)| <= CAP_REPOSITORY
            && c.processByIntent == c.stagingByIntent == s.outstanding.Keys
  {
    RunKeeps(steps);
    NothingLeaked(steps);
    assert RepoOk(Run(steps), repo);
    BusyIntents(Run(steps));
  }

  /** With wrong releases too: the global count stays right and the damage is exactly what leaked. */
  lemma CapacityWithLeaks(steps: seq<Step>, repo: RepoKey)
    requires Possible(steps)
    ensures var s, c := Run(steps), Run(steps).counters;
            && c.activeGlobal == |s.outstanding| <= CAP_ACTIVE
            && Get(c.activeByRepo, repo) == |HoldsOf(s.outstanding, repo)| + Get(s.leaked, repo) <= CAP_REPOSITORY
            && c.processByIntent == c.stagingByIntent == s.outstanding.Keys + s.leakedIntents
  {
    RunKeeps(steps);
    assert RepoOk(Run(steps), repo);
    BusyIntents(Run(steps));
  }

  /** A clone is admitted exactly when the outstanding work and the charged bytes leave room. */
  lemma AdmittedIff(steps: seq<Step>, repo: RepoKey, intent: IntentId)
    requires Possible(steps) && NothingVanishes(steps)
    ensures var s := Run(steps);
            AdmitClone(s.counters, repo, intent, 0) == Admitted <==>
              && intent !in s.outstanding && |s.outstanding| < CAP_ACTIVE
              && |HoldsOf(s.outstanding, repo)| < CAP_REPOSITORY && Total(s.sizes) <= CAP_BYTES
  {
    CapacityInvariant(steps, repo);
    RunKeeps(steps);
  }

  /** `EndActive` puts the counters right exactly when it is given the preparation that was admitted. */
  lemma ReleaseRightIff(s: State, intent: IntentId, repo: RepoKey, told: IntentId)
    requires Inv(s) && intent in s.outstanding
    ensures Inv(DoRelease(s, intent, repo, told)) <==> repo == s.outstanding[intent].repo && told == intent
  {
    ReleaseKeeps(s, intent);
    var t, held := DoRelease(s, intent, repo, told), s.outstanding[intent].repo;
    HoldsWithout(s.outstanding, intent, held);
    assert HoldOk(s, intent) && RepoOk(s, held);
    assert Inv(t) ==> RepoOk(t, held);
    assert Inv(t) ==> HoldOk(t, intent);
  }

  function RunFrom(s: State, steps: seq<Step>): State
    decreases |steps|
  {
    if steps == [] || !Enabled(s, steps[0]) then s else RunFrom(Next(s, steps[0]), steps[1..])
  }

  /** Leaks and the queue count only grow. */
  lemma LeaksGrow(s: State, step: Step)
    requires Enabled(s, step)
    ensures var t := Next(s, step);
            && s.leakedIntents <= t.leakedIntents && s.counters.queuedGlobal <= t.counters.queuedGlobal
            && forall repo :: Get(s.leaked, repo) <= Get(t.leaked, repo)
  {
  }

  lemma {:induction false} RunFromKeeps(s: State, more: seq<Step>)
    requires Inv(s)
    ensures var t := RunFrom(s, more);
            && Inv(t) && s.leakedIntents <= t.leakedIntents && s.counters.queuedGlobal <= t.counters.queuedGlobal
            && forall repo :: Get(s.leaked, repo) <= Get(t.leaked, repo)
    decreases |more|
  {
    if more != [] && Enabled(s, more[0]) {
      NextKeeps(s, more[0]);
      LeaksGrow(s, more[0]);
      RunFromKeeps(Next(s, more[0]), more[1..]);
    }
  }

  lemma PossibleNext(steps: seq<Step>, step: Step)
    requires Possible(steps) && Enabled(Run(steps), step)
    ensures Possible(steps + [step]) && Run(steps + [step]) == Next(Run(steps), step)
  {
    assert (steps + [step])[..|steps + [step]| - 1] == steps;
  }

  /** Were a record to vanish between its admission and its start, the admission would leak. */
  lemma LeakReached(prep: PrepId, repo: RepoKey, intent: IntentId)
    requires repo != ZeroRepo && intent != ZeroIntent
    ensures var steps := [Record(prep, repo, intent), TryAdmit(prep, repo, intent), Vanish(prep), ReleaseZero(intent)];
            && Possible(steps)
            && var s := Run(steps);
            && s.outstanding == map[] && intent in s.leakedIntents && Get(s.leaked, repo) == 1
            && s.counters.activeGlobal == 0 && Get(s.counters.activeByRepo, repo) == 1
  {
    var a, b, c, d := Record(prep, repo, intent), TryAdmit(prep, repo, intent), Vanish(prep), ReleaseZero(intent);
    assert Possible([]) && Run([]) == INITIAL;
    PossibleNext([], a);
    assert [] + [a] == [a];
    PossibleNext([a], b);
    assert [a] + [b] == [a, b];
    var admitted := Run([a, b]);
    assert admitted.outstanding == map[intent := Hold(prep, repo, false)];
    PossibleNext([a, b], c);
    assert [a, b] + [c] == [a, b, c];
    PossibleNext([a, b, c], d);
    assert [a, b, c] + [d] == [a, b, c, d];
    assert admitted.outstanding - {intent} == map[];
  }

  /** An intent released with a zero preparation is refused as busy in every continuation. */
  lemma LeakedIntentBusyForever(s: State, more: seq<Step>, repo: RepoKey, intent: IntentId, bytes: nat)
    requires Inv(s) && intent in s.leakedIntents
    ensures AdmitClone(RunFrom(s, more).counters, repo, intent, bytes) == IntentBusy
  {
    RunFromKeeps(s, more);
    assert HoldOk(RunFrom(s, more), intent);
  }

  /** Two such releases on one repository close it for good. */
  lemma LeakedRepositoryClosedForever(s: State, more: seq<Step>, repo: RepoKey, intent: IntentId, bytes: nat)
    requires Inv(s) && Get(s.leaked, repo) >= CAP_REPOSITORY
    ensures AdmitClone(RunFrom(s, more).counters, repo, intent, bytes) != Admitted
  {
    RunFromKeeps(s, more);
    assert RepoOk(RunFrom(s, more), repo);
  }

  /**
   Nothing dequeues: the queue count is the number of refusals ever queued, and
   from the thirty-second on a full server fails requests instead.
   */
  lemma QueueOnlyGrows(s: State, more: seq<Step>)
    requires Inv(s)
    ensures var t := RunFrom(s, more);
            && s.counters.queuedGlobal <= t.counters.queuedGlobal == t.queuedRefusals <= CAP_QUEUED
            && (s.counters.queuedGlobal == CAP_QUEUED ==>
                  forall repo, intent :: AdmitClone(t.counters, repo, intent, 0) != ActiveFull)
  {
    RunFromKeeps(s, more);
  }

  /**
   The bytes charged are the sum of the sizes recorded, so the clamp to zero never acts;
   a second release changes nothing.
   */
  lemma BytesExact(steps: seq<Step>, prep: PrepId)
    requires Possible(steps)
    ensures var s := Run(steps);
            && s.counters.neverAvailBytes == Total(s.sizes)
            && (prep in s.sizes ==> s.counters.neverAvailBytes >= s.sizes[prep])
            && Total(DoReleaseAccount(s, prep).sizes) == Total(s.sizes) - Get(s.sizes, prep)
            && DoReleaseAccount(DoReleaseAccount(s, prep), prep) == DoReleaseAccount(s, prep)
  {
    RunKeeps(steps);
    AccountKeeps(Run(steps), prep, 0);
    if prep in Run(steps).sizes { TotalMinus(Run(steps).sizes, prep); }
  }
}
