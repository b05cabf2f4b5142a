/** The capacity object and its controller, with their maps and counters updated in place. */
module PreparationController {
  import opened PreparationCapacity

  class Capacity {
    var activeGlobal: int
    var queuedGlobal: int
    var activeByRepo: map<RepoKey, nat>
    var neverAvailBytes: int
    var processByIntent: map<IntentId, int>
    var stagingByIntent: map<IntentId, int>

    ghost predicate Valid()
      reads this
    {
      && activeGlobal >= 0 && queuedGlobal >= 0 && neverAvailBytes >= 0
      && (forall i :: i in processByIntent ==> processByIntent[i] == 1)
      && (forall i :: i in stagingByIntent ==> stagingByIntent[i] == 1)
    }

    ghost function Now(): Counters
      requires Valid()
      reads this
    {
      Counters(activeGlobal, queuedGlobal, activeByRepo, neverAvailBytes,
               processByIntent.Keys, stagingByIntent.Keys)
    }

    constructor ()
      ensures Valid() && Now() == NO_COUNTERS
    {
      activeGlobal, queuedGlobal, neverAvailBytes := 0, 0, 0;
      activeByRepo, processByIntent, stagingByIntent := map[], map[], map[];
    }

    method AdmitClone(repo: RepoKey, intent: IntentId, cloneBytes: nat) returns (code: Code)
      requires Valid()
      ensures code == PreparationCapacity.AdmitClone(Now(), repo, intent, cloneBytes)
    {
      if intent in processByIntent && processByIntent[intent] > 0 { return IntentBusy; }
      if intent in stagingByIntent && stagingByIntent[intent] > 0 { return IntentBusy; }
      if activeGlobal >= CAP_ACTIVE {
        return if queuedGlobal >= CAP_QUEUED then QueuedFull else ActiveFull;
      }
      if repo in activeByRepo && activeByRepo[repo] >= CAP_REPOSITORY { return RepositoryFull; }
      if neverAvailBytes + cloneBytes > CAP_BYTES { return DiskFull; }
      return Admitted;
    }

    method BeginActive(repo: RepoKey, intent: IntentId)
      requires Valid()
      modifies this
      ensures Valid() && Now() == PreparationCapacity.BeginActive(old(Now()), repo, intent)
    {
      activeGlobal := activeGlobal + 1;
      activeByRepo := activeByRepo[repo := (if repo in activeByRepo then activeByRepo[repo] else 0) + 1];
      processByIntent := processByIntent[intent := 1];
      stagingByIntent := stagingByIntent[intent := 1];
    }

    method EndActive(repo: RepoKey, intent: IntentId)
      requires Valid()
      modifies this
      ensures Valid() && Now() == PreparationCapacity.EndActive(old(Now()), repo, intent)
    {
      if activeGlobal > 0 { activeGlobal := activeGlobal - 1; }
      if repo in activeByRepo && activeByRepo[repo] > 0 {
        activeByRepo := activeByRepo[repo := activeByRepo[repo] - 1];
      }
      processByIntent := processByIntent - {intent};
      stagingByIntent := stagingByIntent - {intent};
    }

    method Enqueue()
      requires Valid()
      modifies this`queuedGlobal
      ensures Valid() && Now() == old(Now()).(queuedGlobal := old(queuedGlobal) + 1)
    {
      queuedGlobal := queuedGlobal + 1;
    }

    method AddNeverAvailable(n: nat)
      requires Valid()
      modifies this`neverAvailBytes
      ensures Valid() && Now() == Charge(old(Now()), n)
    {
      if n > 0 { neverAvailBytes := neverAvailBytes + n; }
    }

    method RemoveNeverAvailable(n: nat)
      requires Valid()
      modifies this`neverAvailBytes
      ensures Valid() && Now() == Uncharge(old(Now()), n)
    {
      if n <= 0 { return; }
      neverAvailBytes := neverAvailBytes - n;
      if neverAvailBytes < 0 { neverAvailBytes := 0; }
    }
  }

  datatype Stage = InFlight | Stopped | Available

  /** A durable preparation record, as far as the age sweep looks at it. */
  datatype PrepRecord = PrepRecord(id: PrepId, stage: Stage, agedOut: bool)

  predicate Orphan(rec: PrepRecord) {
    rec.stage.Stopped? && rec.agedOut
  }

  /** The first `max` orphans in the store's order; all of them when `max` is not positive. */
  function OrphansToClean(recs: seq<PrepRecord>, max: int): seq<PrepId> {
    if recs == [] then []
    else
      var before, last := OrphansToClean(recs[..|recs| - 1], max), recs[|recs| - 1];
      if (max > 0 && |before| >= max) || !Orphan(last) then before else before + [last.id]
  }

  function ReleaseAccounts(s: State, ids: seq<PrepId>): State {
    if ids == [] then s else DoReleaseAccount(ReleaseAccounts(s, ids[..|ids| - 1]), ids[|ids| - 1])
  }

  /** Once the bound is reached the rest of the store does not matter. */
  lemma {:induction false} OrphansFull(recs: seq<PrepRecord>, max: int, i: nat)
    requires i <= |recs| && max > 0 && |OrphansToClean(recs[..i], max)| >= max
    ensures OrphansToClean(recs, max) == OrphansToClean(recs[..i], max)
    decreases |recs|
  {
    if i == |recs| {
      assert recs[..i] == recs;
    } else {
      assert recs[..|recs| - 1][..i] == recs[..i];
      OrphansFull(recs[..|recs| - 1], max, i);
    }
  }

  class Controller {
    const cap: Capacity
    var neverAvailSize: map<PrepId, nat>
    var workers: map<PrepId, IntentId>
    ghost var outstanding: map<IntentId, Hold>
    ghost var queuedRefusals: nat
    ghost var leaked: map<RepoKey, nat>
    ghost var leakedIntents: set<IntentId>
    ghost var records: map<PrepId, Identity>
    ghost var vanished: set<PrepId>

    ghost predicate Valid()
      reads this, cap
    {
      cap.Valid()
    }

    ghost function Model(): State
      requires Valid()
      reads this, cap
    {
      State(cap.Now(), outstanding, neverAvailSize, queuedRefusals, leaked, leakedIntents, records, vanished)
    }

    constructor ()
      ensures Valid() && Model() == INITIAL && fresh(cap)
    {
      cap := new Capacity();
      neverAvailSize, workers, outstanding, queuedRefusals, leaked, leakedIntents := map[], map[], map[], 0, map[], {};
      records, vanished := map[], {};
    }

    method TryAdmit(prep: PrepId, repo: RepoKey, intent: IntentId) returns (ok: bool)
      requires Valid()
      modifies this`outstanding, this`queuedRefusals, cap
      ensures Valid() && Model() == DoAdmit(old(Model()), prep, repo, intent)
      ensures ok == PreparationCapacity.AdmitClone(old(Model()).counters, repo, intent, 0).Admitted?
    {
      var code := cap.AdmitClone(repo, intent, 0);
      if code == Admitted {
        cap.BeginActive(repo, intent);
        outstanding := outstanding[intent := Hold(prep, repo, false)];
        return true;
      }
      if code == ActiveFull {
        cap.Enqueue();
        queuedRefusals := queuedRefusals + 1;
      }
      return false;
    }

    /** `StartCloneAdmitted`: the worker is entered under its preparation, over any older one. */
    method StartCloneAdmitted(prep: PrepId, intent: IntentId)
      requires Valid() && Enabled(Model(), StartClone(intent))
      modifies this`outstanding, this`workers
      ensures Valid() && Model() == Next(old(Model()), StartClone(intent)) && workers == old(workers)[prep := intent]
    {
      workers := workers[prep := intent];
      outstanding := outstanding[intent := outstanding[intent].(running := true)];
    }

    /** `ReleaseAdmit` and the end of `finishWorker`, told some preparation's repository and intent. */
    method Release(ghost held: IntentId, repo: RepoKey, intent: IntentId)
      requires Valid()
      modifies this`outstanding, cap
      ensures Valid() && Model() == DoRelease(old(Model()), held, repo, intent)
    {
      cap.EndActive(repo, intent);
      outstanding := outstanding - {held};
    }

    /** `finishWorker`: the table entry goes only if it is still this worker's. */
    method FinishWorker(id: PrepId, repo: RepoKey, intent: IntentId)
      requires Valid()
      modifies this`outstanding, this`workers, cap
      ensures Valid() && Model() == DoRelease(old(Model()), intent, repo, intent)
      ensures workers == if id in old(workers) && old(workers)[id] == intent then old(workers) - {id} else old(workers)
    {
      if id in workers && workers[id] == intent { workers := workers - {id}; }
      Release(intent, repo, intent);
    }

    method AccountClonePath(id: PrepId, bytes: nat)
      requires Valid()
      modifies this`neverAvailSize, cap
      ensures Valid() && Model() == DoAccount(old(Model()), id, bytes)
    {
      if id in neverAvailSize { cap.RemoveNeverAvailable(neverAvailSize[id]); }
      neverAvailSize := neverAvailSize[id := bytes];
      cap.AddNeverAvailable(bytes);
    }

    method ReleaseNeverAvailableAccount(id: PrepId)
      requires Valid()
      modifies this`neverAvailSize, cap
      ensures Valid() && Model() == DoReleaseAccount(old(Model()), id)
    {
      if id in neverAvailSize {
        cap.RemoveNeverAvailable(neverAvailSize[id]);
        neverAvailSize := neverAvailSize - {id};
      }
    }

    /** `SweepNeverAvailableOrphansN`: at most `max` of the stopped, aged-out records, in order. */
    method SweepNeverAvailableOrphansN(recs: seq<PrepRecord>, max: int) returns (cleaned: seq<PrepId>)
      requires Valid()
      modifies this`neverAvailSize, cap
      ensures Valid() && cleaned == OrphansToClean(recs, max)
      ensures Model() == ReleaseAccounts(old(Model()), cleaned)
    {
      cleaned := [];
      var i := 0;
      while i < |recs| && !(max > 0 && |cleaned| >= max)
        invariant 0 <= i <= |recs| && Valid()
        invariant cleaned == OrphansToClean(recs[..i], max)
        invariant Model() == ReleaseAccounts(old(Model()), cleaned)
      {
        assert recs[..i + 1][..i] == recs[..i];
        if Orphan(recs[i]) {
          ReleaseNeverAvailableAccount(recs[i].id);
          assert (cleaned + [recs[i].id])[..|cleaned|] == cleaned;
          cleaned := cleaned + [recs[i].id];
        }
        i := i + 1;
      }
      if i == |recs| { assert recs[..i] == recs; } else { OrphansFull(recs, max, i); }
    }
  }

  /** Every id cleaned is an orphan's, and a positive bound is respected; unbounded, every orphan goes. */
  lemma {:induction false} OrphansToCleanBounded(recs: seq<PrepRecord>, max: int)
    ensures max > 0 ==> |OrphansToClean(recs, max)| <= max
    ensures forall id :: id in OrphansToClean(recs, max) ==>
              exists i :: 0 <= i < |recs| && recs[i].id == id && Orphan(recs[i])
    ensures max <= 0 || |OrphansToClean(recs, max)| < max ==>
              forall i :: 0 <= i < |recs| && Orphan(recs[i]) ==> recs[i].id in OrphansToClean(recs, max)
  {
    if recs != [] {
      var init := recs[..|recs| - 1];
      OrphansToCleanBounded(init, max);
      forall id | id in OrphansToClean(recs, max)
        ensures exists i :: 0 <= i < |recs| && recs[i].id == id && Orphan(recs[i])
      {
        if id in OrphansToClean(init, max) {
          var i :| 0 <= i < |init| && init[i].id == id && Orphan(init[i]);
          assert recs[i].id == id;
        } else {
          assert recs[|recs| - 1].id == id;
        }
      }
      forall i | (max <= 0 || |OrphansToClean(recs, max)| < max) && 0 <= i < |recs| && Orphan(recs[i])
        ensures recs[i].id in OrphansToClean(recs, max)
      {
        assert i < |init| ==> init[i] == recs[i];
      }
    }
  }
}
