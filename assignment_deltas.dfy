/**
 * What `save` does to the stored assignments, as a function of the stored table
 * and the solver's assignment list: each listed assignment overwrites the two
 * decision fields of the stored record with the same id.
 */
module AssignmentDeltas {
  import opened Wrappers
  import opened ListingOrder
  import opened MaintenanceDomain

  type Store = map<int, MaintenanceJobAssignment>

  /** The stored record with the decisions of `job` copied in. */
  function WithDecisions(persisted: MaintenanceJobAssignment, job: MaintenanceJobAssignment): (r: MaintenanceJobAssignment)
  {
    persisted.(startingTimeGrain := job.startingTimeGrain, assignedCrew := job.assignedCrew)
  }

  /** One iteration of the save loop (a missing id leaves the table as it is;
      the loop itself fails there, see FirstMissing). */
  function ApplyDelta(store: Store, job: MaintenanceJobAssignment): (r: Store)
  {
    if job.id in store then store[job.id := WithDecisions(store[job.id], job)] else store
  }

  /** The whole save loop, in list order. */
  function ApplyDeltas(store: Store, jobs: seq<MaintenanceJobAssignment>): (r: Store)
  {
    if jobs == [] then store
    else ApplyDelta(ApplyDeltas(store, jobs[..|jobs| - 1]), jobs[|jobs| - 1])
  }

  /** The last assignment in the list with id `k`, if any. */
  function LastDelta(jobs: seq<MaintenanceJobAssignment>, k: int): (r: Option<MaintenanceJobAssignment>)
  {
    if jobs == [] then None
    else if jobs[|jobs| - 1].id == k then Some(jobs[|jobs| - 1])
    else LastDelta(jobs[..|jobs| - 1], k)
  }

  /** The id of the first listed assignment that has no stored record: the one whose
      lookup returns null and makes the loop throw. */
  function FirstMissing(store: Store, jobs: seq<MaintenanceJobAssignment>): (r: Option<int>)
  {
    if jobs == [] then None
    else if jobs[0].id !in store then Some(jobs[0].id)
    else FirstMissing(store, jobs[1..])
  }

  /** The stored record after the list has been applied. */
  function Overlay(persisted: MaintenanceJobAssignment, last: Option<MaintenanceJobAssignment>): (r: MaintenanceJobAssignment)
  {
    match last
    case None => persisted
    case Some(job) => WithDecisions(persisted, job)
  }

  /** The save loop keeps the set of stored ids and, for each stored id, leaves the
      record as it was unless the list mentions it, in which case the last mention
      provides both decision fields. */
  lemma {:induction false} ApplyDeltasAt(store: Store, jobs: seq<MaintenanceJobAssignment>)
    ensures ApplyDeltas(store, jobs).Keys == store.Keys
    ensures forall k :: k in store ==> ApplyDeltas(store, jobs)[k] == Overlay(store[k], LastDelta(jobs, k))
  {
    if jobs != [] {
      var init, job := jobs[..|jobs| - 1], jobs[|jobs| - 1];
      ApplyDeltasAt(store, init);
    }
  }

  lemma {:induction false} LastDeltaIsLast(jobs: seq<MaintenanceJobAssignment>, i: nat)
    requires i < |jobs|
    requires forall j :: i < j < |jobs| ==> jobs[j].id != jobs[i].id
    ensures LastDelta(jobs, jobs[i].id) == Some(jobs[i])
  {
    if i < |jobs| - 1 {
      var init := jobs[..|jobs| - 1];
      LastDeltaIsLast(init, i);
    }
  }

  lemma {:induction false} LastDeltaAbsent(jobs: seq<MaintenanceJobAssignment>, k: int)
    requires forall j :: 0 <= j < |jobs| ==> jobs[j].id != k
    ensures LastDelta(jobs, k) == None
  {
    if jobs != [] {
      LastDeltaAbsent(jobs[..|jobs| - 1], k);
    }
  }

  /** Last write wins: a stored record mentioned in the list ends up with the decision
      fields of its last mention and keeps its other fields. */
  lemma LastWriteWins(store: Store, jobs: seq<MaintenanceJobAssignment>, i: nat)
    requires i < |jobs| && jobs[i].id in store
    requires forall j :: i < j < |jobs| ==> jobs[j].id != jobs[i].id
    ensures jobs[i].id in ApplyDeltas(store, jobs)
    ensures ApplyDeltas(store, jobs)[jobs[i].id]
         == store[jobs[i].id].(startingTimeGrain := jobs[i].startingTimeGrain, assignedCrew := jobs[i].assignedCrew)
  {
    ApplyDeltasAt(store, jobs);
    LastDeltaIsLast(jobs, i);
  }

  /** A stored record the list does not mention is left exactly as it was. */
  lemma {:induction false} UnmentionedUnchanged(store: Store, jobs: seq<MaintenanceJobAssignment>, k: int)
    requires k in store
    requires forall j :: 0 <= j < |jobs| ==> jobs[j].id != k
    ensures k in ApplyDeltas(store, jobs) && ApplyDeltas(store, jobs)[k] == store[k]
  {
    ApplyDeltasAt(store, jobs);
    LastDeltaAbsent(jobs, k);
  }

  /** Only the two decision fields change: no record is added or removed and every
      record keeps its id and its fixed job. */
  lemma {:induction false} OnlyDecisionsChange(store: Store, jobs: seq<MaintenanceJobAssignment>)
    ensures ApplyDeltas(store, jobs).Keys == store.Keys
    ensures forall k :: k in store ==>
      ApplyDeltas(store, jobs)[k].id == store[k].id && ApplyDeltas(store, jobs)[k].jobId == store[k].jobId
  {
    ApplyDeltasAt(store, jobs);
    forall k | k in store
      ensures ApplyDeltas(store, jobs)[k].id == store[k].id && ApplyDeltas(store, jobs)[k].jobId == store[k].jobId
    {
      match LastDelta(jobs, k)
      case None =>
      case Some(_) =>
    }
  }

  /** The saved assignments stay stored under their own ids. */
  lemma {:induction false} ApplyDeltasKeyed(store: Store, jobs: seq<MaintenanceJobAssignment>)
    requires KeyedBy(store, AssignmentKey)
    ensures KeyedBy(ApplyDeltas(store, jobs), AssignmentKey)
  {
    OnlyDecisionsChange(store, jobs);
  }

  /** Saving the same list twice leaves the table as saving it once. */
  lemma ApplyDeltasIdempotent(store: Store, jobs: seq<MaintenanceJobAssignment>)
    ensures ApplyDeltas(ApplyDeltas(store, jobs), jobs) == ApplyDeltas(store, jobs)
  {
    var once := ApplyDeltas(store, jobs);
    ApplyDeltasAt(store, jobs);
    ApplyDeltasAt(once, jobs);
    forall k | k in once
      ensures ApplyDeltas(once, jobs)[k] == once[k]
    {
      match LastDelta(jobs, k)
      case None =>
      case Some(_) =>
    }
  }

  /** The loop fails exactly when some listed id has no stored record, and then at the
      first such id. */
  lemma {:induction false} FirstMissingSpec(store: Store, jobs: seq<MaintenanceJobAssignment>)
    ensures FirstMissing(store, jobs).None? <==> forall j :: 0 <= j < |jobs| ==> jobs[j].id in store
    ensures FirstMissing(store, jobs).Some? ==>
      exists i :: 0 <= i < |jobs| && jobs[i].id == FirstMissing(store, jobs).value && jobs[i].id !in store
                  && forall j :: 0 <= j < i ==> jobs[j].id in store
  {
    if jobs != [] {
      FirstMissingSpec(store, jobs[1..]);
      if jobs[0].id in store && FirstMissing(store, jobs[1..]).Some? {
        var i :| 0 <= i < |jobs[1..]| && jobs[1..][i].id == FirstMissing(store, jobs[1..]).value && jobs[1..][i].id !in store
                  && forall j :: 0 <= j < i ==> jobs[1..][j].id in store;
        assert jobs[i + 1] == jobs[1..][i];
        assert forall j :: 0 < j <= i ==> jobs[j] == jobs[1..][j - 1];
      }
      if jobs[0].id in store && FirstMissing(store, jobs[1..]).None? {
        assert forall j :: 0 < j < |jobs| ==> jobs[j] == jobs[1..][j - 1];
      }
    }
  }

  /** Where the loop stops: at index `i` when all earlier ids are stored and `jobs[i].id` is not. */
  lemma {:induction false} FirstMissingAt(store: Store, jobs: seq<MaintenanceJobAssignment>, i: nat)
    requires i < |jobs| && jobs[i].id !in store
    requires forall j :: 0 <= j < i ==> jobs[j].id in store
    ensures FirstMissing(store, jobs) == Some(jobs[i].id)
  {
    if i > 0 {
      assert forall j :: 0 <= j < i - 1 ==> jobs[1..][j] == jobs[j + 1];
      FirstMissingAt(store, jobs[1..], i - 1);
    }
  }

  /** Whether the loop fails depends only on which ids are stored, so a second save
      of the same list fails or succeeds as the first did. */
  lemma {:induction false} FirstMissingOnKeys(store: Store, other: Store, jobs: seq<MaintenanceJobAssignment>)
    requires store.Keys == other.Keys
    ensures FirstMissing(store, jobs) == FirstMissing(other, jobs)
  {
    if jobs != [] {
      FirstMissingOnKeys(store, other, jobs[1..]);
    }
  }

  /** Running the save loop a second time with the same list ends as the first run did:
      it fails at the same id when the first failed, and otherwise changes nothing. */
  lemma SaveTwiceAsOnce(store: Store, jobs: seq<MaintenanceJobAssignment>)
    ensures FirstMissing(ApplyDeltas(store, jobs), jobs) == FirstMissing(store, jobs)
    ensures ApplyDeltas(ApplyDeltas(store, jobs), jobs) == ApplyDeltas(store, jobs)
  {
    ApplyDeltasAt(store, jobs);
    FirstMissingOnKeys(ApplyDeltas(store, jobs), store, jobs);
    ApplyDeltasIdempotent(store, jobs);
  }
}
