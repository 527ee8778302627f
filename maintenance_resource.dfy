/**
 * The schedule resource of the maintenance-scheduling use case: loading the one
 * schedule from the repositories, persisting the solver's decisions back, and the
 * status-first read of the current schedule.
 */
module MaintenanceResource {
  import opened Wrappers
  import opened ListingOrder
  import opened MaintenanceDomain
  import opened AssignmentDeltas

  /** The steps of one `getSchedule` request, in the order they happen. */
  datatype Event =
    | StatusRead(status: SolverStatus)
    | SolutionLoaded
    | ScoreUpdated
    | StatusAttached(status: SolverStatus)

  /** One `getSchedule` request reads the status before it loads the solution, and
      attaches that same status afterwards. */
  ghost predicate StatusFirstRound(round: seq<Event>)
  {
    && |round| == 4
    && round[0].StatusRead?
    && round[1] == SolutionLoaded
    && round[2] == ScoreUpdated
    && round[3] == StatusAttached(round[0].status)
  }

  /** The schedule's collections list the tables, each in its repository's sort order. */
  ghost predicate ListsTables(
    s: MaintenanceSchedule,
    units: map<int, MaintainableUnit>,
    exclusives: map<int, MutuallyExclusiveJobs>,
    crews: map<int, MaintenanceCrew>,
    grains: map<int, TimeGrain>,
    jobs: map<int, MaintenanceJobAssignment>)
  {
    && IsListing(units, UnitKey, s.units)
    && IsListing(exclusives, ExclusiveKey, s.exclusives)
    && IsListing(crews, CrewKey, s.crews)
    && IsListing(grains, GrainKey, s.grains)
    && IsListing(jobs, AssignmentKey, s.assignments)
  }

  /** The loaded schedule is determined by the tables: two loads of the same tables
      give the same collections. */
  lemma LoadedScheduleUnique(
    s1: MaintenanceSchedule, s2: MaintenanceSchedule,
    units: map<int, MaintainableUnit>,
    exclusives: map<int, MutuallyExclusiveJobs>,
    crews: map<int, MaintenanceCrew>,
    grains: map<int, TimeGrain>,
    jobs: map<int, MaintenanceJobAssignment>)
    requires ListsTables(s1, units, exclusives, crews, grains, jobs)
    requires ListsTables(s2, units, exclusives, crews, grains, jobs)
    requires s1.score == s2.score && s1.solverStatus == s2.solverStatus
    ensures s1 == s2
  {
    ListingUnique(units, UnitKey, s1.units, s2.units);
    ListingUnique(exclusives, ExclusiveKey, s1.exclusives, s2.exclusives);
    ListingUnique(crews, CrewKey, s1.crews, s2.crews);
    ListingUnique(grains, GrainKey, s1.grains, s2.grains);
    ListingUnique(jobs, AssignmentKey, s1.assignments, s2.assignments);
  }

  /**
   * The resource with the contents of its five repositories (one table per record
   * kind, keyed by id) and the status the solver manager reports for the schedule.
   */
  class MaintenanceScheduleResource {
    var units: map<int, MaintainableUnit>
    var exclusives: map<int, MutuallyExclusiveJobs>
    var crews: map<int, MaintenanceCrew>
    var grains: map<int, TimeGrain>
    var jobs: map<int, MaintenanceJobAssignment>
    /** What `solverManager.getSolverStatus(SINGLETON_SCHEDULE_ID)` answers now. */
    var solverStatus: SolverStatus
    /** The steps taken by `getSchedule` requests so far. */
    ghost var events: seq<Event>

    /** Every stored record is stored under its own id. */
    ghost predicate Valid()
      reads this
    {
      && KeyedBy(units, UnitKey)
      && KeyedBy(exclusives, ExclusiveKey)
      && KeyedBy(crews, CrewKey)
      && KeyedBy(grains, GrainKey)
      && KeyedBy(jobs, AssignmentKey)
    }

    ghost predicate ListsStore(s: MaintenanceSchedule)
      reads this
    {
      ListsTables(s, units, exclusives, crews, grains, jobs)
    }

    constructor (
      units: map<int, MaintainableUnit>,
      exclusives: map<int, MutuallyExclusiveJobs>,
      crews: map<int, MaintenanceCrew>,
      grains: map<int, TimeGrain>,
      jobs: map<int, MaintenanceJobAssignment>)
      requires KeyedBy(units, UnitKey) && KeyedBy(exclusives, ExclusiveKey) && KeyedBy(crews, CrewKey)
      requires KeyedBy(grains, GrainKey) && KeyedBy(jobs, AssignmentKey)
      ensures Valid()
      ensures this.units == units && this.exclusives == exclusives && this.crews == crews
      ensures this.grains == grains && this.jobs == jobs
      ensures solverStatus == NotSolving && events == []
    {
      this.units, this.exclusives, this.crews := units, exclusives, crews;
      this.grains, this.jobs := grains, jobs;
      solverStatus := NotSolving;
      events := [];
    }

    /** `getSolverStatus`: what the solver manager reports for the singleton schedule. */
    function GetSolverStatus(): (s: SolverStatus)
      reads this
      ensures s == solverStatus
    {
      solverStatus
    }

    /**
     * `findById`: only the singleton id names a schedule; for it, the schedule holds
     * every stored record, each collection in its repository's sort order, with no
     * score and no status yet.
     */
    method FindById(id: int) returns (r: Result<MaintenanceSchedule, Error>)
      requires Valid()
      ensures r.Failure? <==> id != SingletonScheduleId
      ensures r.Failure? ==> r.error == NoScheduleWithId(id)
      ensures r.Success? ==> ListsStore(r.value)
      ensures r.Success? ==> r.value.score == None && r.value.solverStatus == None
    {
      if id != SingletonScheduleId {
        return Failure(NoScheduleWithId(id));
      }
      var unitList := ListAll(units, UnitKey);
      var exclusiveList := ListAll(exclusives, ExclusiveKey);
      var crewList := ListAll(crews, CrewKey);
      var grainList := ListAll(grains, GrainKey);
      var jobList := ListAll(jobs, AssignmentKey);
      r := Success(MaintenanceSchedule(unitList, exclusiveList, crewList, grainList, jobList, None, None));
    }

    /**
     * `save`: the solver's improvement callback. For each listed assignment, in list
     * order, the stored record with the same id gets the assignment's starting time
     * grain and crew. An id without a stored record makes the loop throw; the
     * transaction then persists nothing.
     */
    method Save(schedule: MaintenanceSchedule) returns (r: Result<(), Error>)
      requires Valid()
      modifies this`jobs
      ensures Valid()
      ensures FirstMissing(old(jobs), schedule.assignments).None? ==>
        r == Success(()) && jobs == ApplyDeltas(old(jobs), schedule.assignments)
      ensures FirstMissing(old(jobs), schedule.assignments).Some? ==>
        r == Failure(NoPersistedAssignment(FirstMissing(old(jobs), schedule.assignments).value)) && jobs == old(jobs)
    {
      var list := schedule.assignments;
      var committed := jobs;
      var i := 0;
      while i < |list|
        invariant 0 <= i <= |list|
        invariant jobs == ApplyDeltas(committed, list[..i])
        invariant forall j :: 0 <= j < i ==> list[j].id in committed
      {
        var job := list[i];
        assert list[..i + 1][..i] == list[..i];
        ApplyDeltasAt(committed, list[..i]);
        if job.id !in jobs {
          FirstMissingAt(committed, list, i);
          jobs := committed;
          return Failure(NoPersistedAssignment(job.id));
        }
        var persisted := jobs[job.id];
        jobs := jobs[job.id := persisted.(startingTimeGrain := job.startingTimeGrain, assignedCrew := job.assignedCrew)];
        i := i + 1;
      }
      assert list[..i] == list;
      FirstMissingSpec(committed, list);
      ApplyDeltasKeyed(committed, list);
      r := Success(());
    }

    /**
     * `getSchedule`: reads the solver status first, then loads the schedule, has the
     * external score calculator set its score, and attaches the status read at the
     * start.
     */
    method GetSchedule(scoreOf: MaintenanceSchedule -> HardSoftScore) returns (r: MaintenanceSchedule)
      requires Valid()
      modifies this`events
      ensures |events| == |old(events)| + 4 && events[..|old(events)|] == old(events)
      ensures StatusFirstRound(events[|old(events)|..]) && events[|old(events)|].status == solverStatus
      ensures r.solverStatus == Some(solverStatus)
      ensures ListsStore(r.(score := None, solverStatus := None))
      ensures r.score == Some(scoreOf(r.(score := None, solverStatus := None)))
    {
      var status := GetSolverStatus();
      events := events + [StatusRead(status)];
      var found := FindById(SingletonScheduleId);
      var solution := found.value;
      events := events + [SolutionLoaded];
      solution := solution.(score := Some(scoreOf(solution)));
      events := events + [ScoreUpdated];
      solution := solution.(solverStatus := Some(status));
      events := events + [StatusAttached(status)];
      r := solution;
    }
  }
}
