/**
 * The records of the maintenance-scheduling use case, reduced to the fields the
 * schedule resource reads, sorts by or writes. Ids are the primary keys.
 */
module MaintenanceDomain {
  import opened Wrappers
  import opened ListingOrder

  /** The id under which the one and only schedule is known. */
  const SingletonScheduleId: int := 1

  datatype SolverStatus = NotSolving | SolvingScheduled | SolvingActive

  datatype HardSoftScore = HardSoftScore(hard: int, soft: int)

  datatype MaintainableUnit = MaintainableUnit(id: int, unitName: string)

  datatype MaintenanceCrew = MaintenanceCrew(id: int, crewName: string)

  datatype TimeGrain = TimeGrain(id: int, grainIndex: int)

  /** A group of jobs that must not overlap in time. */
  datatype MutuallyExclusiveJobs = MutuallyExclusiveJobs(id: int, jobIds: set<int>)

  /**
   * One job to plan. `jobId` stands for the fixed, non-decision part of the record;
   * `startingTimeGrain` and `assignedCrew` are the two decision variables the solver
   * changes (`None` is "not yet assigned").
   */
  datatype MaintenanceJobAssignment = MaintenanceJobAssignment(
    id: int,
    jobId: int,
    startingTimeGrain: Option<TimeGrain>,
    assignedCrew: Option<MaintenanceCrew>)

  /** The planning solution; `score` and `solverStatus` are transient, filled in on read. */
  datatype MaintenanceSchedule = MaintenanceSchedule(
    units: seq<MaintainableUnit>,
    exclusives: seq<MutuallyExclusiveJobs>,
    crews: seq<MaintenanceCrew>,
    grains: seq<TimeGrain>,
    assignments: seq<MaintenanceJobAssignment>,
    score: Option<HardSoftScore>,
    solverStatus: Option<SolverStatus>)

  datatype Error =
    | NoScheduleWithId(scheduleId: int)   // IllegalStateException in findById
    | NoPersistedAssignment(jobId: int)   // null from the repository, dereferenced in save

  // The sort of each repository listing.
  function UnitKey(u: MaintainableUnit): SortKey { ByName(u.unitName, u.id) }
  function ExclusiveKey(e: MutuallyExclusiveJobs): SortKey { ById(e.id) }
  function CrewKey(c: MaintenanceCrew): SortKey { ByName(c.crewName, c.id) }
  function GrainKey(g: TimeGrain): SortKey { ByIndex(g.grainIndex, g.id) }
  function AssignmentKey(a: MaintenanceJobAssignment): SortKey { ById(a.id) }
}
