# Maintenance schedule resource and school-timetabling room, in Dafny

This project models two small parts of the OptaPlanner quickstarts.

**Maintenance scheduling.** `MaintenanceScheduleResource` serves the one maintenance schedule. The schedule's id is `SINGLETON_SCHEDULE_ID = 1`.
- `findById` loads the schedule from five repositories. Each collection is listed in its repository's sort order, with `id` as the tie-break.
- `save` is the solver's improvement callback. It copies the two decision fields of each assignment, `startingTimeGrain` and `assignedCrew`, onto the stored record with the same id.
- `getSchedule` reads the solver status before it loads the schedule. It then attaches that status to the loaded schedule.

The repositories are a class with one `map` per table, keyed by id (`MaintenanceResource.MaintenanceScheduleResource`).
- `save` is a loop that updates the `jobs` table in place. It is proved against a pure specification, `AssignmentDeltas.ApplyDeltas`.
- Last-write-wins, "nothing else changes", idempotence and the failure on a missing id are lemmas about that specification.
- `listAll(Sort.by(..).and("id"))` is the method `ListingOrder.ListAll`. It reads the table's rows in any order and inserts them into a sorted list. It is proved to return the unique strictly sorted listing of the table.
- `getSchedule` records its steps in a ghost event trace.

**School timetabling.** A `Room` has a trimmed name and optional coordinates. A missing coordinate reads as 0.
- The distance between two rooms is `round(sqrt(dx² + dy²))`. It is specified without floating point: the result `k` is the unique natural with `n <= k² + k` and (`k = 0` or `k² - k < n`), where `n = dx² + dy²`.
- `dx` and `dy` are Java `int` subtractions. They wrap modulo 2^32, and the model writes the wrap out (`JavaInt.Sub32`).
- The distance's properties are lemmas: symmetry, zero at the same place, absent coordinates meaning the origin, exactness along an axis, and the wrap.

Files:
- `wrappers.dfy`: Option and Result.
- `listing_order.dfy`: sort keys, their order, `ListAll`.
- `maintenance_domain.dfy`: the records and the singleton id.
- `assignment_deltas.dfy`: the pure specification of `save`.
- `maintenance_resource.dfy`: the resource class.
- `java_int.dfy`: 32-bit `int` and the rounded square root.
- `java_strings.dfy`: `String.trim`.
- `room.dfy`: `Room`.

## Model

| member | source | states |
|---|---|---|
| ListingOrder.ListAll | use-cases/maintenance-scheduling/src/main/java/org/acme/maintenancescheduling/rest/MaintenanceScheduleResource.java:96-101 | `listAll(Sort...)` returns every row of the table exactly once, strictly ordered by the sort field and then by id |
| ListingOrder.ListingUnique | use-cases/maintenance-scheduling/src/main/java/org/acme/maintenancescheduling/rest/MaintenanceScheduleResource.java:96-101 | two listings of the same table are equal, so a listing does not depend on the order in which the store yields its rows |
| ListingOrder.SortedWithSameRowsEqual | use-cases/maintenance-scheduling/src/main/java/org/acme/maintenancescheduling/rest/MaintenanceScheduleResource.java:96-101 | two strictly sorted lists with the same rows are the same list |
| ListingOrder.Insert | use-cases/maintenance-scheduling/src/main/java/org/acme/maintenancescheduling/rest/MaintenanceScheduleResource.java:96-101 | inserting a row with a new key into a sorted listing keeps it strictly sorted and adds exactly that row |
| ListingOrder.PrecedesTotal | use-cases/maintenance-scheduling/src/main/java/org/acme/maintenancescheduling/rest/MaintenanceScheduleResource.java:97-101 | two different (field, id) keys are always ordered one way or the other |
| ListingOrder.PrecedesTransitive | use-cases/maintenance-scheduling/src/main/java/org/acme/maintenancescheduling/rest/MaintenanceScheduleResource.java:97-101 | the (field, id) order is transitive, including the lexicographic order on names |
| ListingOrder.LexLessTotal | use-cases/maintenance-scheduling/src/main/java/org/acme/maintenancescheduling/rest/MaintenanceScheduleResource.java:97-99 | any two different names are ordered lexicographically |
| MaintenanceResource.MaintenanceScheduleResource.FindById | use-cases/maintenance-scheduling/src/main/java/org/acme/maintenancescheduling/rest/MaintenanceScheduleResource.java:91-102 | fails with "no schedule with id" exactly when the id is not 1; for id 1 it returns units by (unitName, id), exclusion groups by id, crews by (crewName, id), time grains by (grainIndex, id) and assignments by id, each list holding every stored row, with no score and no status |
| MaintenanceResource.LoadedScheduleUnique | use-cases/maintenance-scheduling/src/main/java/org/acme/maintenancescheduling/rest/MaintenanceScheduleResource.java:96-101 | the schedule that `findById(1)` loads is determined by the stored tables |
| MaintenanceResource.MaintenanceScheduleResource.Save | use-cases/maintenance-scheduling/src/main/java/org/acme/maintenancescheduling/rest/MaintenanceScheduleResource.java:104-112 | when every listed id is stored, the jobs table becomes ApplyDeltas(old table, list); otherwise the result is a failure naming the first listed id that is not stored, and the table is unchanged |
| AssignmentDeltas.ApplyDeltasKeyed | use-cases/maintenance-scheduling/src/main/java/org/acme/maintenancescheduling/rest/MaintenanceScheduleResource.java:108-110 | after a save, every stored assignment is still stored under its own id |
| MaintenanceResource.MaintenanceScheduleResource.GetSchedule | use-cases/maintenance-scheduling/src/main/java/org/acme/maintenancescheduling/rest/MaintenanceScheduleResource.java:62-70 | the trace keeps its earlier steps and gains four, in this order: status read, solution loaded, score updated, status attached; the status read is the current solver status and the attached status is the one read first; the collections are those `findById(1)` lists; the score is the external scorer's value for that solution |
| MaintenanceResource.MaintenanceScheduleResource.GetSolverStatus | use-cases/maintenance-scheduling/src/main/java/org/acme/maintenancescheduling/rest/MaintenanceScheduleResource.java:72-74 | returns the status the solver manager currently reports for the singleton schedule |
| MaintenanceResource.MaintenanceScheduleResource.constructor | use-cases/maintenance-scheduling/src/main/java/org/acme/maintenancescheduling/rest/MaintenanceScheduleResource.java:44-53 | the resource starts with the given repository tables, status NOT_SOLVING and an empty trace |
| AssignmentDeltas.ApplyDeltasAt | use-cases/maintenance-scheduling/src/main/java/org/acme/maintenancescheduling/rest/MaintenanceScheduleResource.java:106-111 | the save loop keeps the set of stored ids; each stored record is unchanged unless the list mentions its id, in which case it takes the decision fields of the last mention |
| AssignmentDeltas.LastWriteWins | use-cases/maintenance-scheduling/src/main/java/org/acme/maintenancescheduling/rest/MaintenanceScheduleResource.java:106-111 | a stored record whose id is listed ends with `startingTimeGrain` and `assignedCrew` from the last occurrence of that id and all other fields as stored |
| AssignmentDeltas.UnmentionedUnchanged | use-cases/maintenance-scheduling/src/main/java/org/acme/maintenancescheduling/rest/MaintenanceScheduleResource.java:108-110 | a stored record whose id is not listed is left exactly as it was |
| AssignmentDeltas.OnlyDecisionsChange | use-cases/maintenance-scheduling/src/main/java/org/acme/maintenancescheduling/rest/MaintenanceScheduleResource.java:108-110 | no record is added or removed, and every record keeps its id and its fixed job |
| AssignmentDeltas.ApplyDeltasIdempotent | use-cases/maintenance-scheduling/src/main/java/org/acme/maintenancescheduling/rest/MaintenanceScheduleResource.java:105-112 | applying the same assignment list twice leaves the table as applying it once |
| AssignmentDeltas.SaveTwiceAsOnce | use-cases/maintenance-scheduling/src/main/java/org/acme/maintenancescheduling/rest/MaintenanceScheduleResource.java:105-112 | a second save of the same list fails at the same id if the first save failed, and otherwise leaves the table as the first save left it |
| AssignmentDeltas.FirstMissingSpec | use-cases/maintenance-scheduling/src/main/java/org/acme/maintenancescheduling/rest/MaintenanceScheduleResource.java:108-109 | the save loop fails exactly when some listed id has no stored record, and it fails at the first such id |
| AssignmentDeltas.FirstMissingAt | use-cases/maintenance-scheduling/src/main/java/org/acme/maintenancescheduling/rest/MaintenanceScheduleResource.java:108-109 | when every id before index i is stored and the id at i is not, the loop fails at that id |
| AssignmentDeltas.FirstMissingOnKeys | use-cases/maintenance-scheduling/src/main/java/org/acme/maintenancescheduling/rest/MaintenanceScheduleResource.java:108-109 | whether and where the loop fails depends only on which ids are stored |
| AssignmentDeltas.LastDeltaIsLast | use-cases/maintenance-scheduling/src/main/java/org/acme/maintenancescheduling/rest/MaintenanceScheduleResource.java:106-111 | the last mention of an id is the occurrence with no later occurrence of that id |
| JavaInt.Wrap32 | use-cases/school-timetabling/src/main/java/org/acme/schooltimetabling/domain/Room.java:94-95 | the wrapped value is a Java `int` congruent to the exact value modulo 2^32 |
| JavaInt.Sub32 | use-cases/school-timetabling/src/main/java/org/acme/schooltimetabling/domain/Room.java:94-95 | `int` subtraction is exact when the result fits in 32 bits, and congruent to the exact difference modulo 2^32 otherwise |
| JavaInt.SquareSub32Symmetric | use-cases/school-timetabling/src/main/java/org/acme/schooltimetabling/domain/Room.java:94-95 | `(a - b)²` equals `(b - a)²` under 32-bit wrap, including at -2^31 |
| JavaInt.FloorSqrt | use-cases/school-timetabling/src/main/java/org/acme/schooltimetabling/domain/Room.java:93-95 | the result s satisfies s² <= n < (s + 1)² |
| JavaInt.RoundSqrt | use-cases/school-timetabling/src/main/java/org/acme/schooltimetabling/domain/Room.java:93-95 | the result is the integer nearest to sqrt(n): n <= k² + k and (k = 0 or k² - k < n) |
| JavaInt.RoundsSqrtUnique | use-cases/school-timetabling/src/main/java/org/acme/schooltimetabling/domain/Room.java:93-95 | at most one integer is nearest to sqrt(n), because no square root of an integer lies half-way between two integers |
| JavaInt.RoundSqrtOfSquare | use-cases/school-timetabling/src/main/java/org/acme/schooltimetabling/domain/Room.java:93-95 | the rounded square root of d² is abs(d) |
| JavaStrings.TrimShape | use-cases/school-timetabling/src/main/java/org/acme/schooltimetabling/domain/Room.java:43 | `trim` removes a run of characters up to U+0020 at each end and nothing else; what it keeps neither starts nor ends with such a character |
| JavaStrings.TrimFixedPoint | use-cases/school-timetabling/src/main/java/org/acme/schooltimetabling/domain/Room.java:43 | `trim` leaves a string unchanged exactly when the string has no such character at either end |
| JavaStrings.TrimIdempotent | use-cases/school-timetabling/src/main/java/org/acme/schooltimetabling/domain/Room.java:47 | trimming an already trimmed name changes nothing |
| SchoolTimetabling.PointDistance | use-cases/school-timetabling/src/main/java/org/acme/schooltimetabling/domain/Room.java:92-96 | the distance is the integer nearest to sqrt(dx² + dy²), with dx and dy computed in 32-bit `int` |
| SchoolTimetabling.PointDistanceSymmetric | use-cases/school-timetabling/src/main/java/org/acme/schooltimetabling/domain/Room.java:92-95 | the point distance is the same in both directions |
| SchoolTimetabling.PointDistanceAlongAxis | use-cases/school-timetabling/src/main/java/org/acme/schooltimetabling/domain/Room.java:93-95 | with equal y the distance is abs(dx); with equal x it is abs(dy) |
| SchoolTimetabling.PointDistanceWrapsFarApart | use-cases/school-timetabling/src/main/java/org/acme/schooltimetabling/domain/Room.java:94-95 | x coordinates -2000000000 and 2000000000 are 294967296 apart, because the subtraction wraps |
| SchoolTimetabling.Room.Empty | use-cases/school-timetabling/src/main/java/org/acme/schooltimetabling/domain/Room.java:39-40 | the no-argument room has no id, no name and no coordinates |
| SchoolTimetabling.Room.Named | use-cases/school-timetabling/src/main/java/org/acme/schooltimetabling/domain/Room.java:42-44 | the name is stored trimmed and `toString` returns it; no coordinates |
| SchoolTimetabling.Room.Located | use-cases/school-timetabling/src/main/java/org/acme/schooltimetabling/domain/Room.java:46-50 | the name is stored trimmed and `toString` returns it; the coordinates are stored as given, absent ones included |
| SchoolTimetabling.Room.WithId | use-cases/school-timetabling/src/main/java/org/acme/schooltimetabling/domain/Room.java:52-55 | the id is stored, and the name is stored trimmed and returned by `toString` |
| SchoolTimetabling.Room.ToString | use-cases/school-timetabling/src/main/java/org/acme/schooltimetabling/domain/Room.java:57-60 | returns the stored name, absent for the no-argument room |
| SchoolTimetabling.Room.XLocation | use-cases/school-timetabling/src/main/java/org/acme/schooltimetabling/domain/Room.java:74-77 | an absent x coordinate reads as 0, a present one as itself |
| SchoolTimetabling.Room.YLocation | use-cases/school-timetabling/src/main/java/org/acme/schooltimetabling/domain/Room.java:83-86 | an absent y coordinate reads as 0, a present one as itself |
| SchoolTimetabling.Room.SetXLocation | use-cases/school-timetabling/src/main/java/org/acme/schooltimetabling/domain/Room.java:79-81 | only the x coordinate changes; y, id and name stay as they were |
| SchoolTimetabling.Room.SetYLocation | use-cases/school-timetabling/src/main/java/org/acme/schooltimetabling/domain/Room.java:88-90 | only the y coordinate changes; x, id and name stay as they were |
| SchoolTimetabling.Room.GetDistance | use-cases/school-timetabling/src/main/java/org/acme/schooltimetabling/domain/Room.java:92-96 | the result is the integer nearest to the length of the 32-bit offset between the two rooms' coordinates, with absent coordinates read as 0 |
| SchoolTimetabling.DistanceSymmetric | use-cases/school-timetabling/src/main/java/org/acme/schooltimetabling/domain/Room.java:92-95 | `a.getDistance(b) == b.getDistance(a)` |
| SchoolTimetabling.DistanceAtSamePlace | use-cases/school-timetabling/src/main/java/org/acme/schooltimetabling/domain/Room.java:92-95 | rooms with the same coordinates, a room and itself included, are 0 apart |
| SchoolTimetabling.DistanceToUnlocated | use-cases/school-timetabling/src/main/java/org/acme/schooltimetabling/domain/Room.java:74-96 | the distance to or from a room without coordinates is the distance between the origin and the other room |
| SchoolTimetabling.DistanceAlongAxis | use-cases/school-timetabling/src/main/java/org/acme/schooltimetabling/domain/Room.java:93-95 | rooms with the same y are abs(dx) apart; rooms with the same x are abs(dy) apart |

## Left out

- `solve`, `stopSolving` and `getSolverStatus` hand work to OptaPlanner's `SolverManager`, an asynchronous external engine. The status it reports is a field of the resource class, and `solveAndListen` and `terminateEarly` are not modelled.
- `scoreManager.updateScore` is opaque constraint scoring. `GetSchedule` takes the scorer as a function parameter.
- The race that the status-first order in `getSchedule` avoids is concurrency. Only the order of the steps is recorded (the ghost trace). Interleavings with the solver thread are not modelled.
- JAX-RS routing, CDI injection and Panache repositories are left out. The repositories are `map` fields keyed by id.
- `@Transactional` is modelled only by its effect on `save`: a save that throws persists nothing.
- The optimistic-locking concern in the TODO belongs to the persistence layer and is not modelled.
- ListingOrder.ListAll: names are ordered by Unicode code point. Java's UTF-16 order differs for characters above U+FFFF, and the database's collation for `ORDER BY unitName` / `crewName` is not modelled.
- The domain classes (`MaintenanceJobAssignment`, `MaintenanceSchedule` and the others) are not part of this model. Their records keep only the fields the resource reads, sorts by or writes. `jobId` stands for the fixed part of an assignment.
- MaintenanceResource.MaintenanceScheduleResource.Save: a null assignment id and a null schedule are not modelled.
- SchoolTimetabling.PointDistance: `Math.pow`, `Math.sqrt` and `Math.round` work on IEEE doubles, and the model computes the exact integer instead. For very large offsets (beyond about 2^24 per axis) the double squares and square root lose precision, and the Java result can then differ by one.
- SchoolTimetabling.Room.GetDistance: a null `room` argument (a `NullPointerException` in Java) is not modelled, because a Dafny `Room` reference is never null.
- SchoolTimetabling.Room.Named: a null `name` argument (a `NullPointerException` from `trim`) is not modelled.
- The JPA annotations and the database-generated `id` are ORM concerns. `getId` and `getName` are plain field reads, so the model reads the fields directly.
