/** The tables dispatch works on, and what each of its SQL statements reads and writes. */
module DispatchTables {
  import opened Common
  import opened JobMachine

  type JobId = nat
  type DriverId = nat
  type Time = int

  datatype AssignmentStatus =
    | Offered | OfferAccepted | OfferRejected | OfferExpired | OfferCancelled | OfferCompleted

  datatype Assignment = Assignment(job: JobId, driver: DriverId, status: AssignmentStatus, expiresAt: Time)

  datatype HoldState = Reserved | Consumed | Released | HoldExpired

  /** `assignment` is the row the hold belongs to. */
  datatype Reservation = Reservation(
    job: JobId, driver: DriverId, assignment: Option<nat>, state: HoldState, expiresAt: Time)

  datatype DriverStatus =
    | DriverOffline | DriverAvailable | DriverOffered | DriverAccepted
    | DriverOnTrip | DriverPaused | DriverSuspended | DriverBlocked

  datatype Vehicle = Vehicle(id: nat, verified: bool)

  datatype Driver = Driver(status: DriverStatus, approved: bool, vehicle: Option<Vehicle>)

  datatype Change = Change(from: Option<JobStatus>, to: JobStatus)

  datatype Job = Job(
    status: JobStatus,
    scheduledAt: Option<Time>,
    driver: Option<DriverId>,
    vehicle: Option<nat>,
    createdAt: Time,
    updatedAt: Time,
    terminatedAt: Option<Time>,
    history: seq<Change>)

  datatype AttemptOutcome = AttemptOffered | NoCandidates | NoEligible

  datatype Attempt = Attempt(
    job: JobId, number: nat, radius: nat, outcome: AttemptOutcome, offered: Option<DriverId>)

  /** Assignments, reservations and attempts are only ever appended, so a row's position is its id. */
  datatype Db = Db(
    jobs: map<JobId, Job>,
    assignments: seq<Assignment>,
    reservations: seq<Reservation>,
    drivers: map<DriverId, Driver>,
    attempts: seq<Attempt>)

  // --- what the predicates of the statements select --------------------------------

  predicate Live(a: Assignment) {
    a.status == Offered || a.status == OfferAccepted
  }

  predicate OffersTo(a: Assignment, j: JobId, d: DriverId) {
    a.job == j && a.driver == d && a.status == Offered
  }

  predicate HoldsFor(r: Reservation, j: JobId, d: DriverId) {
    r.job == j && r.driver == d && r.state == Reserved
  }

  predicate LiveAt(as_: seq<Assignment>, i: int, j: JobId) {
    0 <= i < |as_| && as_[i].job == j && Live(as_[i])
  }

  predicate OfferAt(as_: seq<Assignment>, i: int, j: JobId, d: DriverId) {
    0 <= i < |as_| && OffersTo(as_[i], j, d)
  }

  predicate HoldAt(rs: seq<Reservation>, i: int, j: JobId, d: DriverId) {
    0 <= i < |rs| && HoldsFor(rs[i], j, d)
  }

  predicate HasLive(as_: seq<Assignment>, j: JobId) {
    exists i :: 0 <= i < |as_| && LiveAt(as_, i, j)
  }

  predicate DriverHeld(rs: seq<Reservation>, d: DriverId) {
    exists i :: 0 <= i < |rs| && rs[i].driver == d && rs[i].state == Reserved
  }

  predicate HasOffer(as_: seq<Assignment>, j: JobId, d: DriverId) {
    exists i :: 0 <= i < |as_| && OfferAt(as_, i, j, d)
  }

  predicate HasOpenOffer(as_: seq<Assignment>, j: JobId, d: DriverId, clock: Time) {
    exists i :: 0 <= i < |as_| && OfferAt(as_, i, j, d) && as_[i].expiresAt > clock
  }

  predicate HasOpenHold(rs: seq<Reservation>, j: JobId, d: DriverId, clock: Time) {
    exists i :: 0 <= i < |rs| && HoldAt(rs, i, j, d) && rs[i].expiresAt > clock
  }

  /** The availability check made again inside the accepting transaction. */
  predicate Eligible(drivers: map<DriverId, Driver>, d: DriverId) {
    && d in drivers
    && drivers[d].approved
    && drivers[d].status !in {DriverSuspended, DriverBlocked, DriverOffline}
    && drivers[d].vehicle.Some?
    && drivers[d].vehicle.value.verified
  }

  // --- updates ------------------------------------------------------------------------

  /** The status of every offer of `j` to `d` that is still unexpired at `clock` becomes ACCEPTED. */
  function AcceptOffers(as_: seq<Assignment>, j: JobId, d: DriverId, clock: Time): seq<Assignment> {
    seq(|as_|, i requires 0 <= i < |as_| =>
      if OffersTo(as_[i], j, d) && as_[i].expiresAt > clock then as_[i].(status := OfferAccepted) else as_[i])
  }

  function ConsumeHolds(rs: seq<Reservation>, j: JobId, d: DriverId, clock: Time): seq<Reservation> {
    seq(|rs|, i requires 0 <= i < |rs| =>
      if HoldsFor(rs[i], j, d) && rs[i].expiresAt > clock then rs[i].(state := Consumed) else rs[i])
  }

  function CloseOffers(as_: seq<Assignment>, j: JobId, d: DriverId, to: AssignmentStatus): seq<Assignment> {
    seq(|as_|, i requires 0 <= i < |as_| =>
      if OffersTo(as_[i], j, d) then as_[i].(status := to) else as_[i])
  }

  function CloseHolds(rs: seq<Reservation>, j: JobId, d: DriverId, to: HoldState): seq<Reservation> {
    seq(|rs|, i requires 0 <= i < |rs| =>
      if HoldsFor(rs[i], j, d) then rs[i].(state := to) else rs[i])
  }

  predicate OverdueOffer(a: Assignment, cutoff: Time) {
    a.status == Offered && a.expiresAt <= cutoff
  }

  predicate OverdueHold(r: Reservation, cutoff: Time) {
    r.state == Reserved && r.expiresAt <= cutoff
  }

  function ExpireOffers(as_: seq<Assignment>, cutoff: Time): seq<Assignment> {
    seq(|as_|, i requires 0 <= i < |as_| =>
      if OverdueOffer(as_[i], cutoff) then as_[i].(status := OfferExpired) else as_[i])
  }

  function ExpireHolds(rs: seq<Reservation>, cutoff: Time): seq<Reservation> {
    seq(|rs|, i requires 0 <= i < |rs| =>
      if OverdueHold(rs[i], cutoff) then rs[i].(state := HoldExpired) else rs[i])
  }

  /** Drivers shown as OFFERED whom no reservation holds become AVAILABLE. */
  function FreeDrivers(drivers: map<DriverId, Driver>, rs: seq<Reservation>): map<DriverId, Driver> {
    map d | d in drivers ::
      if drivers[d].status == DriverOffered && !DriverHeld(rs, d)
      then drivers[d].(status := DriverAvailable) else drivers[d]
  }

  /** Jobs shown as ASSIGNED that no live assignment holds return to SEARCHING. */
  function ReopenJobs(jobs: map<JobId, Job>, as_: seq<Assignment>, clock: Time): map<JobId, Job> {
    map j | j in jobs ::
      if jobs[j].status == Assigned && !HasLive(as_, j)
      then jobs[j].(status := Searching, updatedAt := clock) else jobs[j]
  }

  /** How many rows of `as_` a sweep at `cutoff` expires. */
  function CountOverdue(as_: seq<Assignment>, cutoff: Time): nat {
    if |as_| == 0 then 0
    else CountOverdue(as_[..|as_| - 1], cutoff) + if OverdueOffer(as_[|as_| - 1], cutoff) then 1 else 0
  }

  /** How many dispatch attempts a job has had. */
  function AttemptCount(ts: seq<Attempt>, j: JobId): nat {
    if |ts| == 0 then 0
    else AttemptCount(ts[..|ts| - 1], j) + if ts[|ts| - 1].job == j then 1 else 0
  }

  predicate AttemptAt(ts: seq<Attempt>, i: int, j: JobId, number: nat) {
    0 <= i < |ts| && ts[i].job == j && ts[i].number == number
  }

  predicate HasAttempt(ts: seq<Attempt>, j: JobId, number: nat) {
    exists i :: 0 <= i < |ts| && AttemptAt(ts, i, j, number)
  }
}
