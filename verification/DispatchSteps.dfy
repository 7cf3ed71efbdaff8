/** One committed transaction at a time: what each dispatch and job operation answers, and the
    tables it leaves behind. A transaction that answers with an error leaves them untouched.

    Every step takes the clock it runs at. Nothing here needs clocks to agree or to move forward. */
module DispatchSteps {
  import opened Common
  import opened JobMachine
  import opened DispatchTables

  datatype Error =
    | DriverBusy | JobClaimed | ReservationLost | OfferNotFound | NotEligible
    | NoSuchRow | StaleTransition | IllegalTransition | DuplicateAttempt

  type Answer = Option<Error>  // None is success

  // --- reserve ---------------------------------------------------------------------

  /** Inserting the reservation trips the per-driver index before any other constraint is looked at;
      inserting the offer trips the per-job index. */
  function ReserveAnswer(db: Db, j: JobId, d: DriverId, attempt: Option<nat>): Answer {
    if DriverHeld(db.reservations, d) then Some(DriverBusy)
    else if j !in db.jobs || d !in db.drivers then Some(NoSuchRow)
    else if HasLive(db.assignments, j) then Some(JobClaimed)
    else if attempt.Some? && attempt.value >= |db.attempts| then Some(NoSuchRow)
    else None
  }

  function Reserve(db: Db, j: JobId, d: DriverId, attempt: Option<nat>, expiresAt: Time): Db {
    if ReserveAnswer(db, j, d, attempt).Some? then db
    else db.(
      reservations := db.reservations + [Reservation(j, d, Some(|db.assignments|), Reserved, expiresAt)],
      assignments := db.assignments + [Assignment(j, d, Offered, expiresAt)],
      attempts := if attempt.Some?
                  then db.attempts[attempt.value := db.attempts[attempt.value].(offered := Some(d))]
                  else db.attempts)
  }

  // --- accept ----------------------------------------------------------------------

  function AcceptAnswer(db: Db, j: JobId, d: DriverId, clock: Time): Answer {
    if !HasOpenOffer(db.assignments, j, d, clock) then Some(OfferNotFound)
    else if !HasOpenHold(db.reservations, j, d, clock) then Some(ReservationLost)
    else if !Eligible(db.drivers, d) then Some(NotEligible)
    else if j !in db.jobs || db.jobs[j].status !in {Searching, Assigned} then Some(JobClaimed)
    else None
  }

  function TakenBy(job: Job, d: DriverId, vehicle: Option<nat>, clock: Time): Job {
    job.(status := Accepted, driver := Some(d), vehicle := vehicle, updatedAt := clock,
         history := job.history + [Change(Some(Assigned), Accepted)])
  }

  function Occupied(driver: Driver): Driver {
    if driver.status in {DriverAvailable, DriverOffered} then driver.(status := DriverAccepted) else driver
  }

  function Accept(db: Db, j: JobId, d: DriverId, clock: Time): Db {
    if AcceptAnswer(db, j, d, clock).Some? then db
    else db.(
      assignments := AcceptOffers(db.assignments, j, d, clock),
      reservations := ConsumeHolds(db.reservations, j, d, clock),
      jobs := db.jobs[j := TakenBy(db.jobs[j], d, Some(db.drivers[d].vehicle.value.id), clock)],
      drivers := db.drivers[d := Occupied(db.drivers[d])])
  }

  // --- reject and time out -----------------------------------------------------------

  /** Both releases differ only in what they write: REJECTED and RELEASED, or EXPIRED twice. */
  datatype Closing = Rejecting | TimingOut

  function OfferClosedAs(c: Closing): AssignmentStatus {
    if c.Rejecting? then OfferRejected else OfferExpired
  }

  function HoldClosedAs(c: Closing): HoldState {
    if c.Rejecting? then Released else HoldExpired
  }

  function ReleaseAnswer(db: Db, j: JobId, d: DriverId): Answer {
    if HasOffer(db.assignments, j, d) then None else Some(OfferNotFound)
  }

  function Reopened(job: Job, clock: Time): Job {
    if job.status in {Assigned, Searching} then job.(status := Searching, updatedAt := clock) else job
  }

  function Freed(driver: Driver): Driver {
    if driver.status == DriverOffered then driver.(status := DriverAvailable) else driver
  }

  function Release(db: Db, j: JobId, d: DriverId, c: Closing, clock: Time): Db {
    if ReleaseAnswer(db, j, d).Some? then db
    else db.(
      assignments := CloseOffers(db.assignments, j, d, OfferClosedAs(c)),
      reservations := CloseHolds(db.reservations, j, d, HoldClosedAs(c)),
      drivers := if d in db.drivers then db.drivers[d := Freed(db.drivers[d])] else db.drivers,
      jobs := if j in db.jobs then db.jobs[j := Reopened(db.jobs[j], clock)] else db.jobs)
  }

  // --- sweep ---------------------------------------------------------------------------

  function Sweep(db: Db, cutoff: Time, clock: Time): Db {
    var offers := ExpireOffers(db.assignments, cutoff);
    var holds := ExpireHolds(db.reservations, cutoff);
    db.(
      assignments := offers,
      reservations := holds,
      drivers := FreeDrivers(db.drivers, holds),
      jobs := ReopenJobs(db.jobs, offers, clock))
  }

  // --- jobs ----------------------------------------------------------------------------

  function TransitionAnswer(db: Db, j: JobId, from: JobStatus, to: JobStatus): Answer {
    if !Edge(from, to) then Some(IllegalTransition)
    else if j !in db.jobs then Some(NoSuchRow)
    else if db.jobs[j].status != from then Some(StaleTransition)
    else None
  }

  function FirstOf(t: Option<Time>, clock: Time): Option<Time> {
    if t.Some? then t else Some(clock)
  }

  function Moved(job: Job, to: JobStatus, clock: Time): Job {
    job.(status := to, updatedAt := clock,
         terminatedAt := if Terminal(to) then FirstOf(job.terminatedAt, clock) else job.terminatedAt,
         history := job.history + [Change(Some(job.status), to)])
  }

  function Transition(db: Db, j: JobId, from: JobStatus, to: JobStatus, clock: Time): Db {
    if TransitionAnswer(db, j, from, to).Some? then db
    else db.(jobs := db.jobs[j := Moved(db.jobs[j], to, clock)])
  }

  function ExpireSearchAnswer(db: Db, j: JobId): Answer {
    if j !in db.jobs then Some(NoSuchRow)
    else if db.jobs[j].status != Searching then Some(StaleTransition)
    else None
  }

  function ExpireSearch(db: Db, j: JobId, clock: Time): Db {
    if ExpireSearchAnswer(db, j).Some? then db
    else db.(jobs := db.jobs[j := Moved(db.jobs[j], Expired, clock)])
  }

  function NewJob(status: JobStatus, scheduledAt: Option<Time>, clock: Time): Job {
    Job(status, scheduledAt, None, None, clock, clock, None, [Change(None, status)])
  }

  function CreateJob(db: Db, j: JobId, status: JobStatus, scheduledAt: Option<Time>, clock: Time): Db {
    if j in db.jobs then db else db.(jobs := db.jobs[j := NewJob(status, scheduledAt, clock)])
  }

  /** A job waits for a dispatch round: never offered, or searching with nothing live holding it. */
  predicate Needs(db: Db, j: JobId, now: Time) {
    && j in db.jobs
    && (|| db.jobs[j].status == Requested
        || (db.jobs[j].status == Searching && !HasLive(db.assignments, j)))
    && (db.jobs[j].scheduledAt.None? || db.jobs[j].scheduledAt.value <= now)
  }

  function NeedingDispatch(db: Db, now: Time): set<JobId> {
    set j | j in db.jobs && Needs(db, j, now)
  }

  // --- attempts ------------------------------------------------------------------------

  /** One row per job and attempt number. */
  function RecordAnswer(db: Db, j: JobId, number: nat): Answer {
    if j !in db.jobs then Some(NoSuchRow)
    else if HasAttempt(db.attempts, j, number) then Some(DuplicateAttempt)
    else None
  }

  function RecordAttempt(db: Db, j: JobId, number: nat, radius: nat, outcome: AttemptOutcome): Db {
    if RecordAnswer(db, j, number).Some? then db
    else db.(attempts := db.attempts + [Attempt(j, number, radius, outcome, None)])
  }

  // --- runs ----------------------------------------------------------------------------

  datatype Step =
    | CreateStep(j: JobId, initial: JobStatus, scheduledAt: Option<Time>)
    | DriverStep(d: DriverId, row: Driver)
    | ReserveStep(j: JobId, d: DriverId, attempt: Option<nat>, expiresAt: Time)
    | AcceptStep(j: JobId, d: DriverId)
    | ReleaseStep(j: JobId, d: DriverId, closing: Closing)
    | SweepStep(cutoff: Time)
    | MoveStep(j: JobId, from: JobStatus, to: JobStatus)
    | ExpireSearchStep(j: JobId)
    | RecordStep(j: JobId, counted: nat, radius: nat, outcome: AttemptOutcome)

  datatype Event = Event(step: Step, clock: Time)

  function Apply(db: Db, e: Event): Db {
    match e.step
    case CreateStep(j, initial, scheduledAt) => CreateJob(db, j, initial, scheduledAt, e.clock)
    case DriverStep(d, row) => db.(drivers := db.drivers[d := row])
    case ReserveStep(j, d, attempt, expiresAt) => Reserve(db, j, d, attempt, expiresAt)
    case AcceptStep(j, d) => Accept(db, j, d, e.clock)
    case ReleaseStep(j, d, closing) => Release(db, j, d, closing, e.clock)
    case SweepStep(cutoff) => Sweep(db, cutoff, e.clock)
    case MoveStep(j, from, to) => Transition(db, j, from, to, e.clock)
    case ExpireSearchStep(j) => ExpireSearch(db, j, e.clock)
    case RecordStep(j, counted, radius, outcome) => RecordAttempt(db, j, counted + 1, radius, outcome)
  }

  /** What some caller may ask for next.

      No caller asks Transition to move a job into ACCEPTED or from ACCEPTED back to SEARCHING,
      although the table has both edges; jobs are created before anyone has accepted them; and an
      attempt number is one more than a count read in this state or an earlier one, below the
      configured maximum. Everything else may happen in any state, in any order. */
  predicate MayAsk(db: Db, maxAttempts: nat, s: Step) {
    match s
    case CreateStep(_, initial, _) => Open(initial)
    case MoveStep(_, from, to) => to != Accepted && !(from == Accepted && to == Searching)
    case RecordStep(j, counted, _, _) => counted <= AttemptCount(db.attempts, j) && counted < maxAttempts
    case _ => true
  }

  function Run(db: Db, es: seq<Event>): Db
    decreases |es|
  {
    if |es| == 0 then db else Run(Apply(db, es[0]), es[1..])
  }

  predicate MayRun(db: Db, maxAttempts: nat, es: seq<Event>)
    decreases |es|
  {
    |es| == 0 || (MayAsk(db, maxAttempts, es[0].step) && MayRun(Apply(db, es[0]), maxAttempts, es[1..]))
  }

  const EMPTY := Db(map[], [], [], map[], [])

  ghost predicate Reachable(db: Db, maxAttempts: nat) {
    exists es: seq<Event> :: MayRun(EMPTY, maxAttempts, es) && db == Run(EMPTY, es)
  }
}
