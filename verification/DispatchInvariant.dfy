/** What every dispatch step keeps: offers pair with holds, nothing is claimed twice, and a job's
    status agrees with the answers its offers got. */
module DispatchInvariant {
  import opened Common
  import opened JobMachine
  import opened DispatchTables
  import opened DispatchSteps

  /** The state a hold is in when its offer has the given status. */
  function HoldOf(s: AssignmentStatus): HoldState {
    match s
    case Offered => Reserved
    case OfferAccepted => Consumed
    case OfferRejected => Released
    case _ => HoldExpired
  }

  predicate Pair(a: Assignment, r: Reservation, i: nat) {
    r == Reservation(a.job, a.driver, Some(i), HoldOf(a.status), a.expiresAt)
  }

  predicate Paired(db: Db) {
    && |db.assignments| == |db.reservations|
    && forall i :: 0 <= i < |db.assignments| ==> Pair(db.assignments[i], db.reservations[i], i)
  }

  predicate OneLivePerJob(as_: seq<Assignment>) {
    forall i, k :: 0 <= i < k < |as_| && Live(as_[i]) && Live(as_[k]) ==> as_[i].job != as_[k].job
  }

  predicate OneHoldPerDriver(rs: seq<Reservation>) {
    forall i, k :: 0 <= i < k < |rs| && rs[i].state == Reserved && rs[k].state == Reserved ==>
      rs[i].driver != rs[k].driver
  }

  predicate Referenced(db: Db) {
    forall i :: 0 <= i < |db.assignments| ==>
      db.assignments[i].job in db.jobs && db.assignments[i].driver in db.drivers
  }

  predicate AcceptedAt(as_: seq<Assignment>, i: int, j: JobId) {
    0 <= i < |as_| && as_[i].job == j && as_[i].status == OfferAccepted
  }

  /** An accepted offer is what fills in a job's driver, and it does so for good. */
  predicate AnswersShow(db: Db) {
    forall i :: 0 <= i < |db.assignments| && db.assignments[i].status == OfferAccepted ==>
      && db.assignments[i].job in db.jobs
      && !Open(db.jobs[db.assignments[i].job].status)
      && db.jobs[db.assignments[i].job].driver == Some(db.assignments[i].driver)
  }

  predicate DriverAnswered(db: Db, j: JobId)
    requires j in db.jobs
  {
    db.jobs[j].driver.Some? ==> exists i :: 0 <= i < |db.assignments| && AcceptedAt(db.assignments, i, j)
  }

  predicate JobSound(job: Job) {
    && (Held(job.status) ==> job.driver.Some?)
    && (job.terminatedAt.Some? <==> Terminal(job.status))
    && (forall k :: 0 <= k < |job.history| && job.history[k].from.Some? ==>
          Edge(job.history[k].from.value, job.history[k].to))
  }

  predicate Inv(db: Db) {
    && Paired(db)
    && OneLivePerJob(db.assignments)
    && OneHoldPerDriver(db.reservations)
    && Referenced(db)
    && AnswersShow(db)
    && forall j :: j in db.jobs ==> DriverAnswered(db, j) && JobSound(db.jobs[j])
  }

  // --- one lemma per operation --------------------------------------------------------

  lemma ReserveKeeps(db: Db, j: JobId, d: DriverId, attempt: Option<nat>, expiresAt: Time)
    requires Inv(db)
    ensures Inv(Reserve(db, j, d, attempt, expiresAt))
  {
    var after := Reserve(db, j, d, attempt, expiresAt);
    if ReserveAnswer(db, j, d, attempt).None? {
      forall i | 0 <= i < |db.assignments| ensures Live(db.assignments[i]) ==> db.assignments[i].job != j {
        assert LiveAt(db.assignments, i, j) <==> Live(db.assignments[i]) && db.assignments[i].job == j;
      }
      forall k | k in after.jobs ensures DriverAnswered(after, k) {
        if i :| 0 <= i < |db.assignments| && AcceptedAt(db.assignments, i, k) {
          assert AcceptedAt(after.assignments, i, k);
        }
      }
    }
  }

  /** Accepting answers one offer and consumes the hold beside it; every other row stays. */
  lemma AcceptAnswersOne(db: Db, j: JobId, d: DriverId, clock: Time) returns (n: nat)
    requires Inv(db) && AcceptAnswer(db, j, d, clock).None?
    ensures n < |db.assignments| && OfferAt(db.assignments, n, j, d) && db.assignments[n].expiresAt > clock
    ensures Accept(db, j, d, clock).assignments == db.assignments[n := db.assignments[n].(status := OfferAccepted)]
    ensures Accept(db, j, d, clock).reservations == db.reservations[n := db.reservations[n].(state := Consumed)]
  {
    var after := Accept(db, j, d, clock);
    var m :| 0 <= m < |db.assignments| && OfferAt(db.assignments, m, j, d) && db.assignments[m].expiresAt > clock;
    n := m;
    assert Pair(db.assignments[n], db.reservations[n], n);
    forall i | 0 <= i < |db.assignments| && i != n
      ensures after.assignments[i] == db.assignments[i] && after.reservations[i] == db.reservations[i]
    {
      assert Pair(db.assignments[i], db.reservations[i], i);
    }
  }

  lemma AcceptKeepsOffers(db: Db, j: JobId, d: DriverId, clock: Time)
    requires Inv(db) && AcceptAnswer(db, j, d, clock).None?
    ensures var after := Accept(db, j, d, clock);
      Paired(after) && OneLivePerJob(after.assignments) && OneHoldPerDriver(after.reservations)
      && Referenced(after) && AnswersShow(after)
  {
    var after := Accept(db, j, d, clock);
    var n := AcceptAnswersOne(db, j, d, clock);
    assert Pair(db.assignments[n], db.reservations[n], n);
    forall i | 0 <= i < |after.assignments| && after.assignments[i].status == OfferAccepted && i != n
      ensures after.assignments[i].job != j
    {
      assert Live(db.assignments[i]) && Live(db.assignments[n]);
    }
  }

  lemma AcceptKeepsJobs(db: Db, j: JobId, d: DriverId, clock: Time)
    requires Inv(db) && AcceptAnswer(db, j, d, clock).None?
    ensures var after := Accept(db, j, d, clock);
      forall k :: k in after.jobs ==> DriverAnswered(after, k) && JobSound(after.jobs[k])
  {
    var after := Accept(db, j, d, clock);
    var n := AcceptAnswersOne(db, j, d, clock);
    forall k | k in after.jobs ensures DriverAnswered(after, k) && JobSound(after.jobs[k]) {
      assert DriverAnswered(db, k) && JobSound(db.jobs[k]);
      if k == j {
        assert AcceptedAt(after.assignments, n, k);
      } else if i :| 0 <= i < |db.assignments| && AcceptedAt(db.assignments, i, k) {
        assert AcceptedAt(after.assignments, i, k);
      }
    }
  }

  lemma AcceptKeeps(db: Db, j: JobId, d: DriverId, clock: Time)
    requires Inv(db)
    ensures Inv(Accept(db, j, d, clock))
  {
    if AcceptAnswer(db, j, d, clock).None? {
      AcceptKeepsOffers(db, j, d, clock);
      AcceptKeepsJobs(db, j, d, clock);
    }
  }

  lemma ReleaseKeeps(db: Db, j: JobId, d: DriverId, c: Closing, clock: Time)
    requires Inv(db)
    ensures Inv(Release(db, j, d, c, clock))
  {
    if ReleaseAnswer(db, j, d).None? {
      var after := Release(db, j, d, c, clock);
      forall i | 0 <= i < |after.assignments| ensures Pair(after.assignments[i], after.reservations[i], i) {
        assert Pair(db.assignments[i], db.reservations[i], i);
      }
      forall k | k in after.jobs ensures DriverAnswered(after, k) && JobSound(after.jobs[k]) {
        assert JobSound(db.jobs[k]);
        if i :| 0 <= i < |db.assignments| && AcceptedAt(db.assignments, i, k) {
          assert AcceptedAt(after.assignments, i, k);
        }
      }
    }
  }

  lemma SweepKeeps(db: Db, cutoff: Time, clock: Time)
    requires Inv(db)
    ensures Inv(Sweep(db, cutoff, clock))
  {
    var after := Sweep(db, cutoff, clock);
    forall i | 0 <= i < |after.assignments| ensures Pair(after.assignments[i], after.reservations[i], i) {
      assert Pair(db.assignments[i], db.reservations[i], i);
    }
    forall k | k in after.jobs ensures DriverAnswered(after, k) && JobSound(after.jobs[k]) {
      assert JobSound(db.jobs[k]);
      if i :| 0 <= i < |db.assignments| && AcceptedAt(db.assignments, i, k) {
        assert AcceptedAt(after.assignments, i, k);
      }
    }
  }

  /** A job whose driver an answer filled in is not open, and no move opens it again. */
  lemma MovedShowsAnswers(db: Db, j: JobId, job: Job)
    requires AnswersShow(db) && j in db.jobs
    requires job.driver == db.jobs[j].driver && (Open(job.status) ==> Open(db.jobs[j].status))
    ensures AnswersShow(db.(jobs := db.jobs[j := job]))
  {
  }

  lemma MovedIsAnswered(db: Db, j: JobId, job: Job)
    requires j in db.jobs && job.driver == db.jobs[j].driver && JobSound(job)
    requires forall k :: k in db.jobs ==> DriverAnswered(db, k) && JobSound(db.jobs[k])
    ensures var after := db.(jobs := db.jobs[j := job]);
      forall k :: k in after.jobs ==> DriverAnswered(after, k) && JobSound(after.jobs[k])
  {
  }

  lemma MovedJobIsSound(job: Job, to: JobStatus, clock: Time)
    requires JobSound(job) && Edge(job.status, to)
    requires to != Accepted && !(job.status == Accepted && to == Searching)
    ensures JobSound(Moved(job, to, clock))
    ensures Open(to) ==> Open(job.status)
  {
  }

  lemma MovedKeeps(db: Db, j: JobId, to: JobStatus, clock: Time)
    requires Inv(db) && j in db.jobs
    requires Edge(db.jobs[j].status, to)
    requires to != Accepted && !(db.jobs[j].status == Accepted && to == Searching)
    ensures Inv(db.(jobs := db.jobs[j := Moved(db.jobs[j], to, clock)]))
  {
    MovedJobIsSound(db.jobs[j], to, clock);
    MovedShowsAnswers(db, j, Moved(db.jobs[j], to, clock));
    MovedIsAnswered(db, j, Moved(db.jobs[j], to, clock));
  }

  lemma CreateKeeps(db: Db, j: JobId, initial: JobStatus, scheduledAt: Option<Time>, clock: Time)
    requires Inv(db) && Open(initial)
    ensures Inv(CreateJob(db, j, initial, scheduledAt, clock))
  {
  }

  lemma RecordKeeps(db: Db, j: JobId, number: nat, radius: nat, outcome: AttemptOutcome)
    requires Inv(db)
    ensures Inv(RecordAttempt(db, j, number, radius, outcome))
  {
  }

  lemma DriverKeeps(db: Db, d: DriverId, row: Driver)
    requires Inv(db)
    ensures Inv(db.(drivers := db.drivers[d := row]))
  {
  }

  /** Whatever a caller may ask for, in whatever state. */
  lemma StepKeeps(db: Db, maxAttempts: nat, e: Event)
    requires Inv(db) && MayAsk(db, maxAttempts, e.step)
    ensures Inv(Apply(db, e))
  {
    match e.step
    case CreateStep(j, initial, scheduledAt) => CreateKeeps(db, j, initial, scheduledAt, e.clock);
    case DriverStep(d, row) => DriverKeeps(db, d, row);
    case ReserveStep(j, d, attempt, expiresAt) => ReserveKeeps(db, j, d, attempt, expiresAt);
    case AcceptStep(j, d) => AcceptKeeps(db, j, d, e.clock);
    case ReleaseStep(j, d, closing) => ReleaseKeeps(db, j, d, closing, e.clock);
    case SweepStep(cutoff) => SweepKeeps(db, cutoff, e.clock);
    case MoveStep(j, from, to) =>
      if TransitionAnswer(db, j, from, to).None? { MovedKeeps(db, j, to, e.clock); }
    case ExpireSearchStep(j) =>
      if ExpireSearchAnswer(db, j).None? { MovedKeeps(db, j, Expired, e.clock); }
    case RecordStep(j, counted, radius, outcome) => RecordKeeps(db, j, counted + 1, radius, outcome);
  }

  lemma {:induction false} RunKeeps(db: Db, maxAttempts: nat, es: seq<Event>)
    requires Inv(db) && MayRun(db, maxAttempts, es)
    ensures Inv(Run(db, es))
    decreases |es|
  {
    if |es| > 0 {
      StepKeeps(db, maxAttempts, es[0]);
      RunKeeps(Apply(db, es[0]), maxAttempts, es[1..]);
    }
  }
}
