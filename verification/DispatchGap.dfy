/** The gap between the two transactions of a dispatch: which interleavings leave a job ASSIGNED with
    nobody holding it, told by the transactions that commit in between. */
module DispatchGap {
  import opened Common
  import opened JobMachine
  import opened DispatchTables
  import opened DispatchSteps
  import opened DispatchInvariant
  import opened DispatchSafety

  datatype Offer = Offer(driver: DriverId, until: Time)

  /** The transaction takes an outstanding offer of `j` away: its driver declines or times out, or a
      sweep runs at or past its deadline. */
  predicate Closes(e: Event, j: JobId, o: Offer) {
    match e.step
    case ReleaseStep(k, d, _) => k == j && d == o.driver
    case SweepStep(cutoff) => o.until <= cutoff
    case _ => false
  }

  predicate Closed(es: seq<Event>, j: JobId, o: Offer) {
    exists n :: 0 <= n < |es| && Closes(es[n], j, o)
  }

  /** The transaction is a reservation of `j` that succeeds in `db`. */
  predicate Opens(db: Db, e: Event, j: JobId) {
    && e.step.ReserveStep? && e.step.j == j
    && ReserveAnswer(db, j, e.step.d, e.step.attempt).None?
  }

  /** The transaction is an acceptance of `j` that succeeds in `db`. */
  predicate Takes(db: Db, e: Event, j: JobId) {
    e.step.AcceptStep? && e.step.j == j && AcceptAnswer(db, j, e.step.d, e.clock).None?
  }

  predicate NeverOpens(db: Db, es: seq<Event>, j: JobId)
    decreases |es|
  {
    |es| == 0 || (!Opens(db, es[0], j) && NeverOpens(Apply(db, es[0]), es[1..], j))
  }

  /** The offer of `j` standing after `es`, if `out` stood before. */
  function Standing(db: Db, es: seq<Event>, j: JobId, out: Option<Offer>): Option<Offer>
    decreases |es|
  {
    if |es| == 0 then out else Standing(Apply(db, es[0]), es[1..], j, Next(db, es[0], j, out))
  }

  function Next(db: Db, e: Event, j: JobId, out: Option<Offer>): Option<Offer> {
    if out.Some? then (if Closes(e, j, out.value) then None else out)
    else if Opens(db, e, j) then Some(Offer(e.step.d, e.step.expiresAt))
    else None
  }

  predicate OfferRow(as_: seq<Assignment>, i: int, j: JobId, o: Offer) {
    0 <= i < |as_| && as_[i] == Assignment(j, o.driver, Offered, o.until)
  }

  /** The tables hold `j` by that offer, or not at all. */
  predicate Shows(db: Db, j: JobId, out: Option<Offer>) {
    match out
    case None => !HasLive(db.assignments, j)
    case Some(o) => exists i :: 0 <= i < |db.assignments| && OfferRow(db.assignments, i, j, o)
  }

  // --- one transaction ---------------------------------------------------------------------

  lemma LivenessOnlyReserves(db: Db, e: Event, i: int, j: JobId)
    requires LiveAt(Apply(db, e).assignments, i, j) && !Opens(db, e, j)
    ensures LiveAt(db.assignments, i, j)
  {
  }

  lemma NothingStaysUnlessOpened(db: Db, e: Event, j: JobId)
    requires !HasLive(db.assignments, j) && !Opens(db, e, j)
    ensures !HasLive(Apply(db, e).assignments, j)
  {
    if i :| 0 <= i < |Apply(db, e).assignments| && LiveAt(Apply(db, e).assignments, i, j) {
      LivenessOnlyReserves(db, e, i, j);
    }
  }

  lemma OpenedShows(db: Db, e: Event, j: JobId)
    requires Opens(db, e, j)
    ensures Shows(Apply(db, e), j, Some(Offer(e.step.d, e.step.expiresAt)))
  {
    assert OfferRow(Apply(db, e).assignments, |db.assignments|, j, Offer(e.step.d, e.step.expiresAt));
  }

  lemma OfferStaysUnlessClosed(db: Db, e: Event, i: nat, j: JobId, o: Offer)
    requires OfferRow(db.assignments, i, j, o) && !Takes(db, e, j)
    ensures Closes(e, j, o) <==> !OfferRow(Apply(db, e).assignments, i, j, o)
    ensures Closes(e, j, o) ==> !LiveAt(Apply(db, e).assignments, i, j)
  {
    if e.step.ReleaseStep? && e.step.j == j && e.step.d == o.driver {
      assert OfferAt(db.assignments, i, j, o.driver);
    }
  }

  lemma ClosedShows(db: Db, e: Event, i: nat, j: JobId, o: Offer)
    requires Inv(db) && OfferRow(db.assignments, i, j, o) && Closes(e, j, o)
    ensures Shows(Apply(db, e), j, None)
  {
    OfferStaysUnlessClosed(db, e, i, j, o);
    forall k | 0 <= k < |Apply(db, e).assignments| ensures !LiveAt(Apply(db, e).assignments, k, j) {
      if LiveAt(Apply(db, e).assignments, k, j) {
        LivenessOnlyReserves(db, e, k, j);
      }
    }
  }

  lemma StepShows(db: Db, e: Event, j: JobId, out: Option<Offer>)
    requires Inv(db) && Shows(db, j, out) && !Takes(db, e, j)
    ensures Shows(Apply(db, e), j, Next(db, e, j, out))
  {
    if out.Some? {
      var i :| 0 <= i < |db.assignments| && OfferRow(db.assignments, i, j, out.value);
      OfferStaysUnlessClosed(db, e, i, j, out.value);
      if Closes(e, j, out.value) {
        ClosedShows(db, e, i, j, out.value);
      } else {
        assert OfferRow(Apply(db, e).assignments, i, j, out.value);
      }
    } else if Opens(db, e, j) {
      OpenedShows(db, e, j);
    } else {
      NothingStaysUnlessOpened(db, e, j);
    }
  }

  // --- a run ----------------------------------------------------------------------------------

  /** Once an acceptance commits, the job is never open again. */
  lemma TakenForGood(db: Db, maxAttempts: nat, es: seq<Event>, j: JobId)
    requires Inv(db) && MayRun(db, maxAttempts, es) && |es| > 0 && Takes(db, es[0], j)
    ensures j in Run(db, es).jobs && !Open(Run(db, es).jobs[j].status)
  {
    var next := Apply(db, es[0]);
    StepKeeps(db, maxAttempts, es[0]);
    JobsFollowTheirMachine(next, maxAttempts, es[1..], j);
    RunKeeps(next, maxAttempts, es[1..]);
  }

  lemma {:induction false} RunShows(db: Db, maxAttempts: nat, es: seq<Event>, j: JobId, out: Option<Offer>)
    requires Inv(db) && MayRun(db, maxAttempts, es) && Shows(db, j, out) && j in db.jobs
    requires j in Run(db, es).jobs ==> Open(Run(db, es).jobs[j].status)
    ensures Shows(Run(db, es), j, Standing(db, es, j, out))
    decreases |es|
  {
    if |es| > 0 {
      if Takes(db, es[0], j) {
        TakenForGood(db, maxAttempts, es, j);
      }
      StepShows(db, es[0], j, out);
      StepKeeps(db, maxAttempts, es[0]);
      StepMovesJobs(db, maxAttempts, es[0], j);
      RunShows(Apply(db, es[0]), maxAttempts, es[1..], j, Next(db, es[0], j, out));
    }
  }

  lemma {:induction false} NothingStands(db: Db, es: seq<Event>, j: JobId)
    requires NeverOpens(db, es, j)
    ensures Standing(db, es, j, None).None?
    decreases |es|
  {
    if |es| > 0 {
      NothingStands(Apply(db, es[0]), es[1..], j);
    }
  }

  /** With nobody reserving the job again, what stands at the end is the first offer, unless closed. */
  lemma {:induction false} StandsUnlessClosed(db: Db, es: seq<Event>, j: JobId, o: Offer)
    requires NeverOpens(db, es, j)
    ensures Standing(db, es, j, Some(o)) == if Closed(es, j, o) then None else Some(o)
    decreases |es|
  {
    if |es| > 0 {
      if Closes(es[0], j, o) {
        NothingStands(Apply(db, es[0]), es[1..], j);
      } else {
        StandsUnlessClosed(Apply(db, es[0]), es[1..], j, o);
      }
    }
  }

  // --- the two transactions with a run between ----------------------------------------------

  /** A dispatch reserves `j` for `d`, any transactions at all commit, then its second transaction moves
      the job to ASSIGNED. The job it leaves is held if and only if an offer stands: the dispatch's own
      when no transaction between closed it, or a later one that another runner made after that and
      nothing has closed since. The standing offer is the one that holds it. */
  lemma AssignedIsHeldExactlyWhenAnOfferStands(
    db: Db, maxAttempts: nat, j: JobId, d: DriverId, attempt: Option<nat>, expiresAt: Time, es: seq<Event>, clock: Time)
    requires Inv(db) && ReserveAnswer(db, j, d, attempt).None?
    requires MayRun(Reserve(db, j, d, attempt, expiresAt), maxAttempts, es)
    requires TransitionAnswer(Run(Reserve(db, j, d, attempt, expiresAt), es), j, Searching, Assigned).None?
    ensures
      var reserved := Reserve(db, j, d, attempt, expiresAt);
      var moved := Transition(Run(reserved, es), j, Searching, Assigned, clock);
      var standing := Standing(reserved, es, j, Some(Offer(d, expiresAt)));
      && j in moved.jobs && moved.jobs[j].status == Assigned
      && (HasLive(moved.assignments, j) <==> standing.Some?)
      && Shows(moved, j, standing)
  {
    var reserved := Reserve(db, j, d, attempt, expiresAt);
    var e := Event(ReserveStep(j, d, attempt, expiresAt), clock);
    ReserveKeeps(db, j, d, attempt, expiresAt);
    OpenedShows(db, e, j);
    RunShows(reserved, maxAttempts, es, j, Some(Offer(d, expiresAt)));
    var after := Run(reserved, es);
    var standing := Standing(reserved, es, j, Some(Offer(d, expiresAt)));
    if standing.Some? {
      var i :| 0 <= i < |after.assignments| && OfferRow(after.assignments, i, j, standing.value);
      assert LiveAt(after.assignments, i, j);
    }
  }

  /** So when no other runner reserves the job in between, it is held if and only if the transactions in
      between hold neither an answer releasing that driver from it nor a sweep at or past the deadline. */
  lemma AssignedIsHeldExactlyWhenNothingCloses(
    db: Db, maxAttempts: nat, j: JobId, d: DriverId, attempt: Option<nat>, expiresAt: Time, es: seq<Event>, clock: Time)
    requires Inv(db) && ReserveAnswer(db, j, d, attempt).None?
    requires MayRun(Reserve(db, j, d, attempt, expiresAt), maxAttempts, es)
    requires TransitionAnswer(Run(Reserve(db, j, d, attempt, expiresAt), es), j, Searching, Assigned).None?
    requires NeverOpens(Reserve(db, j, d, attempt, expiresAt), es, j)
    ensures
      var moved := Transition(Run(Reserve(db, j, d, attempt, expiresAt), es), j, Searching, Assigned, clock);
      HasLive(moved.assignments, j) <==> !Closed(es, j, Offer(d, expiresAt))
  {
    AssignedIsHeldExactlyWhenAnOfferStands(db, maxAttempts, j, d, attempt, expiresAt, es, clock);
    StandsUnlessClosed(Reserve(db, j, d, attempt, expiresAt), es, j, Offer(d, expiresAt));
  }

  /** An acceptance in the gap, by any driver, makes the second transaction stale. */
  lemma AcceptInTheGapMakesItStale(
    db: Db, maxAttempts: nat, es: seq<Event>, n: nat, j: JobId)
    requires Inv(db) && MayRun(db, maxAttempts, es)
    requires n < |es| && Takes(Run(db, es[..n]), es[n], j)
    ensures TransitionAnswer(Run(db, es), j, Searching, Assigned) == Some(StaleTransition)
  {
    MayRunSplits(db, maxAttempts, es, n);
    RunKeeps(db, maxAttempts, es[..n]);
    RunSplits(db, es, n);
    TakenForGood(Run(db, es[..n]), maxAttempts, es[n..], j);
  }

  /** Another runner that reserves the job again after a decline in the gap holds it after all: the
      decline alone does not decide. */
  lemma ReservedAgainIsHeld(
    db: Db, j: JobId, d: DriverId, d2: DriverId, attempt: Option<nat>, expiresAt: Time, clock: Time)
    requires Inv(db) && ReserveAnswer(db, j, d, attempt).None? && db.jobs[j].status == Searching
    requires d2 in db.drivers && d2 != d && !DriverHeld(db.reservations, d2)
    ensures
      var declined := Release(Reserve(db, j, d, attempt, expiresAt), j, d, Rejecting, clock);
      var again := Reserve(declined, j, d2, None, expiresAt);
      && TransitionAnswer(again, j, Searching, Assigned).None?
      && HasLive(Transition(again, j, Searching, Assigned, clock).assignments, j)
  {
    DeclineBetweenStrands(db, j, d, attempt, expiresAt, Rejecting, clock);
    var declined := Release(Reserve(db, j, d, attempt, expiresAt), j, d, Rejecting, clock);
    var again := Reserve(declined, j, d2, None, expiresAt);
    assert LiveAt(again.assignments, |declined.assignments|, j);
  }
}
