/** What the dispatch invariant means for whole runs: nobody is offered or given the same work twice,
    an acceptance is final, and a job only ever moves along its machine. */
module DispatchSafety {
  import opened Common
  import opened JobMachine
  import opened DispatchTables
  import opened DispatchSteps
  import opened DispatchInvariant

  /** Every state any interleaving reaches is sound. */
  lemma ReachableIsSound(db: Db, maxAttempts: nat)
    requires Reachable(db, maxAttempts)
    ensures Inv(db)
  {
    var es :| MayRun(EMPTY, maxAttempts, es) && db == Run(EMPTY, es);
    RunKeeps(EMPTY, maxAttempts, es);
  }

  /** An offer outstanding to a driver has exactly one outstanding hold, and the other way round. */
  lemma OffersAndHoldsMatch(db: Db, i: nat, k: nat)
    requires Inv(db) && i < |db.assignments| && k < |db.assignments|
    ensures db.assignments[i].status == Offered <==> db.reservations[i].state == Reserved
    ensures db.assignments[i].status == Offered && HoldsFor(db.reservations[k], db.assignments[i].job, db.assignments[i].driver)
            ==> i == k
    ensures db.reservations[k].state == Reserved && OffersTo(db.assignments[i], db.reservations[k].job, db.reservations[k].driver)
            ==> i == k
    ensures db.assignments[i].expiresAt == db.reservations[i].expiresAt
  {
  }

  // --- one step ---------------------------------------------------------------------------

  /** An offer that has been answered, withdrawn or timed out is never touched again; an outstanding
      one keeps its job, driver and deadline. */
  lemma OffersOnlyClose(db: Db, e: Event, i: nat)
    requires i < |db.assignments|
    ensures i < |Apply(db, e).assignments|
    ensures db.assignments[i].status != Offered ==> Apply(db, e).assignments[i] == db.assignments[i]
    ensures Apply(db, e).assignments[i].(status := Offered) == db.assignments[i].(status := Offered)
  {
  }

  /** How one step may change a job that already exists. */
  predicate JobStep(before: Job, after: Job) {
    && (after.status == before.status
        || Edge(before.status, after.status)
        || (before.status == Searching && after.status == Accepted))
    && (Terminal(before.status) ==> after == before)
    && (before.driver.Some? ==> after.driver == before.driver)
    && |before.history| <= |after.history|
    && after.history[..|before.history|] == before.history
  }

  lemma AcceptMovesJobs(db: Db, j: JobId, d: DriverId, clock: Time, k: JobId)
    requires Inv(db) && k in db.jobs
    ensures k in Accept(db, j, d, clock).jobs && JobStep(db.jobs[k], Accept(db, j, d, clock).jobs[k])
  {
  }

  lemma StepMovesJobs(db: Db, maxAttempts: nat, e: Event, j: JobId)
    requires Inv(db) && MayAsk(db, maxAttempts, e.step) && j in db.jobs
    ensures j in Apply(db, e).jobs && JobStep(db.jobs[j], Apply(db, e).jobs[j])
  {
    if e.step.AcceptStep? {
      AcceptMovesJobs(db, e.step.j, e.step.d, e.clock, j);
    } else {
      OthersMoveJobs(db, e, j);
    }
  }

  lemma ReleaseMovesJobs(db: Db, k: JobId, d: DriverId, c: Closing, clock: Time, j: JobId)
    requires j in db.jobs
    ensures j in Release(db, k, d, c, clock).jobs && JobStep(db.jobs[j], Release(db, k, d, c, clock).jobs[j])
  {
  }

  lemma OthersMoveJobs(db: Db, e: Event, j: JobId)
    requires !e.step.AcceptStep? && j in db.jobs
    ensures j in Apply(db, e).jobs && JobStep(db.jobs[j], Apply(db, e).jobs[j])
  {
    if e.step.ReleaseStep? {
      ReleaseMovesJobs(db, e.step.j, e.step.d, e.step.closing, e.clock, j);
    }
  }

  // --- runs -----------------------------------------------------------------------------

  lemma {:induction false} RunSplits(db: Db, es: seq<Event>, n: nat)
    requires n <= |es|
    ensures Run(db, es) == Run(Run(db, es[..n]), es[n..])
    decreases n
  {
    if n > 0 {
      RunSplits(Apply(db, es[0]), es[1..], n - 1);
      assert es[..n][1..] == es[1..][..n - 1];
      assert es[1..][n - 1..] == es[n..];
    } else {
      assert es[..0] == [] && es[0..] == es;
    }
  }

  lemma {:induction false} MayRunSplits(db: Db, maxAttempts: nat, es: seq<Event>, n: nat)
    requires MayRun(db, maxAttempts, es) && n <= |es|
    ensures MayRun(db, maxAttempts, es[..n]) && MayRun(Run(db, es[..n]), maxAttempts, es[n..])
    decreases n
  {
    if n > 0 {
      MayRunSplits(Apply(db, es[0]), maxAttempts, es[1..], n - 1);
      assert es[..n][1..] == es[1..][..n - 1];
      assert es[1..][n - 1..] == es[n..];
    } else {
      assert es[..0] == [] && es[0..] == es;
    }
  }

  /** Over any run: a job's status moves along a walk of its machine, a terminal job is never written
      again, and a driver once assigned stays. */
  lemma {:induction false} JobsFollowTheirMachine(db: Db, maxAttempts: nat, es: seq<Event>, j: JobId)
    requires Inv(db) && MayRun(db, maxAttempts, es) && j in db.jobs
    ensures j in Run(db, es).jobs
    ensures Reaches(db.jobs[j].status, Run(db, es).jobs[j].status)
    ensures Terminal(db.jobs[j].status) ==> Run(db, es).jobs[j] == db.jobs[j]
    ensures db.jobs[j].driver.Some? ==> Run(db, es).jobs[j].driver == db.jobs[j].driver
    decreases |es|
  {
    if |es| == 0 {
      ReachesSelf(db.jobs[j].status);
    } else {
      var next := Apply(db, es[0]);
      StepMovesJobs(db, maxAttempts, es[0], j);
      StepKeeps(db, maxAttempts, es[0]);
      JobsFollowTheirMachine(next, maxAttempts, es[1..], j);
      StepIsWalk(db.jobs[j], next.jobs[j]);
      ReachesTransitively(db.jobs[j].status, next.jobs[j].status, Run(db, es).jobs[j].status);
    }
  }

  lemma StepIsWalk(before: Job, after: Job)
    requires JobStep(before, after)
    ensures Reaches(before.status, after.status)
  {
    if after.status == before.status {
      ReachesSelf(before.status);
    } else if Edge(before.status, after.status) {
      ReachesByEdge(before.status, after.status);
    } else {
      ReachesByEdge(Searching, Assigned);
      ReachesByEdge(Assigned, Accepted);
      ReachesTransitively(Searching, Assigned, Accepted);
    }
  }

  lemma {:induction false} AnsweredOffersStay(db: Db, es: seq<Event>, i: nat)
    requires i < |db.assignments| && db.assignments[i].status != Offered
    ensures i < |Run(db, es).assignments| && Run(db, es).assignments[i] == db.assignments[i]
    decreases |es|
  {
    if |es| > 0 {
      OffersOnlyClose(db, es[0], i);
      AnsweredOffersStay(Apply(db, es[0]), es[1..], i);
    }
  }

  /** A winning acceptance leaves an accepted offer behind, for that driver. */
  lemma AcceptLeavesAnswer(db: Db, j: JobId, d: DriverId, clock: Time) returns (i: nat)
    requires Inv(db) && AcceptAnswer(db, j, d, clock).None?
    ensures i < |Accept(db, j, d, clock).assignments|
    ensures AcceptedAt(Accept(db, j, d, clock).assignments, i, j)
    ensures Accept(db, j, d, clock).assignments[i].driver == d
  {
    var n :| 0 <= n < |db.assignments| && OfferAt(db.assignments, n, j, d) && db.assignments[n].expiresAt > clock;
    i := n;
  }

  lemma RunFromMiddle(db: Db, es: seq<Event>, first: nat, later: nat)
    requires first < later <= |es|
    ensures Run(db, es[..later]) == Run(Apply(Run(db, es[..first]), es[first]), es[first + 1..later])
  {
    RunSplits(db, es[..later], first);
    assert es[..later][..first] == es[..first];
    assert es[..later][first..][0] == es[first] && es[..later][first..][1..] == es[first + 1..later];
  }

  /** At most one acceptance of a job ever wins, whichever drivers ask and whatever happens between. */
  lemma OneAcceptanceWins(
    db: Db, maxAttempts: nat, es: seq<Event>, first: nat, later: nat, j: JobId, d1: DriverId, d2: DriverId)
    requires Inv(db) && MayRun(db, maxAttempts, es)
    requires first < later < |es|
    requires es[first].step == AcceptStep(j, d1) && es[later].step == AcceptStep(j, d2)
    requires AcceptAnswer(Run(db, es[..first]), j, d1, es[first].clock).None?
    ensures AcceptAnswer(Run(db, es[..later]), j, d2, es[later].clock).Some?
  {
    MayRunSplits(db, maxAttempts, es, first);
    MayRunSplits(db, maxAttempts, es, later);
    RunKeeps(db, maxAttempts, es[..first]);
    RunKeeps(db, maxAttempts, es[..later]);
    var before := Run(db, es[..first]);
    var i := AcceptLeavesAnswer(before, j, d1, es[first].clock);
    AnsweredOffersStay(Apply(before, es[first]), es[first + 1..later], i);
    RunFromMiddle(db, es, first, later);
  }

  /** While a driver carries a job, and after, exactly one accepted offer stands for it: that driver's. */
  lemma HeldJobsHaveOneAnswer(db: Db, j: JobId) returns (i: nat)
    requires Inv(db) && j in db.jobs && Held(db.jobs[j].status)
    ensures i < |db.assignments| && AcceptedAt(db.assignments, i, j)
    ensures db.jobs[j].driver == Some(db.assignments[i].driver)
    ensures forall k :: 0 <= k < |db.assignments| && LiveAt(db.assignments, k, j) ==> k == i
  {
    assert DriverAnswered(db, j) && JobSound(db.jobs[j]);
    var n :| 0 <= n < |db.assignments| && AcceptedAt(db.assignments, n, j);
    i := n;
    assert Live(db.assignments[i]);
  }

  // --- the gap between the two transactions of a dispatch -------------------------------------

  /** Reserving and moving the job to ASSIGNED are two transactions. From every sound state where the
      reservation succeeds, a driver who declines between the two leaves an ASSIGNED job nobody holds. */
  lemma DeclineBetweenStrands(
    db: Db, j: JobId, d: DriverId, attempt: Option<nat>, expiresAt: Time, closing: Closing, clock: Time)
    requires Inv(db)
    requires ReserveAnswer(db, j, d, attempt).None? && db.jobs[j].status == Searching
    ensures
      var offered := Reserve(db, j, d, attempt, expiresAt);
      var declined := Release(offered, j, d, closing, clock);
      var moved := Transition(declined, j, Searching, Assigned, clock);
      && ReleaseAnswer(offered, j, d).None?
      && TransitionAnswer(declined, j, Searching, Assigned).None?
      && moved.jobs[j].status == Assigned && !HasLive(moved.assignments, j)
  {
    var offered := Reserve(db, j, d, attempt, expiresAt);
    var n := |db.assignments|;
    assert OfferAt(offered.assignments, n, j, d);
    var declined := Release(offered, j, d, closing, clock);
    forall i | 0 <= i < |declined.assignments| ensures !LiveAt(declined.assignments, i, j) {
      assert i < n ==> !LiveAt(db.assignments, i, j);
      assert i == n || offered.assignments[i] == db.assignments[i];
    }
  }

  /** The second transaction of a dispatch leaves the job held exactly when some offer of it is still
      unanswered as it commits. */
  lemma AssignedIsHeldExactlyWhileOffered(db: Db, j: JobId, clock: Time)
    requires Inv(db) && j in db.jobs && db.jobs[j].status == Searching
    ensures Transition(db, j, Searching, Assigned, clock).jobs[j].status == Assigned
    ensures HasLive(Transition(db, j, Searching, Assigned, clock).assignments, j)
            <==> exists d :: d in db.drivers && HasOffer(db.assignments, j, d)
  {
    if i :| 0 <= i < |db.assignments| && LiveAt(db.assignments, i, j) {
      if db.assignments[i].status == Offered {
        assert OfferAt(db.assignments, i, j, db.assignments[i].driver);
        assert HasOffer(db.assignments, j, db.assignments[i].driver);
      }
    }
    if d :| d in db.drivers && HasOffer(db.assignments, j, d) {
      var i :| 0 <= i < |db.assignments| && OfferAt(db.assignments, i, j, d);
      assert LiveAt(db.assignments, i, j);
    }
  }
}
