/** What dispatch answers and leaves, told in the rows themselves: who may accept and what that writes, what
    a declined or expired offer leaves behind, which jobs are listed, and when a search ends. */
module DispatchAnswers {
  import opened Common
  import opened JobMachine
  import opened DispatchTables
  import opened DispatchSteps
  import opened DispatchInvariant
  import opened DispatchSearch
  import opened DispatchSweep

  // --- accepting ---------------------------------------------------------------------------------------

  predicate InTime(as_: seq<Assignment>, i: int, j: JobId, d: DriverId, clock: Time) {
    && 0 <= i < |as_| && as_[i].job == j && as_[i].driver == d
    && as_[i].status == Offered && clock < as_[i].expiresAt
  }

  /** An acceptance is taken if and only if the driver has an offer of the job that has not run out, is
      approved, neither suspended nor blocked nor offline, drives a verified vehicle, and the job is still
      being searched for or assigned. */
  lemma AcceptTakenExactlyWhen(db: Db, j: JobId, d: DriverId, clock: Time)
    requires Inv(db)
    ensures AcceptAnswer(db, j, d, clock).None? <==>
      && (exists i :: 0 <= i < |db.assignments| && InTime(db.assignments, i, j, d, clock))
      && db.drivers[d].approved
      && db.drivers[d].status != DriverSuspended
      && db.drivers[d].status != DriverBlocked
      && db.drivers[d].status != DriverOffline
      && db.drivers[d].vehicle.Some? && db.drivers[d].vehicle.value.verified
      && (db.jobs[j].status == Searching || db.jobs[j].status == Assigned)
  {
    if i :| 0 <= i < |db.assignments| && InTime(db.assignments, i, j, d, clock) {
      assert Pair(db.assignments[i], db.reservations[i], i);
      assert OfferAt(db.assignments, i, j, d) && HoldAt(db.reservations, i, j, d);
    }
    if i :| 0 <= i < |db.assignments| && OfferAt(db.assignments, i, j, d) && db.assignments[i].expiresAt > clock {
      assert InTime(db.assignments, i, j, d, clock);
    }
  }

  /** It answers that one offer, uses up its hold, gives the job to the driver and their vehicle, shows an
      idle or offered driver as ACCEPTED, and writes nothing else. */
  lemma AcceptanceLeaves(db: Db, j: JobId, d: DriverId, clock: Time) returns (i: nat)
    requires Inv(db) && AcceptAnswer(db, j, d, clock).None?
    ensures i < |db.assignments| == |db.reservations| && InTime(db.assignments, i, j, d, clock)
    ensures var after := Accept(db, j, d, clock);
      && after.assignments == db.assignments[i := Assignment(j, d, OfferAccepted, db.assignments[i].expiresAt)]
      && after.reservations == db.reservations[i := db.reservations[i].(state := Consumed)]
      && after.jobs == db.jobs[j := after.jobs[j]]
      && after.jobs[j].status == Accepted && after.jobs[j].driver == Some(d)
      && after.jobs[j].vehicle == Some(db.drivers[d].vehicle.value.id) && after.jobs[j].updatedAt == clock
      && after.jobs[j].history == db.jobs[j].history + [Change(Some(Assigned), Accepted)]
      && after.drivers == db.drivers[d := db.drivers[d].(status := after.drivers[d].status)]
      && (db.drivers[d].status in {DriverAvailable, DriverOffered} ==> after.drivers[d].status == DriverAccepted)
      && (db.drivers[d].status in {DriverAccepted, DriverOnTrip, DriverPaused} ==>
            after.drivers[d].status == db.drivers[d].status)
  {
    i := AcceptAnswersOne(db, j, d, clock);
  }

  // --- moving ------------------------------------------------------------------------------------------

  /** A move is made if and only if the machine has the edge and the job stands where it starts; it writes
      one history row and, the first time the job ends, when. */
  lemma MoveWritesOneRow(db: Db, j: JobId, from: JobStatus, to: JobStatus, clock: Time)
    ensures TransitionAnswer(db, j, from, to).None? <==> to in Next(from) && j in db.jobs && db.jobs[j].status == from
    ensures TransitionAnswer(db, j, from, to).Some? ==> Transition(db, j, from, to, clock) == db
    ensures TransitionAnswer(db, j, from, to).None? ==>
      var after := Transition(db, j, from, to, clock);
      && after == db.(jobs := db.jobs[j := after.jobs[j]])
      && after.jobs[j].status == to && after.jobs[j].updatedAt == clock
      && after.jobs[j].history == db.jobs[j].history + [Change(Some(from), to)]
      && after.jobs[j].driver == db.jobs[j].driver
      && (to in {Cancelled, Failed, Expired, Disputed} && db.jobs[j].terminatedAt.None? ==>
            after.jobs[j].terminatedAt == Some(clock))
      && (to !in {Cancelled, Failed, Expired, Disputed} || db.jobs[j].terminatedAt.Some? ==>
            after.jobs[j].terminatedAt == db.jobs[j].terminatedAt)
  {
  }

  /** Ending a search is the move from SEARCHING to EXPIRED, and nothing but a searching job is ended. */
  lemma EndingASearchIsAMove(db: Db, j: JobId, clock: Time)
    ensures ExpireSearchAnswer(db, j).None? <==> j in db.jobs && db.jobs[j].status == Searching
    ensures ExpireSearch(db, j, clock) == Transition(db, j, Searching, Expired, clock)
  {
  }

  // --- declining and timing out ------------------------------------------------------------------------

  /** A declined offer is REJECTED and its hold RELEASED; one timed out is EXPIRED, and its hold too. */
  lemma ReleaseClosesOne(db: Db, j: JobId, d: DriverId, c: Closing, clock: Time, i: nat)
    requires Inv(db) && i < |db.assignments| && OfferAt(db.assignments, i, j, d)
    ensures i < |db.reservations|
    ensures var after := Release(db, j, d, c, clock);
      match c
      case Rejecting =>
        && after.assignments == db.assignments[i := db.assignments[i].(status := OfferRejected)]
        && after.reservations == db.reservations[i := db.reservations[i].(state := Released)]
      case TimingOut =>
        && after.assignments == db.assignments[i := db.assignments[i].(status := OfferExpired)]
        && after.reservations == db.reservations[i := db.reservations[i].(state := HoldExpired)]
  {
    assert HasOffer(db.assignments, j, d);
    assert Pair(db.assignments[i], db.reservations[i], i);
    forall k | 0 <= k < |db.assignments| && k != i
      ensures !OffersTo(db.assignments[k], j, d) && !HoldsFor(db.reservations[k], j, d)
    {
      assert Pair(db.assignments[k], db.reservations[k], k);
    }
    var to, state := OfferClosedAs(c), HoldClosedAs(c);
    assert CloseOffers(db.assignments, j, d, to) == db.assignments[i := db.assignments[i].(status := to)];
    assert CloseHolds(db.reservations, j, d, state) == db.reservations[i := db.reservations[i].(state := state)];
  }

  /** Either way the job goes back to searching, moved at that moment, and is listed as soon as it is due;
      a driver shown as OFFERED is AVAILABLE again, and nobody else is touched. */
  lemma ReleaseReopens(db: Db, j: JobId, d: DriverId, c: Closing, clock: Time, now: Time)
    requires Inv(db) && HasOffer(db.assignments, j, d)
    ensures j in db.jobs && d in db.drivers
    ensures var after := Release(db, j, d, c, clock);
      && after.jobs == db.jobs[j := after.jobs[j]]
      && (db.jobs[j].status in {Searching, Assigned} ==>
            && after.jobs[j] == db.jobs[j].(status := Searching, updatedAt := clock)
            && (db.jobs[j].scheduledAt.None? || db.jobs[j].scheduledAt.value <= now ==> j in NeedingDispatch(after, now)))
      && (db.jobs[j].status !in {Searching, Assigned} ==> after.jobs[j] == db.jobs[j])
      && after.drivers == db.drivers[d := after.drivers[d]]
      && (db.drivers[d].status == DriverOffered ==> after.drivers[d] == db.drivers[d].(status := DriverAvailable))
      && (db.drivers[d].status != DriverOffered ==> after.drivers[d] == db.drivers[d])
  {
    var i :| 0 <= i < |db.assignments| && OfferAt(db.assignments, i, j, d);
    ReleaseClosesOne(db, j, d, c, clock, i);
    var after := Release(db, j, d, c, clock);
    assert |after.assignments| == |db.assignments|;
    forall k | 0 <= k < |after.assignments| ensures !LiveAt(after.assignments, k, j) {
      assert Live(db.assignments[i]);
      assert k != i ==> after.assignments[k] == db.assignments[k];
    }
  }

  /** A sweep shows a driver marked OFFERED as AVAILABLE exactly when no unexpired offer of theirs stands,
      and writes nothing else about any driver. */
  lemma SweepFreesShownDrivers(db: Db, cutoff: Time, clock: Time, d: DriverId)
    requires Inv(db) && d in db.drivers
    ensures var after := Sweep(db, cutoff, clock);
      && after.drivers.Keys == db.drivers.Keys
      && after.drivers[d] ==
           (if db.drivers[d].status == DriverOffered
               && !(exists i :: 0 <= i < |db.assignments| && StillOffered(db.assignments[i], d, cutoff))
            then db.drivers[d].(status := DriverAvailable) else db.drivers[d])
  {
    SweepFreesDrivers(db, cutoff, clock, d);
  }

  // --- listing -----------------------------------------------------------------------------------------

  /** A job is listed if and only if its time has come, or it has none, and it was never started or is
      searching with no offered or accepted row of its own. */
  lemma ListedExactlyWhenDueAndFree(db: Db, j: JobId, now: Time)
    ensures j in NeedingDispatch(db, now) <==>
      && j in db.jobs
      && (db.jobs[j].scheduledAt.Some? ==> db.jobs[j].scheduledAt.value <= now)
      && (|| db.jobs[j].status == Requested
          || (&& db.jobs[j].status == Searching
              && forall i :: 0 <= i < |db.assignments| && db.assignments[i].job == j ==>
                   db.assignments[i].status !in {Offered, OfferAccepted}))
  {
    if i :| 0 <= i < |db.assignments| && db.assignments[i].job == j && db.assignments[i].status in {Offered, OfferAccepted} {
      assert LiveAt(db.assignments, i, j);
    }
  }

  // --- one turn of a search ------------------------------------------------------------------------------

  lemma {:induction false} OfferBestComesTo(
    db: Db, j: JobId, shortlist: seq<DriverId>, attempt: nat, expiresAt: Time, clock: Time)
    requires Seeking(db, j) && attempt < |db.attempts|
    ensures var r := OfferBest(db, j, shortlist, attempt, expiresAt, clock);
      && j in r.db.jobs && r.db.jobs[j].status == (if r.outcome.OfferedTo? then Assigned else Searching)
      && |r.db.attempts| == |db.attempts|
      && r.db.attempts[attempt].(offered := None) == db.attempts[attempt].(offered := None)
      && r.db.assignments == (if r.outcome.OfferedTo?
                              then db.assignments + [Assignment(j, r.outcome.driver, Offered, expiresAt)]
                              else db.assignments)
  {
    if |shortlist| > 0 {
      OfferBestComesTo(db, j, shortlist[1..], attempt, expiresAt, clock);
    }
  }

  /** The search has gone on too long, or has no attempt left. */
  predicate SearchIsOver(db: Db, j: JobId, cfg: Config, clock: Time)
    requires j in db.jobs
  {
    clock - db.jobs[j].updatedAt >= cfg.deadline || AttemptCount(db.attempts, j) == cfg.maxAttempts
  }

  /** What a turn that goes on leaves: the job still searching or offered, one attempt more, at the ring of
      its number, and, if somebody was offered the job, their row with its time to live. */
  predicate WentOn(db: Db, r: Round, j: JobId, cfg: Config, s: Survey, clock: Time)
    requires |cfg.rings| > 0
  {
    var n := AttemptCount(db.attempts, j);
    var radius := if n < |cfg.rings| then cfg.rings[n] else cfg.rings[|cfg.rings| - 1];
    var outcome := if s.nearby == 0 then NoCandidates else if s.eligible == 0 then NoEligible else AttemptOffered;
    && j in r.db.jobs
    && r.db.jobs[j].status == (if r.outcome.OfferedTo? then Assigned else Searching)
    && AttemptCount(r.db.attempts, j) == n + 1
    && |r.db.attempts| == |db.attempts| + 1
    && r.db.attempts[|db.attempts|].(offered := None) == Attempt(j, n + 1, radius, outcome, None)
    && r.db.assignments == (if r.outcome.OfferedTo?
                            then db.assignments + [Assignment(j, r.outcome.driver, Offered, clock + cfg.offerTtl)]
                            else db.assignments)
  }

  lemma DispatchWentOn(db: Db, j: JobId, cfg: Config, s: Survey, clock: Time)
    requires |cfg.rings| > 0 && Seeking(db, j) && Numbered(db.attempts, j, cfg.maxAttempts)
    requires AttemptCount(db.attempts, j) < cfg.maxAttempts
    ensures WentOn(db, Dispatch(db, j, cfg, s, clock), j, cfg, s, clock)
  {
    var n := AttemptCount(db.attempts, j);
    DispatchUsesAnAttempt(db, j, cfg, s, clock);
    if s.nearby > 0 && s.eligible > 0 {
      var recorded := RecordAttempt(db, j, n + 1, RingFor(cfg.rings, n), AttemptOffered);
      OfferBestComesTo(recorded, j, s.shortlist, |db.attempts|, clock + cfg.offerTtl, clock);
    }
  }

  /** A turn ends the search, as EXPIRED and using no attempt, if and only if the job has been searching as
      long as the deadline allows or has had all its attempts; otherwise it goes on. */
  lemma TurnEndsExactlyWhenOver(db: Db, j: JobId, cfg: Config, s: Survey, clock: Time)
    requires |cfg.rings| > 0 && Seeking(db, j) && Numbered(db.attempts, j, cfg.maxAttempts)
    ensures var r := Turn(db, j, cfg, s, clock);
      && j in r.db.jobs
      && (r.db.jobs[j].status == Expired <==> SearchIsOver(db, j, cfg, clock))
      && (SearchIsOver(db, j, cfg, clock) ==>
            && r.outcome == Exhausted && r.db.attempts == db.attempts && r.db.assignments == db.assignments)
      && (!SearchIsOver(db, j, cfg, clock) ==> WentOn(db, r, j, cfg, s, clock))
  {
    if AttemptCount(db.attempts, j) < cfg.maxAttempts {
      DispatchWentOn(db, j, cfg, s, clock);
      DispatchUsesAnAttempt(db, j, cfg, s, clock);
    }
  }
}
