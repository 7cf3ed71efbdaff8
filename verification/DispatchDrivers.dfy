/** One driver, one piece of work? The job store says an index gives each driver at most one offer or
    job. The tables have an index on live offers per job and one on holds per driver; an accepted offer
    holds nothing any more, so a driver who has accepted may be reserved again. */
module DispatchDrivers {
  import opened Common
  import opened JobMachine
  import opened DispatchTables
  import opened DispatchSteps
  import opened DispatchInvariant
  import opened DispatchSafety

  predicate OneLivePerDriver(as_: seq<Assignment>) {
    forall i, k :: 0 <= i < k < |as_| && Live(as_[i]) && Live(as_[k]) ==> as_[i].driver != as_[k].driver
  }

  predicate AnsweredBy(as_: seq<Assignment>, i: int, d: DriverId) {
    0 <= i < |as_| && as_[i].driver == d && as_[i].status == OfferAccepted
  }

  predicate HasAnswered(as_: seq<Assignment>, d: DriverId) {
    exists i :: 0 <= i < |as_| && AnsweredBy(as_, i, d)
  }

  /** The transaction reserves a driver who has already accepted something. */
  predicate ReservesTaken(db: Db, e: Event) {
    && e.step.ReserveStep?
    && ReserveAnswer(db, e.step.j, e.step.d, e.step.attempt).None?
    && HasAnswered(db.assignments, e.step.d)
  }

  lemma OthersAddNothingLive(db: Db, e: Event)
    requires OneLivePerDriver(db.assignments) && !e.step.ReserveStep?
    ensures OneLivePerDriver(Apply(db, e).assignments)
  {
    var after := Apply(db, e).assignments;
    forall i | 0 <= i < |after|
      ensures |after| == |db.assignments| && after[i].driver == db.assignments[i].driver
      ensures Live(after[i]) ==> Live(db.assignments[i])
    {
    }
  }

  /** Two live rows for one driver: any reservation of a driver who has accepted makes them, and nothing
      else does. */
  lemma StepKeepsOneExactlyUnlessTaken(db: Db, e: Event)
    requires Inv(db) && OneLivePerDriver(db.assignments)
    ensures OneLivePerDriver(Apply(db, e).assignments) <==> !ReservesTaken(db, e)
  {
    if e.step.ReserveStep? && ReserveAnswer(db, e.step.j, e.step.d, e.step.attempt).None? {
      var as_, after, n := db.assignments, Apply(db, e).assignments, |db.assignments|;
      if i :| 0 <= i < n && AnsweredBy(as_, i, e.step.d) {
        assert Live(after[i]) && Live(after[n]);
      }
      forall i | 0 <= i < n && Live(as_[i]) && as_[i].driver == e.step.d ensures AnsweredBy(as_, i, e.step.d) {
        assert Pair(as_[i], db.reservations[i], i);
      }
    } else if !e.step.ReserveStep? {
      OthersAddNothingLive(db, e);
    }
  }

  /** At every moment of the run. */
  predicate AlwaysOnePerDriver(db: Db, es: seq<Event>)
    decreases |es|
  {
    OneLivePerDriver(db.assignments) && (|es| == 0 || AlwaysOnePerDriver(Apply(db, es[0]), es[1..]))
  }

  predicate NeverReservesTaken(db: Db, es: seq<Event>)
    decreases |es|
  {
    |es| == 0 || (!ReservesTaken(db, es[0]) && NeverReservesTaken(Apply(db, es[0]), es[1..]))
  }

  /** Over any run: each driver has at most one live offer at every moment if and only if no reservation
      ever takes a driver who has accepted something. */
  lemma {:induction false} OnePerDriverExactlyWhileNoTakenDriverIsReserved(db: Db, maxAttempts: nat, es: seq<Event>)
    requires Inv(db) && MayRun(db, maxAttempts, es) && OneLivePerDriver(db.assignments)
    ensures AlwaysOnePerDriver(db, es) <==> NeverReservesTaken(db, es)
    decreases |es|
  {
    if |es| > 0 {
      StepKeepsOneExactlyUnlessTaken(db, es[0]);
      StepKeeps(db, maxAttempts, es[0]);
      if OneLivePerDriver(Apply(db, es[0]).assignments) {
        OnePerDriverExactlyWhileNoTakenDriverIsReserved(Apply(db, es[0]), maxAttempts, es[1..]);
      }
    }
  }

  /** Reserving and accepting at once, from any sound state that allows the reservation. */
  lemma ReservedMayAccept(db: Db, j: JobId, d: DriverId, expiresAt: Time, clock: Time)
    requires Inv(db) && ReserveAnswer(db, j, d, None).None?
    requires db.jobs[j].status in {Searching, Assigned} && Eligible(db.drivers, d) && clock < expiresAt
    ensures
      var reserved := Reserve(db, j, d, None, expiresAt);
      var taken := Accept(reserved, j, d, clock);
      && AcceptAnswer(reserved, j, d, clock).None?
      && Inv(taken)
      && taken.jobs == db.jobs[j := taken.jobs[j]]
      && taken.jobs[j].status == Accepted && taken.jobs[j].driver == Some(d)
      && !DriverHeld(taken.reservations, d)
      && Eligible(taken.drivers, d)
      && (forall k :: k != j && !HasLive(db.assignments, k) ==> !HasLive(taken.assignments, k))
  {
    var reserved := Reserve(db, j, d, None, expiresAt);
    var n := |db.assignments|;
    ReserveKeeps(db, j, d, None, expiresAt);
    assert OfferAt(reserved.assignments, n, j, d) && HoldAt(reserved.reservations, n, j, d);
    var taken := Accept(reserved, j, d, clock);
    AcceptKeeps(reserved, j, d, clock);
    forall i | 0 <= i < |taken.reservations| && taken.reservations[i].driver == d
      ensures taken.reservations[i].state != Reserved
    {
      assert i < n ==> reserved.reservations[i] == db.reservations[i];
    }
    forall k | k != j && !HasLive(db.assignments, k) ensures !HasLive(taken.assignments, k) {
      if i :| 0 <= i < |taken.assignments| && LiveAt(taken.assignments, i, k) {
        assert i < n && LiveAt(db.assignments, i, k);
      }
    }
  }

  /** Two runners, two jobs, one driver: from every sound state where each job could be offered to the
      driver, both end ACCEPTED by the same driver at the same time. */
  lemma OneDriverMayHoldTwoJobs(db: Db, a: JobId, b: JobId, d: DriverId, expiresAt: Time, clock: Time)
    requires Inv(db) && a != b && clock < expiresAt
    requires ReserveAnswer(db, a, d, None).None? && ReserveAnswer(db, b, d, None).None?
    requires db.jobs[a].status in {Searching, Assigned} && db.jobs[b].status in {Searching, Assigned}
    requires Eligible(db.drivers, d)
    ensures
      var one := Accept(Reserve(db, a, d, None, expiresAt), a, d, clock);
      var both := Accept(Reserve(one, b, d, None, expiresAt), b, d, clock);
      && ReserveAnswer(one, b, d, None).None?
      && AcceptAnswer(Reserve(one, b, d, None, expiresAt), b, d, clock).None?
      && Inv(both)
      && both.jobs[a].status == Accepted && both.jobs[a].driver == Some(d)
      && both.jobs[b].status == Accepted && both.jobs[b].driver == Some(d)
  {
    ReservedMayAccept(db, a, d, expiresAt, clock);
    var one := Accept(Reserve(db, a, d, None, expiresAt), a, d, clock);
    ReservedMayAccept(one, b, d, expiresAt, clock);
  }
}
