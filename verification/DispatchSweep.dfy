/** The expiry sweep as a repair: what it leaves in any sound state, whatever was interrupted before. */
module DispatchSweep {
  import opened Common
  import opened JobMachine
  import opened DispatchTables
  import opened DispatchSteps
  import opened DispatchInvariant

  lemma SweepClearsOverdue(db: Db, cutoff: Time, clock: Time)
    ensures var after := Sweep(db, cutoff, clock);
      && (forall i :: 0 <= i < |after.assignments| ==> !OverdueOffer(after.assignments[i], cutoff))
      && (forall i :: 0 <= i < |after.reservations| ==> !OverdueHold(after.reservations[i], cutoff))
      && CountOverdue(after.assignments, cutoff) == 0
  {
    var after := Sweep(db, cutoff, clock);
    NothingOverdue(after.assignments, cutoff);
  }

  lemma {:induction false} NothingOverdue(as_: seq<Assignment>, cutoff: Time)
    requires forall i :: 0 <= i < |as_| ==> !OverdueOffer(as_[i], cutoff)
    ensures CountOverdue(as_, cutoff) == 0
  {
    if |as_| > 0 {
      NothingOverdue(as_[..|as_| - 1], cutoff);
    }
  }

  /** The number a sweep reports is the number of offers it took away: live ones before, fewer after. */
  function CountLive(as_: seq<Assignment>): nat {
    if |as_| == 0 then 0 else CountLive(as_[..|as_| - 1]) + if Live(as_[|as_| - 1]) then 1 else 0
  }

  lemma {:induction false} SweepReportsWhatItTook(as_: seq<Assignment>, cutoff: Time)
    ensures CountLive(ExpireOffers(as_, cutoff)) == CountLive(as_) - CountOverdue(as_, cutoff)
  {
    if |as_| > 0 {
      var n := |as_| - 1;
      SweepReportsWhatItTook(as_[..n], cutoff);
      assert ExpireOffers(as_, cutoff)[..n] == ExpireOffers(as_[..n], cutoff);
    }
  }

  /** A second sweep at the same cutoff writes nothing, down to the timestamps. */
  lemma SweepTwiceIsSweepOnce(db: Db, cutoff: Time, clock: Time, clock2: Time)
    ensures Sweep(Sweep(db, cutoff, clock), cutoff, clock2) == Sweep(db, cutoff, clock)
  {
    var once := Sweep(db, cutoff, clock);
    var twice := Sweep(once, cutoff, clock2);
    assert twice.assignments == once.assignments;
    assert twice.reservations == once.reservations;
    assert twice.drivers == once.drivers;
    assert twice.jobs == once.jobs;
  }

  /** Waiting on a named driver until a deadline later than the sweep. */
  predicate WaitingOn(db: Db, j: JobId, i: nat, cutoff: Time) {
    && i < |db.assignments| == |db.reservations|
    && db.assignments[i].job == j && db.assignments[i].status == Offered
    && HoldsFor(db.reservations[i], j, db.assignments[i].driver)
    && db.assignments[i].expiresAt == db.reservations[i].expiresAt > cutoff
  }

  /** After a sweep every job still looking for a driver is either listed for the next round (once its
      scheduled time has come) or waiting on exactly one unexpired offer. */
  lemma NoJobIsStranded(db: Db, cutoff: Time, clock: Time, j: JobId)
    requires Inv(db) && j in db.jobs
    requires Sweep(db, cutoff, clock).jobs[j].status in {Requested, Searching, Assigned}
    ensures var after := Sweep(db, cutoff, clock);
      || (forall now: Time :: (after.jobs[j].scheduledAt.None? || after.jobs[j].scheduledAt.value <= now) ==>
            j in NeedingDispatch(after, now))
      || exists i: nat :: WaitingOn(after, j, i, cutoff)
  {
    var after := Sweep(db, cutoff, clock);
    SweepKeeps(db, cutoff, clock);
    if i :| 0 <= i < |after.assignments| && LiveAt(after.assignments, i, j) {
      assert after.assignments[i].status == OfferAccepted ==> !Open(after.jobs[after.assignments[i].job].status);
      assert Pair(after.assignments[i], after.reservations[i], i);
      assert !OverdueOffer(after.assignments[i], cutoff);
      assert WaitingOn(after, j, i, cutoff);
    }
  }

  /** Once every offer's deadline has passed, one sweep puts every job that was looking for a driver,
      ASSIGNED ones included, back on the list. */
  lemma LateSweepListsEveryJob(db: Db, cutoff: Time, clock: Time, now: Time, j: JobId)
    requires Inv(db) && j in db.jobs
    requires db.jobs[j].status in {Requested, Searching, Assigned}
    requires db.jobs[j].scheduledAt.None? || db.jobs[j].scheduledAt.value <= now
    requires forall i :: 0 <= i < |db.assignments| && db.assignments[i].status == Offered ==>
               db.assignments[i].expiresAt <= cutoff
    ensures j in NeedingDispatch(Sweep(db, cutoff, clock), now)
  {
  }

  /** The sweep takes nothing from anyone who is still in time: unexpired offers, answered offers, held
      and finished jobs, and drivers who are not marked OFFERED are as they were. */
  lemma SweepLeavesTheRest(db: Db, cutoff: Time, clock: Time)
    requires Inv(db)
    ensures var after := Sweep(db, cutoff, clock);
      && (forall i :: 0 <= i < |db.assignments| && !OverdueOffer(db.assignments[i], cutoff) ==>
            after.assignments[i] == db.assignments[i] && after.reservations[i] == db.reservations[i])
      && (forall j :: j in db.jobs && !Open(db.jobs[j].status) ==> after.jobs[j] == db.jobs[j])
      && (forall d :: d in db.drivers && db.drivers[d].status != DriverOffered ==> after.drivers[d] == db.drivers[d])
  {
  }

  predicate StillOffered(a: Assignment, d: DriverId, cutoff: Time) {
    a.driver == d && a.status == Offered && a.expiresAt > cutoff
  }

  /** A driver may be offered work again after a sweep exactly when no unexpired offer of theirs stands. */
  lemma SweepFreesDrivers(db: Db, cutoff: Time, clock: Time, d: DriverId)
    requires Inv(db)
    ensures DriverHeld(Sweep(db, cutoff, clock).reservations, d) <==>
      exists i :: 0 <= i < |db.assignments| && StillOffered(db.assignments[i], d, cutoff)
  {
    var after := Sweep(db, cutoff, clock);
    SweepKeeps(db, cutoff, clock);
    if i :| 0 <= i < |db.assignments| && StillOffered(db.assignments[i], d, cutoff) {
      assert Pair(after.assignments[i], after.reservations[i], i);
    }
    if i :| 0 <= i < |after.reservations| && after.reservations[i].driver == d && after.reservations[i].state == Reserved {
      assert Pair(after.assignments[i], after.reservations[i], i);
      assert after.assignments[i] == db.assignments[i];
    }
  }
}
