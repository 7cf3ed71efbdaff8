/** The stores and services as objects: each statement of a transaction in turn, rolled back on error,
    proved against the step it commits. */
module DispatchStore {
  import opened Common
  import opened JobMachine
  import opened DispatchTables
  import Steps = DispatchSteps
  import opened DispatchInvariant
  import Search = DispatchSearch
  import Rounds = DispatchRound
  import Answers = DispatchAnswers

  class Store {
    var jobs: map<JobId, Job>
    var assignments: seq<Assignment>
    var reservations: seq<Reservation>
    var drivers: map<DriverId, Driver>
    var attempts: seq<Attempt>

    constructor ()
      ensures State() == Steps.EMPTY && Inv(State())
    {
      jobs, assignments, reservations, drivers, attempts := map[], [], [], map[], [];
    }

    function State(): Db
      reads this
    {
      Db(jobs, assignments, reservations, drivers, attempts)
    }

    // --- dispatch store ----------------------------------------------------------------

    method Reserve(j: JobId, d: DriverId, attempt: Option<nat>, ttl: Time, clock: Time)
      returns (answer: Steps.Answer, reservation: nat, assignment: nat)
      modifies this
      ensures answer == Steps.ReserveAnswer(old(State()), j, d, attempt)
      ensures State() == Steps.Reserve(old(State()), j, d, attempt, clock + ttl)
      ensures answer.None? ==> reservation == |old(reservations)| && assignment == |old(assignments)|
      ensures Inv(old(State())) ==> Inv(State())
    {
      ghost var before := State();
      reservation, assignment := |reservations|, |assignments|;
      answer := None;
      var expiresAt := clock + ttl;
      var undo := reservations;
      if DriverHeld(reservations, d) {
        answer := Some(Steps.DriverBusy);
        return;
      }
      if j !in jobs || d !in drivers {
        answer := Some(Steps.NoSuchRow);
        return;
      }
      reservations := reservations + [Reservation(j, d, None, Reserved, expiresAt)];
      if HasLive(assignments, j) {
        reservations := undo;
        answer := Some(Steps.JobClaimed);
        return;
      }
      if attempt.Some? && attempt.value >= |attempts| {
        reservations := undo;
        answer := Some(Steps.NoSuchRow);
        return;
      }
      assignments := assignments + [Assignment(j, d, Offered, expiresAt)];
      reservations := reservations[reservation := reservations[reservation].(assignment := Some(assignment))];
      if attempt.Some? {
        attempts := attempts[attempt.value := attempts[attempt.value].(offered := Some(d))];
      }
      assert reservations == undo + [Reservation(j, d, Some(assignment), Reserved, expiresAt)];
      assert State() == Steps.Reserve(before, j, d, attempt, expiresAt);
      assert Inv(before) ==> Inv(State()) by {
        if Inv(before) { ReserveKeeps(before, j, d, attempt, expiresAt); }
      }
    }

    method Accept(j: JobId, d: DriverId, clock: Time) returns (answer: Steps.Answer)
      modifies this
      ensures answer == Steps.AcceptAnswer(old(State()), j, d, clock)
      ensures State() == Steps.Accept(old(State()), j, d, clock)
      ensures Inv(old(State())) ==> Inv(State())
    {
      ghost var before := State();
      answer := None;
      if !HasOpenOffer(assignments, j, d, clock) {
        answer := Some(Steps.OfferNotFound);
        return;
      }
      var undoOffers, undoHolds := assignments, reservations;
      assignments := AcceptOffers(assignments, j, d, clock);
      if !HasOpenHold(reservations, j, d, clock) {
        assignments := undoOffers;
        answer := Some(Steps.ReservationLost);
        return;
      }
      reservations := ConsumeHolds(reservations, j, d, clock);
      if !Eligible(drivers, d) {
        assignments, reservations := undoOffers, undoHolds;
        answer := Some(Steps.NotEligible);
        return;
      }
      if j !in jobs || jobs[j].status !in {Searching, Assigned} {
        assignments, reservations := undoOffers, undoHolds;
        answer := Some(Steps.JobClaimed);
        return;
      }
      var row := jobs[j].(status := Accepted, driver := Some(d),
                          vehicle := Some(drivers[d].vehicle.value.id), updatedAt := clock);
      row := row.(history := row.history + [Change(Some(Assigned), Accepted)]);
      jobs := jobs[j := row];
      drivers := drivers[d := Steps.Occupied(drivers[d])];
      assert State() == Steps.Accept(before, j, d, clock);
      assert Inv(before) ==> Inv(State()) by {
        if Inv(before) { AcceptKeeps(before, j, d, clock); }
      }
    }

    method Release(j: JobId, d: DriverId, closing: Steps.Closing, clock: Time) returns (answer: Steps.Answer)
      modifies this
      ensures answer == Steps.ReleaseAnswer(old(State()), j, d)
      ensures State() == Steps.Release(old(State()), j, d, closing, clock)
      ensures Inv(old(State())) ==> Inv(State())
    {
      ghost var before := State();
      answer := None;
      if !HasOffer(assignments, j, d) {
        answer := Some(Steps.OfferNotFound);
        return;
      }
      assignments := CloseOffers(assignments, j, d, Steps.OfferClosedAs(closing));
      reservations := CloseHolds(reservations, j, d, Steps.HoldClosedAs(closing));
      if d in drivers {
        drivers := drivers[d := Steps.Freed(drivers[d])];
      }
      if j in jobs {
        jobs := jobs[j := Steps.Reopened(jobs[j], clock)];
      }
      assert State() == Steps.Release(before, j, d, closing, clock);
      assert Inv(before) ==> Inv(State()) by {
        if Inv(before) { ReleaseKeeps(before, j, d, closing, clock); }
      }
    }

    method Reject(j: JobId, d: DriverId, clock: Time) returns (answer: Steps.Answer)
      modifies this
      ensures answer == Steps.ReleaseAnswer(old(State()), j, d)
      ensures State() == Steps.Release(old(State()), j, d, Steps.Rejecting, clock)
      ensures Inv(old(State())) ==> forall i :: OfferAt(old(assignments), i, j, d) ==>
        && assignments == old(assignments)[i := old(assignments)[i].(status := OfferRejected)]
        && i < |old(reservations)| && reservations == old(reservations)[i := old(reservations)[i].(state := Released)]
    {
      ghost var before := State();
      forall i | Inv(before) && OfferAt(before.assignments, i, j, d)
        ensures Steps.Release(before, j, d, Steps.Rejecting, clock).assignments
                == before.assignments[i := before.assignments[i].(status := OfferRejected)]
        ensures i < |before.reservations|
        ensures Steps.Release(before, j, d, Steps.Rejecting, clock).reservations
                == before.reservations[i := before.reservations[i].(state := Released)]
      {
        Answers.ReleaseClosesOne(before, j, d, Steps.Rejecting, clock, i);
      }
      answer := Release(j, d, Steps.Rejecting, clock);
    }

    method ExpireOffer(j: JobId, d: DriverId, clock: Time) returns (answer: Steps.Answer)
      modifies this
      ensures answer == Steps.ReleaseAnswer(old(State()), j, d)
      ensures State() == Steps.Release(old(State()), j, d, Steps.TimingOut, clock)
      ensures Inv(old(State())) ==> forall i :: OfferAt(old(assignments), i, j, d) ==>
        && assignments == old(assignments)[i := old(assignments)[i].(status := OfferExpired)]
        && i < |old(reservations)| && reservations == old(reservations)[i := old(reservations)[i].(state := HoldExpired)]
    {
      ghost var before := State();
      forall i | Inv(before) && OfferAt(before.assignments, i, j, d)
        ensures Steps.Release(before, j, d, Steps.TimingOut, clock).assignments
                == before.assignments[i := before.assignments[i].(status := OfferExpired)]
        ensures i < |before.reservations|
        ensures Steps.Release(before, j, d, Steps.TimingOut, clock).reservations
                == before.reservations[i := before.reservations[i].(state := HoldExpired)]
      {
        Answers.ReleaseClosesOne(before, j, d, Steps.TimingOut, clock, i);
      }
      answer := Release(j, d, Steps.TimingOut, clock);
    }

    method SweepExpired(cutoff: Time, clock: Time) returns (expired: nat)
      modifies this
      ensures expired == CountOverdue(old(assignments), cutoff)
      ensures State() == Steps.Sweep(old(State()), cutoff, clock)
      ensures Inv(old(State())) ==> Inv(State())
    {
      ghost var before := State();
      expired := CountOverdue(assignments, cutoff);
      assignments := ExpireOffers(assignments, cutoff);
      reservations := ExpireHolds(reservations, cutoff);
      drivers := FreeDrivers(drivers, reservations);
      jobs := ReopenJobs(jobs, assignments, clock);
      assert Inv(before) ==> Inv(State()) by {
        if Inv(before) { SweepKeeps(before, cutoff, clock); }
      }
    }

    method RecordAttempt(j: JobId, number: nat, radius: nat, outcome: AttemptOutcome)
      returns (answer: Steps.Answer, id: nat)
      modifies this
      ensures answer == Steps.RecordAnswer(old(State()), j, number)
      ensures State() == Steps.RecordAttempt(old(State()), j, number, radius, outcome)
      ensures answer.None? ==> id == |old(attempts)|
    {
      answer, id := Steps.RecordAnswer(State(), j, number), |attempts|;
      if answer.None? {
        attempts := attempts + [Attempt(j, number, radius, outcome, None)];
      }
    }

    // --- job store ------------------------------------------------------------------------

    method Transition(j: JobId, from: JobStatus, to: JobStatus, clock: Time) returns (answer: Steps.Answer)
      modifies this
      ensures answer == Steps.TransitionAnswer(old(State()), j, from, to)
      ensures State() == Steps.Transition(old(State()), j, from, to, clock)
    {
      answer := None;
      if !Edge(from, to) {
        answer := Some(Steps.IllegalTransition);
        return;
      }
      if j !in jobs {
        answer := Some(Steps.NoSuchRow);
        return;
      }
      if jobs[j].status != from {
        answer := Some(Steps.StaleTransition);
        return;
      }
      var row := jobs[j];
      var terminated := if Terminal(to) then Some(clock) else None;
      row := row.(status := to, updatedAt := clock,
                  terminatedAt := if row.terminatedAt.Some? then row.terminatedAt else terminated);
      row := row.(history := row.history + [Change(Some(from), to)]);
      jobs := jobs[j := row];
    }

    method ExpireSearch(j: JobId, clock: Time) returns (answer: Steps.Answer)
      modifies this
      ensures answer == Steps.ExpireSearchAnswer(old(State()), j)
      ensures State() == Steps.ExpireSearch(old(State()), j, clock)
      ensures Inv(old(State())) ==> Inv(State())
    {
      ghost var before := State();
      answer := None;
      if j !in jobs {
        answer := Some(Steps.NoSuchRow);
      } else if jobs[j].status != Searching {
        answer := Some(Steps.StaleTransition);
      } else {
        var row := jobs[j].(status := Expired, updatedAt := clock,
                            terminatedAt := Steps.FirstOf(jobs[j].terminatedAt, clock));
        row := row.(history := row.history + [Change(Some(Searching), Expired)]);
        jobs := jobs[j := row];
        assert State() == Steps.ExpireSearch(before, j, clock);
        assert Inv(before) ==> Inv(State()) by {
          if Inv(before) { MovedKeeps(before, j, Expired, clock); }
        }
      }
    }

    /** The assignment holding a job, if any: under the invariant there is at most one. */
    method LiveAssignment(j: JobId) returns (found: Option<nat>)
      ensures found.Some? <==> HasLive(assignments, j)
      ensures found.Some? ==> LiveAt(assignments, found.value, j)
      ensures found.Some? && Inv(State()) ==> forall k :: LiveAt(assignments, k, j) ==> k == found.value
    {
      if i :| 0 <= i < |assignments| && LiveAt(assignments, i, j) {
        found := Some(i);
      } else {
        found := None;
      }
    }

    /** Up to `limit` jobs waiting for a round, oldest first; all of them when the limit allows. */
    method NeedingDispatch(now: Time, limit: int) returns (ids: seq<JobId>)
      ensures ListsOldest(WaitingSince(State(), now), ids, if limit <= 0 then 100 else limit)
      ensures forall j :: j in ids ==> Steps.Needs(State(), j, now)
    {
      var bound := if limit <= 0 then 100 else limit;
      ids := Oldest(WaitingSince(State(), now), bound);
    }

    /** Up to `limit` stale searches, those longest unmoved first; all of them when the limit allows. */
    method SearchingSince(before: Time, limit: int) returns (ids: seq<JobId>)
      ensures ListsOldest(StaleSince(jobs, before), ids, if limit <= 0 then 100 else limit)
      ensures forall j :: j in ids ==> j in jobs && StaleSearch(jobs[j], before)
    {
      var bound := if limit <= 0 then 100 else limit;
      ids := Oldest(StaleSince(jobs, before), bound);
    }
  }

  /** Every job waiting for a round, with the time it was created. */
  function WaitingSince(db: Db, now: Time): map<JobId, Time> {
    map j | j in Steps.NeedingDispatch(db, now) :: db.jobs[j].createdAt
  }

  /** Every stale search, with the time anything last moved it. */
  function StaleSince(jobs: map<JobId, Job>, before: Time): map<JobId, Time> {
    map j | j in jobs && StaleSearch(jobs[j], before) :: jobs[j].updatedAt
  }

  /** The earliest rows first, ties in any order, and `bound` of them unless there are fewer. */
  predicate ListsOldest(stamps: map<JobId, Time>, ids: seq<JobId>, bound: nat) {
    && (forall i, k :: 0 <= i < k < |ids| ==> ids[i] != ids[k])
    && (forall j :: j in ids ==> j in stamps)
    && (forall i, k :: 0 <= i < k < |ids| ==> stamps[ids[i]] <= stamps[ids[k]])
    && (forall i, j :: 0 <= i < |ids| && j in stamps && j !in ids ==> stamps[ids[i]] <= stamps[j])
    && |ids| <= bound
    && (|ids| < bound ==> forall j :: j in stamps ==> j in ids)
  }

  method Earliest(stamps: map<JobId, Time>) returns (j: JobId)
    requires stamps.Keys != {}
    ensures j in stamps && forall k :: k in stamps ==> stamps[j] <= stamps[k]
  {
    j :| j in stamps;
    var rest := stamps.Keys - {j};
    while rest != {}
      invariant rest <= stamps.Keys && j in stamps
      invariant forall k :: k in stamps && k !in rest ==> stamps[j] <= stamps[k]
    {
      var k :| k in rest;
      rest := rest - {k};
      if stamps[k] < stamps[j] {
        j := k;
      }
    }
  }

  /** The rows in the order of their stamps, cut off at the limit. */
  method Oldest(stamps: map<JobId, Time>, bound: nat) returns (ids: seq<JobId>)
    ensures ListsOldest(stamps, ids, bound)
  {
    var rest := stamps;
    ids := [];
    while rest.Keys != {} && |ids| < bound
      invariant |ids| <= bound
      invariant forall j :: j in rest ==> j in stamps && j !in ids && rest[j] == stamps[j]
      invariant forall j :: j in stamps && j !in ids ==> j in rest
      invariant forall j :: j in ids ==> j in stamps
      invariant forall i, k :: 0 <= i < k < |ids| ==> ids[i] != ids[k] && stamps[ids[i]] <= stamps[ids[k]]
      invariant forall i, j :: 0 <= i < |ids| && j in rest ==> stamps[ids[i]] <= stamps[j]
      decreases |rest.Keys|
    {
      var j := Earliest(rest);
      assert (rest - {j}).Keys == rest.Keys - {j};
      rest := rest - {j};
      ids := ids + [j];
    }
  }

  /** A search nothing has moved since a moment. */
  predicate StaleSearch(job: Job, before: Time) {
    job.status == Searching && job.updatedAt <= before
  }

  /** The job as it was, or its stale search ended. */
  predicate Swept(after: Job, job: Job, before: Time, now: Time) {
    after == job || (StaleSearch(job, before) && after == Steps.Moved(job, Expired, now))
  }

  function SearchesEnded(before: map<JobId, Job>, after: map<JobId, Job>): set<JobId> {
    set j | j in before && j in after && before[j].status == Searching && after[j].status == Expired
  }

  /** The searches ended one after the other. */
  function EndAll(db: Db, ids: seq<JobId>, clock: Time): Db {
    if |ids| == 0 then db else Steps.ExpireSearch(EndAll(db, ids[..|ids| - 1], clock), ids[|ids| - 1], clock)
  }

  predicate EndedExactly(db: Db, after: Db, ids: seq<JobId>, clock: Time) {
    && after == db.(jobs := after.jobs) && after.jobs.Keys == db.jobs.Keys
    && forall j :: j in db.jobs ==>
         after.jobs[j] == if j in ids then Steps.Moved(db.jobs[j], Expired, clock) else db.jobs[j]
  }

  lemma EndsOneMore(db: Db, before: Db, ids: seq<JobId>, j: JobId, clock: Time)
    requires EndedExactly(db, before, ids, clock) && j !in ids
    requires j in db.jobs && db.jobs[j].status == Searching
    ensures EndedExactly(db, Steps.ExpireSearch(before, j, clock), ids + [j], clock)
    ensures |SearchesEnded(db.jobs, Steps.ExpireSearch(before, j, clock).jobs)| == |SearchesEnded(db.jobs, before.jobs)| + 1
  {
    var after := Steps.ExpireSearch(before, j, clock);
    assert SearchesEnded(db.jobs, after.jobs) == SearchesEnded(db.jobs, before.jobs) + {j};
  }

  predicate AllSearching(db: Db, ids: seq<JobId>) {
    && (forall i, k :: 0 <= i < k < |ids| ==> ids[i] != ids[k])
    && forall i :: 0 <= i < |ids| ==> ids[i] in db.jobs && db.jobs[ids[i]].status == Searching
  }

  lemma EndAllGoesOn(db: Db, first: seq<JobId>, last: JobId, clock: Time)
    ensures EndAll(db, first + [last], clock) == Steps.ExpireSearch(EndAll(db, first, clock), last, clock)
  {
    assert (first + [last])[..|first|] == first;
  }

  lemma SearchingButTheLast(db: Db, first: seq<JobId>, last: JobId)
    requires AllSearching(db, first + [last])
    ensures AllSearching(db, first) && last !in first && last in db.jobs && db.jobs[last].status == Searching
  {
    var all := first + [last];
    assert all[|first|] == last;
    assert forall i :: 0 <= i < |first| ==> first[i] == all[i];
    forall i, k | 0 <= i < k < |first| ensures first[i] != first[k] {
      assert all[i] != all[k];
    }
  }

  predicate EndedThese(db: Db, ids: seq<JobId>, clock: Time) {
    && EndedExactly(db, EndAll(db, ids, clock), ids, clock)
    && |SearchesEnded(db.jobs, EndAll(db, ids, clock).jobs)| == |ids|
  }

  lemma EndedOneMore(db: Db, first: seq<JobId>, last: JobId, clock: Time)
    requires AllSearching(db, first + [last]) && EndedThese(db, first, clock)
    ensures EndedThese(db, first + [last], clock)
  {
    SearchingButTheLast(db, first, last);
    EndsOneMore(db, EndAll(db, first, clock), first, last, clock);
    EndAllGoesOn(db, first, last, clock);
  }

  /** Ending distinct searches ends just those, each as if alone. */
  lemma {:induction false} EndsWhatItLists(db: Db, ids: seq<JobId>, clock: Time)
    requires AllSearching(db, ids)
    ensures EndedThese(db, ids, clock)
  {
    if |ids| == 0 {
      assert SearchesEnded(db.jobs, db.jobs) == {};
    } else {
      var first, last := ids[..|ids| - 1], ids[|ids| - 1];
      assert ids == first + [last];
      SearchingButTheLast(db, first, last);
      EndsWhatItLists(db, first, clock);
      EndedOneMore(db, first, last, clock);
    }
  }

  // --- engine and runner -------------------------------------------------------------------

  class Runner {
    const store: Store
    const cfg: Search.Config

    constructor (store: Store, cfg: Search.Config)
      requires |cfg.rings| > 0
      ensures this.store == store && this.cfg == cfg
    {
      this.store, this.cfg := store, cfg;
    }

    /** One attempt: survey, record, then reserve and offer, best first. */
    method Dispatch(j: JobId, s: Search.Survey, clock: Time) returns (outcome: Search.Outcome)
      requires |cfg.rings| > 0
      modifies store
      ensures Search.Round(store.State(), outcome) == Search.Dispatch(old(store.State()), j, cfg, s, clock)
    {
      if j !in store.jobs {
        return Search.Broken(Steps.NoSuchRow);
      }
      if store.jobs[j].status != Searching {
        return Search.Broken(Steps.StaleTransition);
      }
      var previous := AttemptCount(store.attempts, j);
      if previous >= cfg.maxAttempts {
        return Search.Exhausted;
      }
      var number := previous + 1;
      var radius := cfg.rings[Search.Min(previous, |cfg.rings| - 1)];
      if s.nearby == 0 {
        var _, _ := store.RecordAttempt(j, number, radius, NoCandidates);
        return Search.NobodyNear;
      }
      if s.eligible == 0 {
        var _, _ := store.RecordAttempt(j, number, radius, NoEligible);
        return Search.NobodyEligible;
      }
      var recorded, attempt := store.RecordAttempt(j, number, radius, AttemptOffered);
      if recorded.Some? {
        return Search.Broken(recorded.value);
      }
      ghost var start := store.State();
      var i := 0;
      while i < |s.shortlist|
        invariant 0 <= i <= |s.shortlist|
        invariant store.State() == start
        invariant Search.OfferBest(start, j, s.shortlist, attempt, clock + cfg.offerTtl, clock)
               == Search.OfferBest(start, j, s.shortlist[i..], attempt, clock + cfg.offerTtl, clock)
      {
        var d := s.shortlist[i];
        assert s.shortlist[i..][0] == d && s.shortlist[i..][1..] == s.shortlist[i + 1..];
        var answer, _, _ := store.Reserve(j, d, Some(attempt), cfg.offerTtl, clock);
        if answer.None? {
          var _ := store.Transition(j, Searching, Assigned, clock);  // a refusal is only logged
          return Search.OfferedTo(d);
        }
        if answer == Some(Steps.JobClaimed) {
          return Search.ReservationMissed;
        }
        if answer != Some(Steps.DriverBusy) {
          return Search.Broken(answer.value);
        }
        i := i + 1;
      }
      return Search.ReservationMissed;
    }

    /** One turn: give up when the search is over, otherwise attempt once. */
    method Attempt(j: JobId, s: Search.Survey, clock: Time) returns (outcome: Search.Outcome)
      requires |cfg.rings| > 0
      modifies store
      ensures Search.Round(store.State(), outcome) == Search.Turn(old(store.State()), j, cfg, s, clock)
      ensures var before := old(store.State());
        Search.Seeking(before, j) && Search.Numbered(before.attempts, j, cfg.maxAttempts) ==>
          if clock - before.jobs[j].updatedAt >= cfg.deadline || AttemptCount(before.attempts, j) == cfg.maxAttempts
          then j in store.jobs && store.jobs[j].status == Expired
          else Answers.WentOn(before, Search.Round(store.State(), outcome), j, cfg, s, clock)
    {
      ghost var before := store.State();
      if Search.Seeking(before, j) && Search.Numbered(before.attempts, j, cfg.maxAttempts) {
        Answers.TurnEndsExactlyWhenOver(before, j, cfg, s, clock);
      }
      if j !in store.jobs {
        return Search.Broken(Steps.NoSuchRow);
      }
      if store.jobs[j].status != Searching {
        return Search.NotSearching;
      }
      if clock - store.jobs[j].updatedAt >= cfg.deadline {
        var _ := store.ExpireSearch(j, clock);
        return Search.Exhausted;
      }
      Search.ExhaustedTouchesNothing(store.State(), j, cfg, s, clock);
      outcome := Dispatch(j, s, clock);
      if outcome == Search.Exhausted {
        var _ := store.ExpireSearch(j, clock);
      }
    }

    /** A pass: expired offers are released first, then every waiting job, oldest first, is started if need
        be and given one turn. One job failing does not stop the rest. `surveys` is what the outside world
        would show for each job. It reports the jobs it started and those it left held. */
    method Round(now: Time, limit: int, surveys: JobId -> Search.Survey, clock: Time)
      returns (ids: seq<JobId>, released: nat, started: nat, offered: nat)
      requires |cfg.rings| > 0
      modifies store
      ensures released == CountOverdue(old(store.assignments), now)
      ensures var swept := Steps.Sweep(old(store.State()), now, clock);
        && ListsOldest(WaitingSince(swept, now), ids, if limit <= 0 then 100 else limit)
        && store.State() == Rounds.DriveAll(swept, ids, cfg, surveys, clock)
        && started == Rounds.CountRequested(swept, ids)
        && offered == Rounds.CountHeld(store.assignments, ids) - Rounds.CountHeld(swept.assignments, ids)
    {
      released := store.SweepExpired(now, clock);
      ghost var swept := store.State();
      ids := store.NeedingDispatch(now, limit);
      started, offered := 0, 0;
      for i := 0 to |ids|
        invariant store.State() == Rounds.DriveAll(swept, ids[..i], cfg, surveys, clock)
        invariant started == Rounds.CountRequested(swept, ids[..i])
        invariant offered == Rounds.OffersMade(swept, ids[..i], cfg, surveys, clock)
      {
        var j := ids[i];
        assert j in ids && j in swept.jobs;
        Rounds.RoundGoesOn(swept, ids, i, cfg, surveys, clock);
        if j in store.jobs && store.jobs[j].status == Requested {
          var answer := store.Transition(j, Requested, Searching, clock);
          started := started + 1;
        }
        var outcome := Attempt(j, surveys(j), clock);
        if outcome.OfferedTo? {
          offered := offered + 1;
        }
      }
      assert ids[..|ids|] == ids;
      Rounds.OffersMadeAreHeld(swept, ids, cfg, surveys, clock);
    }

    /** Ends every search past its deadline, however its dispatch loop died, and touches nothing else. It
        reports how many searches it ended. */
    method Sweep(now: Time, limit: int) returns (expired: nat)
      modifies store
      ensures store.jobs.Keys == old(store.jobs).Keys
      ensures forall j :: j in store.jobs ==> Swept(store.jobs[j], old(store.jobs)[j], now - cfg.deadline, now)
      ensures store.State() == old(store.State()).(jobs := store.jobs)
      ensures expired == |SearchesEnded(old(store.jobs), store.jobs)|
      ensures forall j :: j in SearchesEnded(old(store.jobs), store.jobs) ==>
                now - old(store.jobs)[j].updatedAt >= cfg.deadline
      ensures expired < (if limit <= 0 then 100 else limit) ==>
                forall j :: j in store.jobs && store.jobs[j].status == Searching ==>
                  now - store.jobs[j].updatedAt < cfg.deadline
    {
      var stale := store.SearchingSince(now - cfg.deadline, limit);
      expired := 0;
      for i := 0 to |stale|
        invariant expired == i
        invariant store.State() == EndAll(old(store.State()), stale[..i], now)
      {
        assert stale[..i + 1][..i] == stale[..i];
        var _ := store.ExpireSearch(stale[i], now);
        expired := expired + 1;
      }
      assert stale[..|stale|] == stale;
      EndsWhatItLists(old(store.State()), stale, now);
    }
  }

  // --- driver commands -----------------------------------------------------------------------

  datatype Command = Arrive | Start | Complete

  function Target(c: Command): JobStatus {
    match c case Arrive => AtPickup case Start => InProgress case Complete => Completed
  }

  /** The history rows of a walk along the main flow, every state on the way included. */
  function FlowRows(from: nat, to: nat): seq<Change>
    requires from <= to < |MAIN_FLOW|
  {
    seq(to - from, i requires 0 <= i < to - from => Change(Some(MAIN_FLOW[from + i]), MAIN_FLOW[from + i + 1]))
  }

  lemma FlowRowsGrow(from: nat, i: nat)
    requires from <= i < |MAIN_FLOW| - 1
    ensures FlowRows(from, i + 1) == FlowRows(from, i) + [Change(Some(MAIN_FLOW[i]), MAIN_FLOW[i + 1])]
  {
  }

  /** The statuses each command is taken in. */
  lemma CommandsAreTakenIn(c: Command, s: JobStatus)
    ensures FlowIndex(Accepted) <= FlowIndex(s) <= FlowIndex(Target(c)) <==>
      s in (match c
            case Arrive => {Accepted, Arriving, AtPickup}
            case Start => {Accepted, Arriving, AtPickup, InProgress}
            case Complete => {Accepted, Arriving, AtPickup, InProgress, AtDropoff, Completed})
  {
  }

  /** The rows each command records of a job just accepted; one further on records the rest of them. */
  lemma CommandsRecord(c: Command, s: JobStatus)
    requires FlowIndex(Accepted) <= FlowIndex(s) <= FlowIndex(Target(c))
    ensures var all := [Change(Some(Accepted), Arriving), Change(Some(Arriving), AtPickup),
                        Change(Some(AtPickup), InProgress), Change(Some(InProgress), AtDropoff),
                        Change(Some(AtDropoff), Completed)];
      var done := match s
                  case Accepted => 0 case Arriving => 1 case AtPickup => 2
                  case InProgress => 3 case AtDropoff => 4 case _ => 5;
      var end := match c case Arrive => 2 case Start => 3 case Complete => 5;
      done <= end <= |all| && FlowRows(FlowIndex(s), FlowIndex(Target(c))) == all[done..end]
  {
    var all := [Change(Some(Accepted), Arriving), Change(Some(Arriving), AtPickup),
                Change(Some(AtPickup), InProgress), Change(Some(InProgress), AtDropoff),
                Change(Some(AtDropoff), Completed)];
    assert forall k :: 0 <= k < 5 ==> all[k] == Change(Some(MAIN_FLOW[5 + k]), MAIN_FLOW[6 + k]);
    var from, to := FlowIndex(s), FlowIndex(Target(c));
    assert from >= 5 && FlowRows(from, to) == all[from - 5..to - 5];
  }

  class Booking {
    const store: Store

    constructor (store: Store)
      ensures this.store == store
    {
      this.store := store;
    }

    /** Accepted exactly when the caller holds the job and is past acceptance but not past the target;
        then every state up to the target is recorded, and nothing but this job's row changes. */
    method Execute(j: JobId, d: DriverId, c: Command, clock: Time) returns (ok: bool)
      modifies store
      ensures ok <==>
        && j in old(store.jobs) && old(store.jobs)[j].driver == Some(d)
        && FlowIndex(Accepted) <= FlowIndex(old(store.jobs)[j].status) <= FlowIndex(Target(c))
      ensures !ok ==> store.State() == old(store.State())
      ensures ok ==> old(store.State()).(jobs := store.jobs) == store.State()
      ensures ok ==> j in store.jobs && store.jobs == old(store.jobs)[j := store.jobs[j]]
      ensures ok ==>
        && store.jobs[j].status == (match c case Arrive => AtPickup case Start => InProgress case Complete => Completed)
        && store.jobs[j].history == old(store.jobs)[j].history
             + FlowRows(FlowIndex(old(store.jobs)[j].status), FlowIndex(Target(c)))
        && store.jobs[j].driver == Some(d)
    {
      ok := false;
      var target := Target(c);
      if j !in store.jobs || store.jobs[j].driver != Some(d) {
        return;
      }
      if store.jobs[j].status == target {
        ok := true;
        return;
      }
      var current, destination := FlowIndex(store.jobs[j].status), FlowIndex(target);
      if current < 0 || destination <= current || current < FlowIndex(Accepted) {
        return;
      }
      FlowIndexFinds(store.jobs[j].status);
      FlowIndexFinds(target);
      Walk(j, current, destination, clock);
      ok := true;
    }

    /** One transition after the other along the main flow. */
    method Walk(j: JobId, from: nat, to: nat, clock: Time)
      requires j in store.jobs && from <= to < |MAIN_FLOW| && store.jobs[j].status == MAIN_FLOW[from]
      modifies store
      ensures j in store.jobs && store.jobs == old(store.jobs)[j := store.jobs[j]]
      ensures old(store.State()).(jobs := store.jobs) == store.State()
      ensures store.jobs[j].status == MAIN_FLOW[to] && store.jobs[j].driver == old(store.jobs)[j].driver
      ensures store.jobs[j].history == old(store.jobs)[j].history + FlowRows(from, to)
    {
      for i := from to to
        invariant j in store.jobs && store.jobs[j].status == MAIN_FLOW[i]
        invariant store.jobs[j].history == old(store.jobs)[j].history + FlowRows(from, i)
        invariant store.jobs[j].driver == old(store.jobs)[j].driver
        invariant old(store.State()).(jobs := store.jobs) == store.State()
        invariant store.jobs == old(store.jobs)[j := store.jobs[j]]
      {
        FlowIsEdges(i);
        var answer := store.Transition(j, MAIN_FLOW[i], MAIN_FLOW[i + 1], clock);
        FlowRowsGrow(from, i);
      }
    }
  }
}
