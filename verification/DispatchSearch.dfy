/** A search for a driver: one attempt at a time, each over a wider ring, until somebody is offered
    the job or the search gives up. */
module DispatchSearch {
  import opened Common
  import opened JobMachine
  import opened DispatchTables
  import opened DispatchSteps
  import opened DispatchInvariant

  datatype Config = Config(rings: seq<nat>, maxAttempts: nat, offerTtl: Time, deadline: Time)

  /** What one attempt learns about the outside world: how many drivers are near, how many of them are
      eligible, and the scored shortlist, best first. */
  datatype Survey = Survey(nearby: nat, eligible: nat, shortlist: seq<DriverId>)

  datatype Outcome =
    | OfferedTo(driver: DriverId)
    | NobodyNear
    | NobodyEligible
    | ReservationMissed
    | Exhausted
    | NotSearching
    | Broken(error: Error)

  datatype Round = Round(db: Db, outcome: Outcome)

  function Min(a: int, b: int): int {
    if a < b then a else b
  }

  function RingFor(rings: seq<nat>, previous: nat): nat
    requires |rings| > 0
  {
    rings[Min(previous, |rings| - 1)]
  }

  /** Offers the job to the first driver on the list nobody else holds. */
  function OfferBest(db: Db, j: JobId, shortlist: seq<DriverId>, attempt: nat, expiresAt: Time, clock: Time): Round {
    if |shortlist| == 0 then Round(db, ReservationMissed)
    else
      match ReserveAnswer(db, j, shortlist[0], Some(attempt))
      case None =>
        Round(Transition(Reserve(db, j, shortlist[0], Some(attempt), expiresAt), j, Searching, Assigned, clock),
              OfferedTo(shortlist[0]))
      case Some(DriverBusy) => OfferBest(db, j, shortlist[1..], attempt, expiresAt, clock)
      case Some(JobClaimed) => Round(db, ReservationMissed)
      case Some(e) => Round(db, Broken(e))
  }

  function Dispatch(db: Db, j: JobId, cfg: Config, s: Survey, clock: Time): Round
    requires |cfg.rings| > 0
  {
    if j !in db.jobs then Round(db, Broken(NoSuchRow))
    else if db.jobs[j].status != Searching then Round(db, Broken(StaleTransition))
    else
      var previous := AttemptCount(db.attempts, j);
      var radius := RingFor(cfg.rings, previous);
      if previous >= cfg.maxAttempts then Round(db, Exhausted)
      else if s.nearby == 0 then Round(RecordAttempt(db, j, previous + 1, radius, NoCandidates), NobodyNear)
      else if s.eligible == 0 then Round(RecordAttempt(db, j, previous + 1, radius, NoEligible), NobodyEligible)
      else if RecordAnswer(db, j, previous + 1).Some? then Round(db, Broken(RecordAnswer(db, j, previous + 1).value))
      else OfferBest(RecordAttempt(db, j, previous + 1, radius, AttemptOffered), j, s.shortlist,
                     |db.attempts|, clock + cfg.offerTtl, clock)
  }

  function GiveUp(db: Db, j: JobId, clock: Time): Round {
    Round(ExpireSearch(db, j, clock), Exhausted)
  }

  /** One turn of the runner on one job. */
  function Turn(db: Db, j: JobId, cfg: Config, s: Survey, clock: Time): Round
    requires |cfg.rings| > 0
  {
    if j !in db.jobs then Round(db, Broken(NoSuchRow))
    else if db.jobs[j].status != Searching then Round(db, NotSearching)
    else if clock - db.jobs[j].updatedAt >= cfg.deadline then GiveUp(db, j, clock)
    else
      var round := Dispatch(db, j, cfg, s, clock);
      if round.outcome == Exhausted then GiveUp(db, j, clock) else round
  }

  // --- rings --------------------------------------------------------------------------

  predicate Sorted(rings: seq<nat>) {
    forall i, k :: 0 <= i <= k < |rings| ==> rings[i] <= rings[k]
  }

  /** Later attempts never look closer in, and the last ring serves every attempt past the end. */
  lemma RingsWiden(rings: seq<nat>, earlier: nat, later: nat)
    requires |rings| > 0 && Sorted(rings) && earlier <= later
    ensures RingFor(rings, earlier) <= RingFor(rings, later)
    ensures later >= |rings| ==> RingFor(rings, later) == rings[|rings| - 1]
  {
  }

  // --- attempt numbers ------------------------------------------------------------------

  lemma {:induction false} CountIgnoresOfferedDriver(ts: seq<Attempt>, i: nat, d: DriverId, j: JobId)
    requires i < |ts|
    ensures AttemptCount(ts[i := ts[i].(offered := Some(d))], j) == AttemptCount(ts, j)
  {
    var after := ts[i := ts[i].(offered := Some(d))];
    var n := |ts| - 1;
    if i < n {
      CountIgnoresOfferedDriver(ts[..n], i, d, j);
      assert after[..n] == ts[..n][i := ts[..n][i].(offered := Some(d))];
    } else {
      assert after[..n] == ts[..n];
    }
  }

  lemma NumbersIgnoreOfferedDriver(ts: seq<Attempt>, i: nat, d: DriverId, j: JobId, number: nat)
    requires i < |ts|
    ensures HasAttempt(ts[i := ts[i].(offered := Some(d))], j, number) <==> HasAttempt(ts, j, number)
  {
    var after := ts[i := ts[i].(offered := Some(d))];
    if k :| 0 <= k < |ts| && AttemptAt(ts, k, j, number) {
      assert AttemptAt(after, k, j, number);
    }
    if k :| 0 <= k < |after| && AttemptAt(after, k, j, number) {
      assert AttemptAt(ts, k, j, number);
    }
  }

  /** A job's attempts are numbered 1, 2, ... without gaps or repeats, and never past the maximum. */
  predicate Numbered(ts: seq<Attempt>, j: JobId, maxAttempts: nat) {
    && AttemptCount(ts, j) <= maxAttempts
    && forall i :: 0 <= i < |ts| && ts[i].job == j ==> 1 <= ts[i].number <= AttemptCount(ts, j)
  }

  predicate NumbersTaken(ts: seq<Attempt>, j: JobId) {
    forall number :: 1 <= number <= AttemptCount(ts, j) ==> HasAttempt(ts, j, number)
  }

  lemma RecordNumbers(db: Db, maxAttempts: nat, j: JobId, counted: nat, radius: nat, outcome: AttemptOutcome, k: JobId)
    requires Numbered(db.attempts, k, maxAttempts) && NumbersTaken(db.attempts, k)
    requires counted <= AttemptCount(db.attempts, j) && counted < maxAttempts
    ensures Numbered(RecordAttempt(db, j, counted + 1, radius, outcome).attempts, k, maxAttempts)
    ensures NumbersTaken(RecordAttempt(db, j, counted + 1, radius, outcome).attempts, k)
    ensures RecordAnswer(db, j, counted + 1).None? ==>
      AttemptCount(RecordAttempt(db, j, counted + 1, radius, outcome).attempts, k)
      == AttemptCount(db.attempts, k) + if k == j then 1 else 0
    ensures AttemptCount(RecordAttempt(db, j, counted + 1, radius, outcome).attempts, k) >= AttemptCount(db.attempts, k)
    ensures k == j && RecordAnswer(db, j, counted + 1).None? ==> counted == AttemptCount(db.attempts, j)
  {
    assert k == j && counted < AttemptCount(db.attempts, j) ==> HasAttempt(db.attempts, j, counted + 1);
    if RecordAnswer(db, j, counted + 1).None? {
      AppendNumbers(db.attempts, Attempt(j, counted + 1, radius, outcome, None), maxAttempts, k);
    } else {
      assert RecordAttempt(db, j, counted + 1, radius, outcome) == db;
    }
  }

  /** The next attempt of a job takes the next number; another job's changes nothing. */
  lemma AppendNumbers(ts: seq<Attempt>, t: Attempt, maxAttempts: nat, k: JobId)
    requires Numbered(ts, k, maxAttempts) && NumbersTaken(ts, k)
    requires t.job == k ==> t.number == AttemptCount(ts, k) + 1 <= maxAttempts
    ensures AttemptCount(ts + [t], k) == AttemptCount(ts, k) + if t.job == k then 1 else 0
    ensures Numbered(ts + [t], k, maxAttempts) && NumbersTaken(ts + [t], k)
  {
    var after := ts + [t];
    assert after[..|ts|] == ts;
    forall number | 1 <= number <= AttemptCount(after, k) ensures HasAttempt(after, k, number) {
      if number <= AttemptCount(ts, k) {
        assert HasAttempt(ts, k, number);
        var i :| 0 <= i < |ts| && AttemptAt(ts, i, k, number);
        assert AttemptAt(after, i, k, number);
      } else {
        assert AttemptAt(after, |ts|, k, number);
      }
    }
  }

  lemma StepNumbers(db: Db, maxAttempts: nat, e: Event, k: JobId)
    requires MayAsk(db, maxAttempts, e.step)
    requires Numbered(db.attempts, k, maxAttempts) && NumbersTaken(db.attempts, k)
    ensures Numbered(Apply(db, e).attempts, k, maxAttempts) && NumbersTaken(Apply(db, e).attempts, k)
    ensures AttemptCount(db.attempts, k) <= AttemptCount(Apply(db, e).attempts, k)
  {
    match e.step
    case RecordStep(j, counted, radius, outcome) =>
      RecordNumbers(db, maxAttempts, j, counted, radius, outcome, k);
      assert Apply(db, e).attempts == RecordAttempt(db, j, counted + 1, radius, outcome).attempts;
    case ReserveStep(j, d, attempt, expiresAt) =>
      ReserveStepNumbers(db, maxAttempts, j, d, attempt, expiresAt, k);
      assert Apply(db, e).attempts == Reserve(db, j, d, attempt, expiresAt).attempts;
    case _ =>
      OthersLeaveAttempts(db, e);
  }

  lemma OthersLeaveAttempts(db: Db, e: Event)
    requires !e.step.RecordStep? && !e.step.ReserveStep?
    ensures Apply(db, e).attempts == db.attempts
  {
  }

  lemma ReserveStepNumbers(db: Db, maxAttempts: nat, j: JobId, d: DriverId, attempt: Option<nat>, expiresAt: Time, k: JobId)
    requires Numbered(db.attempts, k, maxAttempts) && NumbersTaken(db.attempts, k)
    ensures var after := Reserve(db, j, d, attempt, expiresAt).attempts;
      Numbered(after, k, maxAttempts) && NumbersTaken(after, k) && AttemptCount(after, k) == AttemptCount(db.attempts, k)
  {
    if ReserveAnswer(db, j, d, attempt).None? && attempt.Some? {
      ReserveNumbers(db, maxAttempts, attempt.value, d, k);
    }
  }

  lemma ReserveNumbers(db: Db, maxAttempts: nat, attempt: nat, d: DriverId, k: JobId)
    requires attempt < |db.attempts|
    requires Numbered(db.attempts, k, maxAttempts) && NumbersTaken(db.attempts, k)
    ensures var after := db.attempts[attempt := db.attempts[attempt].(offered := Some(d))];
      Numbered(after, k, maxAttempts) && NumbersTaken(after, k)
      && AttemptCount(after, k) == AttemptCount(db.attempts, k)
  {
    CountIgnoresOfferedDriver(db.attempts, attempt, d, k);
    var after := db.attempts[attempt := db.attempts[attempt].(offered := Some(d))];
    forall number: nat ensures HasAttempt(after, k, number) <==> HasAttempt(db.attempts, k, number) {
      NumbersIgnoreOfferedDriver(db.attempts, attempt, d, k, number);
    }
  }

  /** However many runners race, a job never has more than the configured number of attempts: each
      row's number is unique to the job, so a runner that counted too early writes nothing. */
  lemma {:induction false} AttemptsAreBounded(db: Db, maxAttempts: nat, es: seq<Event>, k: JobId)
    requires MayRun(db, maxAttempts, es)
    requires Numbered(db.attempts, k, maxAttempts) && NumbersTaken(db.attempts, k)
    ensures Numbered(Run(db, es).attempts, k, maxAttempts) && NumbersTaken(Run(db, es).attempts, k)
    ensures AttemptCount(db.attempts, k) <= AttemptCount(Run(db, es).attempts, k) <= maxAttempts
    decreases |es|
  {
    if |es| > 0 {
      StepNumbers(db, maxAttempts, es[0], k);
      AttemptsAreBounded(Apply(db, es[0]), maxAttempts, es[1..], k);
    }
  }

  // --- one turn ---------------------------------------------------------------------------

  lemma RunTwo(db: Db, maxAttempts: nat, e1: Event, e2: Event)
    requires MayAsk(db, maxAttempts, e1.step) && MayAsk(Apply(db, e1), maxAttempts, e2.step)
    ensures MayRun(db, maxAttempts, [e1, e2]) && Run(db, [e1, e2]) == Apply(Apply(db, e1), e2)
  {
    assert [e1, e2][1..] == [e2];
    assert [e2][1..] == [];
    assert Run(Apply(db, e1), [e2]) == Run(Apply(Apply(db, e1), e2), []);
  }

  lemma RunCons(db: Db, maxAttempts: nat, e: Event, es: seq<Event>)
    requires MayAsk(db, maxAttempts, e.step) && MayRun(Apply(db, e), maxAttempts, es)
    ensures MayRun(db, maxAttempts, [e] + es) && Run(db, [e] + es) == Run(Apply(db, e), es)
  {
  }

  lemma {:induction false} OfferBestIsARun(
    db: Db, maxAttempts: nat, j: JobId, shortlist: seq<DriverId>, attempt: nat, expiresAt: Time, clock: Time)
    returns (es: seq<Event>)
    ensures MayRun(db, maxAttempts, es)
    ensures Run(db, es) == OfferBest(db, j, shortlist, attempt, expiresAt, clock).db
  {
    es := [];
    if |shortlist| > 0 {
      var answer := ReserveAnswer(db, j, shortlist[0], Some(attempt));
      if answer.None? {
        es := [Event(ReserveStep(j, shortlist[0], Some(attempt), expiresAt), clock),
               Event(MoveStep(j, Searching, Assigned), clock)];
        RunTwo(db, maxAttempts, es[0], es[1]);
      } else if answer == Some(DriverBusy) {
        es := OfferBestIsARun(db, maxAttempts, j, shortlist[1..], attempt, expiresAt, clock);
      }
    }
  }

  /** A turn of the runner is a handful of transactions other callers may interleave with, so
      everything proved of runs holds of searches. */
  lemma TurnIsARun(db: Db, j: JobId, cfg: Config, s: Survey, clock: Time) returns (es: seq<Event>)
    requires |cfg.rings| > 0
    ensures MayRun(db, cfg.maxAttempts, es)
    ensures Run(db, es) == Turn(db, j, cfg, s, clock).db
  {
    es := [];
    if j in db.jobs && db.jobs[j].status == Searching {
      var previous := AttemptCount(db.attempts, j);
      if clock - db.jobs[j].updatedAt >= cfg.deadline || previous >= cfg.maxAttempts {
        es := [Event(ExpireSearchStep(j), clock)];
        RunCons(db, cfg.maxAttempts, es[0], []);
        assert es == [es[0]] + [];
      } else {
        var outcome := if s.nearby == 0 then NoCandidates else if s.eligible == 0 then NoEligible else AttemptOffered;
        var record := Event(RecordStep(j, previous, RingFor(cfg.rings, previous), outcome), clock);
        if s.nearby > 0 && s.eligible > 0 {
          if RecordAnswer(db, j, previous + 1).None? {
            var recorded := Apply(db, record);
            var offers := OfferBestIsARun(recorded, cfg.maxAttempts, j, s.shortlist, |db.attempts|,
                                          clock + cfg.offerTtl, clock);
            RunCons(db, cfg.maxAttempts, record, offers);
            OfferBestIsNotExhausted(recorded, j, s.shortlist, |db.attempts|, clock + cfg.offerTtl, clock);
            es := [record] + offers;
          }
        } else {
          es := [record] + [];
          RunCons(db, cfg.maxAttempts, record, []);
        }
      }
    }
  }

  lemma {:induction false} OfferBestIsNotExhausted(
    db: Db, j: JobId, shortlist: seq<DriverId>, attempt: nat, expiresAt: Time, clock: Time)
    ensures OfferBest(db, j, shortlist, attempt, expiresAt, clock).outcome != Exhausted
  {
    if |shortlist| > 0 {
      OfferBestIsNotExhausted(db, j, shortlist[1..], attempt, expiresAt, clock);
    }
  }

  lemma ExhaustedTouchesNothing(db: Db, j: JobId, cfg: Config, s: Survey, clock: Time)
    requires |cfg.rings| > 0
    ensures Dispatch(db, j, cfg, s, clock).outcome == Exhausted ==> Dispatch(db, j, cfg, s, clock).db == db
  {
    if j in db.jobs {
      var previous := AttemptCount(db.attempts, j);
      var recorded := RecordAttempt(db, j, previous + 1, RingFor(cfg.rings, previous), AttemptOffered);
      OfferBestIsNotExhausted(recorded, j, s.shortlist, |db.attempts|, clock + cfg.offerTtl, clock);
    }
  }

  lemma {:induction false} OfferBestCountsNothing(
    db: Db, j: JobId, shortlist: seq<DriverId>, attempt: nat, expiresAt: Time, clock: Time)
    ensures AttemptCount(OfferBest(db, j, shortlist, attempt, expiresAt, clock).db.attempts, j)
            == AttemptCount(db.attempts, j)
  {
    if |shortlist| > 0 {
      if ReserveAnswer(db, j, shortlist[0], Some(attempt)).None? {
        CountIgnoresOfferedDriver(db.attempts, attempt, shortlist[0], j);
      }
      OfferBestCountsNothing(db, j, shortlist[1..], attempt, expiresAt, clock);
    }
  }

  /** The offer goes to the best driver on the list who is free: everyone ahead of them is held. */
  lemma {:induction false} BestFreeDriverIsOffered(
    db: Db, j: JobId, shortlist: seq<DriverId>, attempt: nat, expiresAt: Time, clock: Time)
    returns (k: nat)
    requires j in db.jobs && db.jobs[j].status == Searching && !HasLive(db.assignments, j)
    requires attempt < |db.attempts| && forall i :: 0 <= i < |shortlist| ==> shortlist[i] in db.drivers
    ensures k <= |shortlist| && forall i :: 0 <= i < k ==> DriverHeld(db.reservations, shortlist[i])
    ensures var round := OfferBest(db, j, shortlist, attempt, expiresAt, clock);
      if k == |shortlist| then round == Round(db, ReservationMissed)
      else
        && !DriverHeld(db.reservations, shortlist[k])
        && round.outcome == OfferedTo(shortlist[k])
        && j in round.db.jobs && round.db.jobs[j].status == Assigned
        && OfferAt(round.db.assignments, |db.assignments|, j, shortlist[k])
        && |round.db.attempts| == |db.attempts|
        && round.db.attempts[attempt].offered == Some(shortlist[k])
  {
    if |shortlist| == 0 || !DriverHeld(db.reservations, shortlist[0]) {
      k := 0;
    } else {
      var rest := BestFreeDriverIsOffered(db, j, shortlist[1..], attempt, expiresAt, clock);
      k := rest + 1;
      forall i | 0 <= i < k ensures DriverHeld(db.reservations, shortlist[i]) {
        assert i > 0 ==> shortlist[i] == shortlist[1..][i - 1];
      }
    }
  }

  predicate Seeking(db: Db, j: JobId) {
    j in db.jobs && db.jobs[j].status == Searching
  }

  /** A turn on a searching job either ends its search or uses up one attempt; with none left it ends it. */
  lemma TurnProgresses(db: Db, j: JobId, cfg: Config, s: Survey, clock: Time)
    requires |cfg.rings| > 0 && Seeking(db, j) && Numbered(db.attempts, j, cfg.maxAttempts)
    ensures var after := Turn(db, j, cfg, s, clock).db;
      && j in after.jobs
      && (after.jobs[j].status == Expired
          || AttemptCount(after.attempts, j) == AttemptCount(db.attempts, j) + 1)
      && (AttemptCount(db.attempts, j) == cfg.maxAttempts ==> after.jobs[j].status == Expired)
  {
    var previous := AttemptCount(db.attempts, j);
    if clock - db.jobs[j].updatedAt < cfg.deadline && previous < cfg.maxAttempts {
      DispatchUsesAnAttempt(db, j, cfg, s, clock);
      var es := TurnIsARun(db, j, cfg, s, clock);
      JobsStay(db, es, j);
    }
  }

  lemma DispatchUsesAnAttempt(db: Db, j: JobId, cfg: Config, s: Survey, clock: Time)
    requires |cfg.rings| > 0 && Seeking(db, j) && Numbered(db.attempts, j, cfg.maxAttempts)
    requires AttemptCount(db.attempts, j) < cfg.maxAttempts
    ensures Dispatch(db, j, cfg, s, clock).outcome != Exhausted
    ensures AttemptCount(Dispatch(db, j, cfg, s, clock).db.attempts, j) == AttemptCount(db.attempts, j) + 1
  {
    var previous := AttemptCount(db.attempts, j);
    var radius := RingFor(cfg.rings, previous);
    if s.nearby != 0 && s.eligible != 0 {
      OfferingUsesAnAttempt(db, j, cfg, s, clock, previous, radius);
    }
  }

  lemma OfferingUsesAnAttempt(db: Db, j: JobId, cfg: Config, s: Survey, clock: Time, previous: nat, radius: nat)
    requires RecordAnswer(db, j, previous + 1).None?
    ensures
      var recorded := RecordAttempt(db, j, previous + 1, radius, AttemptOffered);
      var round := OfferBest(recorded, j, s.shortlist, |db.attempts|, clock + cfg.offerTtl, clock);
      round.outcome != Exhausted && AttemptCount(round.db.attempts, j) == AttemptCount(db.attempts, j) + 1
  {
    var recorded := RecordAttempt(db, j, previous + 1, radius, AttemptOffered);
    OfferBestCountsNothing(recorded, j, s.shortlist, |db.attempts|, clock + cfg.offerTtl, clock);
    OfferBestIsNotExhausted(recorded, j, s.shortlist, |db.attempts|, clock + cfg.offerTtl, clock);
  }

  lemma {:induction false} JobsStay(db: Db, es: seq<Event>, j: JobId)
    requires j in db.jobs
    ensures j in Run(db, es).jobs
    decreases |es|
  {
    if |es| > 0 {
      JobsStay(Apply(db, es[0]), es[1..], j);
    }
  }
}
