/** One pass of the runner over every waiting job. */
module DispatchRound {
  import opened Common
  import opened JobMachine
  import opened DispatchTables
  import opened DispatchSteps
  import opened DispatchSearch

  /** A job never offered enters the search; any other is left as it is. */
  function Start(db: Db, j: JobId, clock: Time): Db {
    if j in db.jobs && db.jobs[j].status == Requested then Transition(db, j, Requested, Searching, clock) else db
  }

  function Drive(db: Db, j: JobId, cfg: Config, s: Survey, clock: Time): Db
    requires |cfg.rings| > 0
  {
    Turn(Start(db, j, clock), j, cfg, s, clock).db
  }

  /** The jobs in turn; `surveys` is what the outside world would show for each. */
  function DriveAll(db: Db, ids: seq<JobId>, cfg: Config, surveys: JobId -> Survey, clock: Time): Db
    requires |cfg.rings| > 0
  {
    if |ids| == 0 then db
    else
      var last := ids[|ids| - 1];
      Drive(DriveAll(db, ids[..|ids| - 1], cfg, surveys, clock), last, cfg, surveys(last), clock)
  }

  /** Nothing a job's own turn depends on has changed. */
  predicate Untouched(db: Db, after: Db, j: JobId, maxAttempts: nat) {
    && (j in db.jobs ==> j in after.jobs && after.jobs[j] == db.jobs[j])
    && AttemptCount(after.attempts, j) == AttemptCount(db.attempts, j)
    && (Numbered(db.attempts, j, maxAttempts) ==> Numbered(after.attempts, j, maxAttempts))
  }

  lemma {:induction false} OffersLeaveOthers(
    db: Db, j: JobId, maxAttempts: nat, k: JobId, shortlist: seq<DriverId>, attempt: nat, expiresAt: Time, clock: Time)
    requires k != j
    ensures Untouched(db, OfferBest(db, k, shortlist, attempt, expiresAt, clock).db, j, maxAttempts)
  {
    if |shortlist| > 0 {
      if ReserveAnswer(db, k, shortlist[0], Some(attempt)).None? {
        CountIgnoresOfferedDriver(db.attempts, attempt, shortlist[0], j);
      }
      OffersLeaveOthers(db, j, maxAttempts, k, shortlist[1..], attempt, expiresAt, clock);
    }
  }

  lemma RecordLeavesOthers(
    db: Db, j: JobId, maxAttempts: nat, k: JobId, number: nat, radius: nat, outcome: AttemptOutcome)
    requires k != j
    ensures Untouched(db, RecordAttempt(db, k, number, radius, outcome), j, maxAttempts)
  {
  }

  lemma DispatchLeavesOthers(db: Db, j: JobId, k: JobId, cfg: Config, s: Survey, clock: Time)
    requires |cfg.rings| > 0 && k != j
    ensures Untouched(db, Dispatch(db, k, cfg, s, clock).db, j, cfg.maxAttempts)
  {
    var previous := AttemptCount(db.attempts, k);
    var radius := RingFor(cfg.rings, previous);
    if k !in db.jobs || db.jobs[k].status != Searching || previous >= cfg.maxAttempts {
    } else if s.nearby == 0 {
      RecordLeavesOthers(db, j, cfg.maxAttempts, k, previous + 1, radius, NoCandidates);
    } else if s.eligible == 0 {
      RecordLeavesOthers(db, j, cfg.maxAttempts, k, previous + 1, radius, NoEligible);
    } else if RecordAnswer(db, k, previous + 1).None? {
      OfferingLeavesOthers(db, j, k, cfg, s, clock, previous, radius);
    }
  }

  lemma OfferingLeavesOthers(
    db: Db, j: JobId, k: JobId, cfg: Config, s: Survey, clock: Time, previous: nat, radius: nat)
    requires k != j && RecordAnswer(db, k, previous + 1).None?
    ensures
      var recorded := RecordAttempt(db, k, previous + 1, radius, AttemptOffered);
      Untouched(db, OfferBest(recorded, k, s.shortlist, |db.attempts|, clock + cfg.offerTtl, clock).db, j, cfg.maxAttempts)
  {
    RecordLeavesOthers(db, j, cfg.maxAttempts, k, previous + 1, radius, AttemptOffered);
    var recorded := RecordAttempt(db, k, previous + 1, radius, AttemptOffered);
    OffersLeaveOthers(recorded, j, cfg.maxAttempts, k, s.shortlist, |db.attempts|, clock + cfg.offerTtl, clock);
  }

  lemma DriveLeavesOthers(db: Db, j: JobId, k: JobId, cfg: Config, s: Survey, clock: Time)
    requires |cfg.rings| > 0 && k != j
    ensures Untouched(db, Drive(db, k, cfg, s, clock), j, cfg.maxAttempts)
  {
    DispatchLeavesOthers(Start(db, k, clock), j, k, cfg, s, clock);
  }

  /** What a turn leaves of the job it was for. */
  predicate Served(db: Db, after: Db, j: JobId) {
    && j in after.jobs
    && (after.jobs[j].status == Expired || AttemptCount(after.attempts, j) == AttemptCount(db.attempts, j) + 1)
  }

  /** Every job a round was told about has had its turn: it ended, or one attempt was spent on it.
      One job's turn never costs another its own. */
  lemma {:induction false} RoundServesEveryJob(
    db: Db, ids: seq<JobId>, cfg: Config, surveys: JobId -> Survey, clock: Time, j: JobId)
    requires |cfg.rings| > 0
    requires forall i, k :: 0 <= i < k < |ids| ==> ids[i] != ids[k]
    requires j in db.jobs && db.jobs[j].status in {Requested, Searching} && Numbered(db.attempts, j, cfg.maxAttempts)
    ensures j in ids ==> Served(db, DriveAll(db, ids, cfg, surveys, clock), j)
    ensures j !in ids ==> Untouched(db, DriveAll(db, ids, cfg, surveys, clock), j, cfg.maxAttempts)
  {
    if |ids| > 0 {
      var n := |ids| - 1;
      var before := DriveAll(db, ids[..n], cfg, surveys, clock);
      RoundServesEveryJob(db, ids[..n], cfg, surveys, clock, j);
      assert ids == ids[..n] + [ids[n]];
      if ids[n] == j {
        assert j !in ids[..n];
        TurnProgresses(Start(before, j, clock), j, cfg, surveys(ids[n]), clock);
      } else {
        DriveLeavesOthers(before, j, ids[n], cfg, surveys(ids[n]), clock);
      }
    }
  }

  // --- what a round counts --------------------------------------------------------------------

  lemma {:induction false} RoundLeavesOthers(
    db: Db, ids: seq<JobId>, cfg: Config, surveys: JobId -> Survey, clock: Time, j: JobId)
    requires |cfg.rings| > 0 && j !in ids
    ensures Untouched(db, DriveAll(db, ids, cfg, surveys, clock), j, cfg.maxAttempts)
  {
    if |ids| > 0 {
      var n := |ids| - 1;
      RoundLeavesOthers(db, ids[..n], cfg, surveys, clock, j);
      assert ids[n] in ids;
      DriveLeavesOthers(DriveAll(db, ids[..n], cfg, surveys, clock), j, ids[n], cfg, surveys(ids[n]), clock);
    }
  }

  /** How many of the jobs have never been offered. */
  function CountRequested(db: Db, ids: seq<JobId>): nat {
    if |ids| == 0 then 0
    else
      var last := ids[|ids| - 1];
      CountRequested(db, ids[..|ids| - 1]) + if last in db.jobs && db.jobs[last].status == Requested then 1 else 0
  }

  /** How many of the jobs a live assignment holds. */
  function CountHeld(as_: seq<Assignment>, ids: seq<JobId>): nat {
    if |ids| == 0 then 0
    else CountHeld(as_, ids[..|ids| - 1]) + if HasLive(as_, ids[|ids| - 1]) then 1 else 0
  }

  lemma {:induction false} CountHeldOnlyLooksAtItsJobs(before: seq<Assignment>, after: seq<Assignment>, ids: seq<JobId>)
    requires forall k :: k in ids ==> (HasLive(after, k) <==> HasLive(before, k))
    ensures CountHeld(after, ids) == CountHeld(before, ids)
  {
    if |ids| > 0 {
      CountHeldOnlyLooksAtItsJobs(before, after, ids[..|ids| - 1]);
      assert ids[|ids| - 1] in ids;
    }
  }

  /** One more row holds its own job and says nothing of any other. */
  lemma OneMoreRowHolds(as_: seq<Assignment>, a: Assignment, k: JobId)
    ensures HasLive(as_ + [a], k) <==> HasLive(as_, k) || (a.job == k && Live(a))
  {
    if i :| 0 <= i < |as_| && LiveAt(as_, i, k) {
      assert LiveAt(as_ + [a], i, k);
    }
    if i :| 0 <= i < |as_ + [a]| && LiveAt(as_ + [a], i, k) {
      assert i < |as_| ==> LiveAt(as_, i, k);
    }
    assert a.job == k && Live(a) ==> LiveAt(as_ + [a], |as_|, k);
  }

  /** A turn makes an offer exactly when it leaves its job held that was not held before, and it holds and
      frees no other. */
  predicate HoldsExactlyWhatItOffers(db: Db, r: Round, j: JobId, k: JobId) {
    && (HasLive(r.db.assignments, k) <==> HasLive(db.assignments, k) || (k == j && r.outcome.OfferedTo?))
    && (r.outcome.OfferedTo? ==> !HasLive(db.assignments, j))
  }

  lemma {:induction false} OfferBestHolds(
    db: Db, j: JobId, shortlist: seq<DriverId>, attempt: nat, expiresAt: Time, clock: Time, k: JobId)
    ensures HoldsExactlyWhatItOffers(db, OfferBest(db, j, shortlist, attempt, expiresAt, clock), j, k)
  {
    if |shortlist| > 0 {
      OneMoreRowHolds(db.assignments, Assignment(j, shortlist[0], Offered, expiresAt), k);
      OfferBestHolds(db, j, shortlist[1..], attempt, expiresAt, clock, k);
    }
  }

  lemma DispatchHolds(db: Db, j: JobId, cfg: Config, s: Survey, clock: Time, k: JobId)
    requires |cfg.rings| > 0
    ensures HoldsExactlyWhatItOffers(db, Dispatch(db, j, cfg, s, clock), j, k)
  {
    var previous := AttemptCount(db.attempts, j);
    var recorded := RecordAttempt(db, j, previous + 1, RingFor(cfg.rings, previous), AttemptOffered);
    OfferBestHolds(recorded, j, s.shortlist, |db.attempts|, clock + cfg.offerTtl, clock, k);
    assert recorded.assignments == db.assignments;
  }

  lemma TurnHolds(db: Db, j: JobId, cfg: Config, s: Survey, clock: Time, k: JobId)
    requires |cfg.rings| > 0
    ensures HoldsExactlyWhatItOffers(db, Turn(db, j, cfg, s, clock), j, k)
  {
    DispatchHolds(db, j, cfg, s, clock, k);
    assert GiveUp(db, j, clock).db.assignments == db.assignments;
  }

  /** How many turns of the round end with an offer. */
  function OffersMade(db: Db, ids: seq<JobId>, cfg: Config, surveys: JobId -> Survey, clock: Time): nat
    requires |cfg.rings| > 0
  {
    if |ids| == 0 then 0
    else
      var n := |ids| - 1;
      var before := DriveAll(db, ids[..n], cfg, surveys, clock);
      OffersMade(db, ids[..n], cfg, surveys, clock)
        + if Turn(Start(before, ids[n], clock), ids[n], cfg, surveys(ids[n]), clock).outcome.OfferedTo? then 1 else 0
  }

  /** The offers a round reports are the listed jobs it leaves held that were not held before it. */
  lemma {:induction false} OffersMadeAreHeld(
    db: Db, ids: seq<JobId>, cfg: Config, surveys: JobId -> Survey, clock: Time)
    requires |cfg.rings| > 0
    requires forall i, k :: 0 <= i < k < |ids| ==> ids[i] != ids[k]
    ensures CountHeld(DriveAll(db, ids, cfg, surveys, clock).assignments, ids)
            == CountHeld(db.assignments, ids) + OffersMade(db, ids, cfg, surveys, clock)
  {
    if |ids| > 0 {
      var n := |ids| - 1;
      var before := DriveAll(db, ids[..n], cfg, surveys, clock);
      var after := DriveAll(db, ids, cfg, surveys, clock);
      OffersMadeAreHeld(db, ids[..n], cfg, surveys, clock);
      forall k | k in ids[..n] ensures HasLive(after.assignments, k) <==> HasLive(before.assignments, k) {
        TurnHolds(Start(before, ids[n], clock), ids[n], cfg, surveys(ids[n]), clock, k);
      }
      CountHeldOnlyLooksAtItsJobs(before.assignments, after.assignments, ids[..n]);
      TurnHolds(Start(before, ids[n], clock), ids[n], cfg, surveys(ids[n]), clock, ids[n]);
      assert ids[n] !in ids[..n];
      OthersNeverHold(db, ids[..n], cfg, surveys, clock, ids[n]);
    }
  }

  lemma {:induction false} OthersNeverHold(
    db: Db, ids: seq<JobId>, cfg: Config, surveys: JobId -> Survey, clock: Time, j: JobId)
    requires |cfg.rings| > 0 && j !in ids
    ensures HasLive(DriveAll(db, ids, cfg, surveys, clock).assignments, j) <==> HasLive(db.assignments, j)
  {
    if |ids| > 0 {
      var n := |ids| - 1;
      OthersNeverHold(db, ids[..n], cfg, surveys, clock, j);
      assert ids[n] in ids;
      var before := DriveAll(db, ids[..n], cfg, surveys, clock);
      TurnHolds(Start(before, ids[n], clock), ids[n], cfg, surveys(ids[n]), clock, j);
    }
  }

  /** One more job of a round: what its turn comes to, and what that adds to the counts. */
  lemma RoundGoesOn(db: Db, ids: seq<JobId>, n: nat, cfg: Config, surveys: JobId -> Survey, clock: Time)
    requires |cfg.rings| > 0 && n < |ids|
    requires forall i, k :: 0 <= i < k < |ids| ==> ids[i] != ids[k]
    ensures var before := DriveAll(db, ids[..n], cfg, surveys, clock);
      var turn := Turn(Start(before, ids[n], clock), ids[n], cfg, surveys(ids[n]), clock);
      && DriveAll(db, ids[..n + 1], cfg, surveys, clock) == turn.db
      && CountRequested(db, ids[..n + 1]) == CountRequested(db, ids[..n])
           + (if ids[n] in db.jobs && db.jobs[ids[n]].status == Requested then 1 else 0)
      && (ids[n] in db.jobs ==> ids[n] in before.jobs && before.jobs[ids[n]] == db.jobs[ids[n]])
      && OffersMade(db, ids[..n + 1], cfg, surveys, clock)
         == OffersMade(db, ids[..n], cfg, surveys, clock) + if turn.outcome.OfferedTo? then 1 else 0
  {
    assert ids[..n + 1][..n] == ids[..n] && ids[..n + 1][n] == ids[n];
    assert ids[n] !in ids[..n];
    RoundLeavesOthers(db, ids[..n], cfg, surveys, clock, ids[n]);
  }
}
