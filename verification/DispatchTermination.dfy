/** Every search ends, however the rest of the platform interleaves with it. */
module DispatchTermination {
  import opened Common
  import opened JobMachine
  import opened DispatchTables
  import opened DispatchSteps
  import opened DispatchInvariant
  import opened DispatchSafety
  import opened DispatchSearch

  /** Anything at all happens, and then the runner takes its turn. */
  datatype Visit = Visit(before: seq<Event>, survey: Survey, clock: Time)

  function AfterVisit(db: Db, j: JobId, cfg: Config, v: Visit): Db
    requires |cfg.rings| > 0
  {
    Turn(Run(db, v.before), j, cfg, v.survey, v.clock).db
  }

  function Search(db: Db, j: JobId, cfg: Config, visits: seq<Visit>): Db
    requires |cfg.rings| > 0
    decreases |visits|
  {
    if |visits| == 0 then db else Search(AfterVisit(db, j, cfg, visits[0]), j, cfg, visits[1..])
  }

  /** Each time its turn comes the job is still searching. */
  predicate StillSeeking(db: Db, j: JobId, cfg: Config, visits: seq<Visit>)
    requires |cfg.rings| > 0
    decreases |visits|
  {
    |visits| == 0 ||
    (&& MayRun(db, cfg.maxAttempts, visits[0].before)
     && Seeking(Run(db, visits[0].before), j)
     && StillSeeking(AfterVisit(db, j, cfg, visits[0]), j, cfg, visits[1..]))
  }

  ghost predicate Searchable(db: Db, j: JobId, cfg: Config) {
    && Inv(db) && j in db.jobs
    && Numbered(db.attempts, j, cfg.maxAttempts) && NumbersTaken(db.attempts, j)
  }

  lemma RunStaysSearchable(db: Db, j: JobId, cfg: Config, es: seq<Event>)
    requires Searchable(db, j, cfg) && MayRun(db, cfg.maxAttempts, es)
    ensures Searchable(Run(db, es), j, cfg)
    ensures AttemptCount(db.attempts, j) <= AttemptCount(Run(db, es).attempts, j)
    ensures db.jobs[j].status == Expired ==> Run(db, es).jobs[j].status == Expired
  {
    RunKeeps(db, cfg.maxAttempts, es);
    JobsStay(db, es, j);
    AttemptsAreBounded(db, cfg.maxAttempts, es, j);
    JobsFollowTheirMachine(db, cfg.maxAttempts, es, j);
  }

  lemma ExpiredIsNotSeeking(db: Db, j: JobId, cfg: Config, visits: seq<Visit>)
    requires |cfg.rings| > 0 && Searchable(db, j, cfg) && db.jobs[j].status == Expired
    requires |visits| > 0
    ensures !StillSeeking(db, j, cfg, visits)
  {
    if MayRun(db, cfg.maxAttempts, visits[0].before) {
      RunStaysSearchable(db, j, cfg, visits[0].before);
    }
  }

  /** A job whose turn comes one time more than it has attempts left, still searching each time, has
      expired by the last: no search goes on for ever. */
  lemma {:induction false} SearchEnds(db: Db, j: JobId, cfg: Config, visits: seq<Visit>)
    requires |cfg.rings| > 0 && Searchable(db, j, cfg)
    requires StillSeeking(db, j, cfg, visits)
    requires |visits| >= 1
    requires |visits| >= cfg.maxAttempts - AttemptCount(db.attempts, j) + 1
    ensures Search(db, j, cfg, visits).jobs.Keys >= {j}
    ensures Search(db, j, cfg, visits).jobs[j].status == Expired
    decreases |visits|
  {
    var v := visits[0];
    var ready := Run(db, v.before);
    RunStaysSearchable(db, j, cfg, v.before);
    TurnProgresses(ready, j, cfg, v.survey, v.clock);
    var after := AfterVisit(db, j, cfg, v);
    var es := TurnIsARun(ready, j, cfg, v.survey, v.clock);
    RunStaysSearchable(ready, j, cfg, es);
    if |visits| > 1 {
      if after.jobs[j].status == Expired {
        ExpiredIsNotSeeking(after, j, cfg, visits[1..]);
        assert false;
      } else {
        SearchEnds(after, j, cfg, visits[1..]);
      }
    } else {
      assert AttemptCount(ready.attempts, j) == cfg.maxAttempts;
    }
    assert Search(db, j, cfg, visits) == Search(after, j, cfg, visits[1..]);
  }

  /** From the empty database: at most maxAttempts + 1 turns. */
  lemma NewSearchEnds(db: Db, j: JobId, cfg: Config, visits: seq<Visit>)
    requires |cfg.rings| > 0 && Reachable(db, cfg.maxAttempts) && j in db.jobs
    requires StillSeeking(db, j, cfg, visits) && |visits| == cfg.maxAttempts + 1
    ensures j in Search(db, j, cfg, visits).jobs
    ensures Search(db, j, cfg, visits).jobs[j].status == Expired
  {
    var es :| MayRun(EMPTY, cfg.maxAttempts, es) && db == Run(EMPTY, es);
    RunKeeps(EMPTY, cfg.maxAttempts, es);
    AttemptsAreBounded(EMPTY, cfg.maxAttempts, es, j);
    SearchEnds(db, j, cfg, visits);
  }
}
