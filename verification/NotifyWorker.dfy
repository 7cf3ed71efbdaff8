/** The store's methods and one worker's pass over them. */
module NotifyWorker {
  import opened Common
  import opened Notify

  // --- what a whole pass does -------------------------------------------------------------------------

  /** The provider's answer to each row of one pass. */
  type Provider = nat -> Answer

  function HandleAll(db: Db, w: nat, ids: seq<nat>, provider: Provider): Db {
    if ids == [] then db
    else
      var last := ids[|ids| - 1];
      Apply(HandleAll(db, w, ids[..|ids| - 1], provider), HandleStep(w, last, provider(last), true))
  }

  function Pass(db: Db, w: nat, provider: Provider): Db {
    HandleAll(Claim(db, w, BATCH), w, Oldest(db.rows, BATCH), provider)
  }

  predicate HoldsNothing(db: Db, w: nat) {
    forall r :: 0 <= r < |db.rows| ==> db.rows[r].heldBy != Some(w)
  }

  predicate Distinct(ids: seq<nat>) {
    forall j, k :: 0 <= j < k < |ids| ==> ids[j] != ids[k]
  }

  /** Handling rows a worker holds: each is marked, the others stay as they are. */
  lemma {:induction false} HandlingMarks(db: Db, w: nat, ids: seq<nat>, provider: Provider)
    requires AllHeld(db, w, ids)
    ensures |HandleAll(db, w, ids, provider).rows| == |db.rows|
    ensures forall r :: 0 <= r < |db.rows| ==>
      HandleAll(db, w, ids, provider).rows[r] == if r in ids then Marked(db.rows[r], provider(r)) else db.rows[r]
  {
    if ids != [] {
      var last, rest := ids[|ids| - 1], ids[..|ids| - 1];
      HandlingMarks(db, w, rest, provider);
      assert ids == rest + [last];
      assert last !in rest && Holds(db, w, ids[|ids| - 1]);
    }
  }

  /** A row put to the provider if it needs one, and marked. */
  function Marked(r: Row, a: Answer): Row {
    Called(r, a).(heldBy := None, status := Verdict(r, a))
  }

  lemma LastIsHeld(db: Db, w: nat, ids: seq<nat>, provider: Provider)
    requires AllHeld(db, w, ids) && ids != []
    ensures var last, rest := ids[|ids| - 1], ids[..|ids| - 1];
            AllHeld(db, w, rest) && Holds(HandleAll(db, w, rest, provider), w, last)
  {
    var last, rest := ids[|ids| - 1], ids[..|ids| - 1];
    HandlingMarks(db, w, rest, provider);
    assert last !in rest && Holds(db, w, ids[|ids| - 1]);
  }

  /** It keeps the queue sound, leaves no more to do and strands nothing. */
  lemma {:induction false} HandlingAll(db: Db, w: nat, ids: seq<nat>, provider: Provider)
    requires Sound(db) && AllHeld(db, w, ids)
    ensures var after := HandleAll(db, w, ids, provider);
            && Sound(after) && Left(after.rows) <= Left(db.rows)
            && (NoneStranded(db) ==> NoneStranded(after))
  {
    if ids != [] {
      var last, rest := ids[|ids| - 1], ids[..|ids| - 1];
      LastIsHeld(db, w, ids, provider);
      HandlingAll(db, w, rest, provider);
      var before, step := HandleAll(db, w, rest, provider), HandleStep(w, last, provider(last), true);
      StepKeeps(before, step);
      WorkOnlyShrinks(before, step);
      if NoneStranded(db) {
        StrandedExactlyByFailures(before, step);
      }
    }
  }

  function SentAmong(claimed: seq<Row>, ids: seq<nat>, provider: Provider): nat {
    if ids == [] then 0
    else
      var last := ids[|ids| - 1];
      SentAmong(claimed, ids[..|ids| - 1], provider)
      + if last < |claimed| && Verdict(claimed[last], provider(last)) == Sent then 1 else 0
  }

  predicate AllHeld(db: Db, w: nat, ids: seq<nat>) {
    Distinct(ids) && forall k :: 0 <= k < |ids| ==> Holds(db, w, ids[k])
  }

  lemma ClaimedAreHeld(db: Db, w: nat)
    requires Sound(db)
    ensures Sound(Claim(db, w, BATCH)) && AllHeld(Claim(db, w, BATCH), w, Oldest(db.rows, BATCH))
  {
    StepKeeps(db, ClaimStep(w, BATCH));
    OldestFirst(db.rows, BATCH);
    var ids := Oldest(db.rows, BATCH);
    forall k | 0 <= k < |ids| ensures Holds(Claim(db, w, BATCH), w, ids[k]) {
      assert ids[k] in ids;
    }
  }

  lemma NextIsStillHeld(db: Db, w: nat, ids: seq<nat>, k: nat, provider: Provider)
    requires Sound(db) && AllHeld(db, w, ids) && k < |ids|
    ensures var before := HandleAll(db, w, ids[..k], provider);
            Holds(db, w, ids[k]) && Holds(before, w, ids[k])
            && before.rows[ids[k]] == db.rows[ids[k]] && db.rows[ids[k]].status == Sending
  {
    HandlingMarks(db, w, ids[..k], provider);
    assert ids[k] !in ids[..k] && Holds(db, w, ids[k]);
    assert RowSound(db.rows[ids[k]]);
  }

  lemma OneMore(db: Db, w: nat, ids: seq<nat>, k: nat, provider: Provider)
    requires k < |ids|
    ensures HandleAll(db, w, ids[..k + 1], provider) ==
            Apply(HandleAll(db, w, ids[..k], provider), HandleStep(w, ids[k], provider(ids[k]), true))
    ensures SentAmong(db.rows, ids[..k + 1], provider) ==
            SentAmong(db.rows, ids[..k], provider)
            + if ids[k] < |db.rows| && Verdict(db.rows[ids[k]], provider(ids[k])) == Sent then 1 else 0
  {
    assert ids[..k + 1][..k] == ids[..k];
  }

  /** A row as a pass leaves it: claimed, put to the provider if it needs one, and marked. */
  function Handled(r: Row, w: nat, live: set<nat>, a: Answer): Row {
    Marked(ClaimedBy(r, w, live), a)
  }

  /** Each row a pass takes is marked as its answer says, and no other row changes. */
  lemma PassMarksWhatItClaims(db: Db, w: nat, provider: Provider)
    requires Sound(db)
    ensures var after := Pass(db, w, provider);
            && |after.rows| == |db.rows|
            && forall r :: 0 <= r < |db.rows| ==>
                 after.rows[r] == if r in Oldest(db.rows, BATCH) then Handled(db.rows[r], w, db.live, provider(r))
                                  else db.rows[r]
  {
    ClaimedAreHeld(db, w);
    OldestFirst(db.rows, BATCH);
    HandlingMarks(Claim(db, w, BATCH), w, Oldest(db.rows, BATCH), provider);
  }

  /** A pass that meets no failure holds nothing when it ends and strands nothing. */
  lemma PassHoldsNothingAfter(db: Db, w: nat, provider: Provider)
    requires Sound(db) && HoldsNothing(db, w)
    ensures Sound(Pass(db, w, provider)) && HoldsNothing(Pass(db, w, provider), w)
    ensures NoneStranded(db) ==> NoneStranded(Pass(db, w, provider))
  {
    PassMarksWhatItClaims(db, w, provider);
    ClaimedAreHeld(db, w);
    HandlingAll(Claim(db, w, BATCH), w, Oldest(db.rows, BATCH), provider);
    if NoneStranded(db) {
      StrandedExactlyByFailures(db, ClaimStep(w, BATCH));
    }
  }

  /** It leaves no more to do, and strictly less if anything was queued. */
  lemma PassMakesProgress(db: Db, w: nat, provider: Provider)
    requires Sound(db)
    ensures Left(Pass(db, w, provider).rows) <= Left(db.rows)
    ensures AnyQueued(db) ==> Left(Pass(db, w, provider).rows) < Left(db.rows)
  {
    ClaimedAreHeld(db, w);
    HandlingAll(Claim(db, w, BATCH), w, Oldest(db.rows, BATCH), provider);
    WorkOnlyShrinks(db, ClaimStep(w, BATCH));
    if r :| 0 <= r < |db.rows| && db.rows[r].status == Queued {
      ClaimFindsTheQueued(db, BATCH, r);
    }
  }

  predicate AnyQueued(db: Db) {
    exists r :: 0 <= r < |db.rows| && db.rows[r].status == Queued
  }

  /** Pass after pass, whatever the provider answers in each. */
  function Passes(db: Db, w: nat, providers: seq<Provider>): Db
    decreases |providers|
  {
    if providers == [] then db else Passes(Pass(db, w, providers[0]), w, providers[1..])
  }

  /** The queue drains: with no failures, as many passes as there is work left finish every notification,
      sent or given up, however the provider behaves. */
  lemma {:induction false} PassesDrainTheQueue(db: Db, w: nat, providers: seq<Provider>)
    requires Sound(db) && NoneStranded(db) && forall r :: 0 <= r < |db.rows| ==> db.rows[r].heldBy.None?
    requires |providers| >= Left(db.rows)
    ensures var after := Passes(db, w, providers);
            |after.rows| == |db.rows| && forall r :: 0 <= r < |after.rows| ==> Settled(after.rows[r])
    decreases |providers|
  {
    NothingLeftExactlyWhenDrained(db.rows);
    assert !AnyQueued(db) ==> forall r :: 0 <= r < |db.rows| ==> !Stranded(db.rows[r]) && Settled(db.rows[r]);
    if providers != [] {
      var next := Pass(db, w, providers[0]);
      PassMarksWhatItClaims(db, w, providers[0]);
      PassHoldsNothingAfter(db, w, providers[0]);
      PassMakesProgress(db, w, providers[0]);
      NothingLeftExactlyWhenDrained(next.rows);
      if !AnyQueued(db) {
        assert Drained(db.rows);
      }
      PassesDrainTheQueue(next, w, providers[1..]);
    } else {
      assert forall r :: 0 <= r < |db.rows| ==> !Stranded(db.rows[r]);
    }
  }

  // --- the store ----------------------------------------------------------------------------------------

  class Store {
    var rows: seq<Row>
    var live: set<nat>

    ghost function State(): Db
      reads this
    {
      Db(rows, live)
    }

    constructor ()
      ensures State() == EMPTY
    {
      rows, live := [], {};
    }

    /** A repeated key answers the row it already has. */
    method Enqueue(channel: Channel, device: Option<nat>, key: string, suppressed: bool) returns (id: nat)
      modifies this`rows
      ensures State() == Notify.Enqueue(old(State()), NewRow(channel, device, key, suppressed))
      ensures id < |rows| && (if KeyUsed(old(rows), key) then old(rows)[id].key == key else id == |old(rows)|)
    {
      if key != "" {
        for r := 0 to |rows|
          invariant forall k :: 0 <= k < r ==> rows[k].key != key
        {
          if rows[r].key == key {
            return r;
          }
        }
      }
      id := |rows|;
      rows := rows + [NewRow(channel, device, key, suppressed)];
    }

    /** Takes the oldest queued rows with an attempt left and marks them SENDING. */
    method Claim(w: nat, limit: int) returns (ids: seq<nat>)
      modifies this`rows
      ensures ids == Oldest(old(rows), LimitOf(limit))
      ensures State() == Notify.Claim(old(State()), w, limit)
    {
      var bound := if limit <= 0 then BATCH else limit;
      ids := [];
      for r := 0 to |rows|
        invariant ids == Oldest(old(rows)[..r], bound) && forall k :: 0 <= k < |ids| ==> ids[k] < r
        invariant rows == WithClaimed(old(rows), ids, w, live)
      {
        OldestGrows(old(rows), r, bound);
        OneMoreClaimed(old(rows), ids, w, live, r);
        if rows[r].status == Queued && rows[r].attempts < MAX_ATTEMPTS && |ids| < bound {
          rows := rows[r := ClaimedBy(rows[r], w, live)];
          ids := ids + [r];
        }
      }
      assert old(rows)[..|rows|] == old(rows);
    }

    method MarkSent(r: nat)
      requires r < |rows|
      modifies this`rows
      ensures rows == old(rows)[r := old(rows)[r].(status := Sent, heldBy := None)]
    {
      rows := rows[r := rows[r].(status := Sent, heldBy := None)];
    }

    /** Back to the queue while attempts remain. */
    method MarkFailed(r: nat, attempts: nat)
      requires r < |rows|
      modifies this`rows
      ensures rows == old(rows)[r := old(rows)[r].(status := if attempts >= MAX_ATTEMPTS then Failed else Queued,
                                                   heldBy := None)]
    {
      var status := if attempts >= MAX_ATTEMPTS then Failed else Queued;
      rows := rows[r := rows[r].(status := status, heldBy := None)];
    }

    method RetireDevice(device: nat)
      modifies this`live
      ensures live == old(live) - {device}
    {
      live := live - {device};
    }

    /** One claimed row: failed for want of a token, delivered by being there, or put to the provider. */
    method SendOne(w: nat, n: Row, r: nat, answer: Answer) returns (sent: bool)
      requires Holds(State(), w, r) && rows[r] == n && n.status == Sending
      modifies this
      ensures State() == Apply(old(State()), HandleStep(w, r, answer, true))
      ensures sent == (Verdict(n, answer) == Sent)
    {
      if n.channel == Push && !n.token {
        MarkFailed(r, MAX_ATTEMPTS);
        return false;
      }
      if n.channel == InApp {
        MarkSent(r);
        return true;
      }
      rows := rows[r := rows[r].(calls := n.calls + 1, taken := n.taken + if answer == Accepted then 1 else 0)];
      match answer
      case Accepted =>
        MarkSent(r);
        sent := true;
      case Unregistered =>
        if n.device.Some? {
          RetireDevice(n.device.value);
        }
        MarkFailed(r, MAX_ATTEMPTS);
        sent := false;
      case Refused =>
        MarkFailed(r, n.attempts);
        sent := false;
    }

    /** Sends the rows of a batch, working from how they were claimed, and counts those sent. */
    method SendAll(w: nat, ids: seq<nat>, provider: Provider) returns (sent: nat)
      requires Sound(State()) && AllHeld(State(), w, ids)
      modifies this
      ensures State() == HandleAll(old(State()), w, ids, provider)
      ensures sent == SentAmong(old(rows), ids, provider)
    {
      var claimed := rows;
      ghost var start := State();
      sent := 0;
      for k := 0 to |ids|
        invariant State() == HandleAll(start, w, ids[..k], provider)
        invariant sent == SentAmong(claimed, ids[..k], provider)
      {
        NextIsStillHeld(start, w, ids, k, provider);
        OneMore(start, w, ids, k, provider);
        var one := SendOne(w, claimed[ids[k]], ids[k], provider(ids[k]));
        if one {
          sent := sent + 1;
        }
      }
      assert ids[..|ids|] == ids;
    }

    /** One pass: claim a batch and send it. */
    method SendPass(w: nat, provider: Provider) returns (sent: nat)
      requires Sound(State())
      modifies this
      ensures State() == Pass(old(State()), w, provider)
      ensures sent == SentAmong(Notify.Claim(old(State()), w, BATCH).rows, Oldest(old(rows), BATCH), provider)
    {
      ClaimedAreHeld(State(), w);
      var ids := Claim(w, BATCH);
      sent := SendAll(w, ids, provider);
    }
  }
}
