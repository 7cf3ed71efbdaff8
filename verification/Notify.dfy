/** The notification queue: rows claimed by workers, handed to a provider and marked, with workers
    overlapping and dying at any point. */
module Notify {
  import opened Common

  const MAX_ATTEMPTS := 3
  const BATCH := 100

  datatype Channel = Push | Sms | Email | InApp
  datatype Status = Queued | Sending | Sent | Failed | Suppressed

  /** What is known of a row, and beyond the stored columns who holds it, whether its device had a token when
      it was claimed, and how often the provider has been handed it and has taken it. */
  datatype Row = Row(
    channel: Channel, device: Option<nat>, key: string,
    status: Status, attempts: nat,
    heldBy: Option<nat>, token: bool, calls: nat, taken: nat)

  datatype Db = Db(rows: seq<Row>, live: set<nat>)  // the devices whose token is active

  const EMPTY := Db([], {})

  /** What the provider says. */
  datatype Answer = Accepted | Unregistered | Refused

  // --- enqueueing -----------------------------------------------------------------------------------

  predicate KeyUsed(rows: seq<Row>, key: string) {
    key != "" && exists r :: 0 <= r < |rows| && rows[r].key == key
  }

  function NewRow(channel: Channel, device: Option<nat>, key: string, suppressed: bool): Row {
    Row(channel, device, key, if suppressed then Suppressed else Queued, 0, None, false, 0, 0)
  }

  function Enqueue(db: Db, row: Row): Db {
    if KeyUsed(db.rows, row.key) then db else db.(rows := db.rows + [row])
  }

  // --- claiming -------------------------------------------------------------------------------------

  predicate Claimable(r: Row) {
    r.status == Queued && r.attempts < MAX_ATTEMPTS
  }

  /** The oldest claimable rows, as many as the limit allows. */
  function Oldest(rows: seq<Row>, limit: nat): (ids: seq<nat>)
    ensures |ids| <= limit
  {
    if rows == [] then []
    else
      var n := |rows| - 1;
      var before := Oldest(rows[..n], limit);
      if Claimable(rows[n]) && |before| < limit then before + [n] else before
  }

  lemma OldestGrows(rows: seq<Row>, r: nat, limit: nat)
    requires r < |rows|
    ensures var before := Oldest(rows[..r], limit);
            Oldest(rows[..r + 1], limit) == if Claimable(rows[r]) && |before| < limit then before + [r] else before
  {
    assert rows[..r + 1][..r] == rows[..r];
  }

  predicate Ascending(ids: seq<nat>) {
    forall j, k :: 0 <= j < k < |ids| ==> ids[j] < ids[k]
  }

  /** Claimable rows in order of age, and none passed over while there was room. */
  lemma {:induction false} OldestFirst(rows: seq<Row>, limit: nat)
    ensures var ids := Oldest(rows, limit);
            && Ascending(ids)
            && (forall k :: 0 <= k < |ids| ==> ids[k] < |rows| && Claimable(rows[ids[k]]))
            && (forall i :: 0 <= i < |rows| && Claimable(rows[i]) && i !in ids ==>
                  |ids| == limit && forall k :: 0 <= k < |ids| ==> ids[k] < i)
  {
    if rows != [] {
      OldestFirst(rows[..|rows| - 1], limit);
    }
  }

  function LimitOf(limit: int): nat {
    if limit <= 0 then BATCH else limit
  }

  function ClaimedBy(r: Row, w: nat, live: set<nat>): Row {
    r.(status := Sending, attempts := r.attempts + 1, heldBy := Some(w), token := r.device.Some? && r.device.value in live)
  }

  /** The rows with some of them claimed. */
  function WithClaimed(rows: seq<Row>, ids: seq<nat>, w: nat, live: set<nat>): (after: seq<Row>)
    ensures |after| == |rows|
  {
    seq(|rows|, i requires 0 <= i < |rows| => if i in ids then ClaimedBy(rows[i], w, live) else rows[i])
  }

  lemma OneMoreClaimed(rows: seq<Row>, ids: seq<nat>, w: nat, live: set<nat>, r: nat)
    requires r < |rows| && r !in ids
    ensures WithClaimed(rows, ids, w, live)[r] == rows[r]
    ensures WithClaimed(rows, ids + [r], w, live) == WithClaimed(rows, ids, w, live)[r := ClaimedBy(rows[r], w, live)]
  {
  }

  function Claim(db: Db, w: nat, limit: int): (after: Db)
    ensures |after.rows| == |db.rows|
  {
    db.(rows := WithClaimed(db.rows, Oldest(db.rows, LimitOf(limit)), w, db.live))
  }

  // --- handling a claimed row -----------------------------------------------------------------------

  predicate NeedsProvider(r: Row) {
    !(r.channel == Push && !r.token) && r.channel != InApp
  }

  function Called(r: Row, a: Answer): Row {
    if NeedsProvider(r) then r.(calls := r.calls + 1, taken := r.taken + if a == Accepted then 1 else 0) else r
  }

  /** What the row should be marked: a push without a token fails for good, as does one the provider does not
      recognise; a row with no provider is its own delivery; any other failure goes back while attempts
      remain. */
  function Verdict(r: Row, a: Answer): Status {
    if r.channel == Push && !r.token then Failed
    else if r.channel == InApp || a == Accepted then Sent
    else if a == Unregistered || r.attempts >= MAX_ATTEMPTS then Failed
    else Queued
  }

  predicate RetiresDevice(r: Row, a: Answer) {
    NeedsProvider(r) && a == Unregistered && r.device.Some?
  }

  predicate Holds(db: Db, w: nat, r: nat) {
    r < |db.rows| && db.rows[r].heldBy == Some(w)
  }

  function Release(db: Db, w: nat): (after: Db)
    ensures |after.rows| == |db.rows|
  {
    db.(rows := seq(|db.rows|, i requires 0 <= i < |db.rows| =>
      if db.rows[i].heldBy == Some(w) then db.rows[i].(heldBy := None) else db.rows[i]))
  }

  /** When the mark itself fails: a lost SENT ends the whole pass, a lost failure only this row. */
  function Handle(db: Db, w: nat, r: nat, a: Answer, marked: bool): Db
    requires Holds(db, w, r)
  {
    var row := db.rows[r];
    var called := Called(row, a);
    var live := if RetiresDevice(row, a) then db.live - {row.device.value} else db.live;
    var released := called.(heldBy := None);
    if marked then Db(db.rows[r := released.(status := Verdict(row, a))], live)
    else if Verdict(row, a) == Sent then Release(Db(db.rows[r := called], live), w)
    else Db(db.rows[r := released], live)
  }

  // --- what claiming and handling leave, in the rows themselves -------------------------------------------

  /** A claim hands the worker rows that are QUEUED with fewer than three attempts, oldest first and no more
      than the limit, counts an attempt on each, and changes no other row. */
  lemma ClaimTakesTheOldest(db: Db, w: nat, limit: int, r: nat)
    requires r < |db.rows|
    ensures var ids, after := Oldest(db.rows, if limit <= 0 then 100 else limit), Claim(db, w, limit).rows[r];
            && (after != db.rows[r] ==> r in ids)
            && (r in ids ==>
                  && db.rows[r].status == Queued && db.rows[r].attempts < 3
                  && after.status == Sending && after.attempts == db.rows[r].attempts + 1 && after.heldBy == Some(w)
                  && (after.token <==> db.rows[r].device.Some? && db.rows[r].device.value in db.live))
            && (db.rows[r].status == Queued && db.rows[r].attempts < 3 && r !in ids ==>
                  |ids| == (if limit <= 0 then 100 else limit) && forall k :: 0 <= k < |ids| ==> ids[k] < r)
  {
    OldestFirst(db.rows, LimitOf(limit));
  }

  /** A push to a device without a token fails and asks nobody; an in-app row is sent by being there; any other
      row is sent, fails for good or goes back as its provider accepts it, does not know the device (whose
      token is then retired) or refuses it, back only while it has had fewer than three attempts. */
  lemma HandledRowIsMarked(db: Db, w: nat, r: nat, a: Answer)
    requires Holds(db, w, r)
    ensures var row, after := db.rows[r], Handle(db, w, r, a, true);
            var asked := row.channel != InApp && (row.channel == Push ==> row.token);
            && |after.rows| == |db.rows| && after.rows[r].heldBy == None
            && (forall k :: 0 <= k < |db.rows| && k != r ==> after.rows[k] == db.rows[k])
            && after.rows[r].calls == row.calls + (if asked then 1 else 0)
            && (row.channel == Push && !row.token ==> after.rows[r].status == Failed)
            && (row.channel == InApp ==> after.rows[r].status == Sent)
            && (asked && a == Accepted ==> after.rows[r].status == Sent)
            && (asked && a == Unregistered ==> after.rows[r].status == Failed)
            && (asked && a == Refused ==> after.rows[r].status == if row.attempts < 3 then Queued else Failed)
            && after.live == (if asked && a == Unregistered && row.device.Some? then db.live - {row.device.value} else db.live)
  {
  }

  /** A notification is queued untried, or kept but never claimed when its user has silenced it; a key already
      used adds nothing. */
  lemma EnqueueAddsOneRow(db: Db, channel: Channel, device: Option<nat>, key: string, suppressed: bool)
    ensures var after := Enqueue(db, NewRow(channel, device, key, suppressed));
            var used := key != "" && exists r :: 0 <= r < |db.rows| && db.rows[r].key == key;
            && (used ==> after == db)
            && (!used ==>
                  var n := |db.rows|;
                  && after == Db(db.rows + [after.rows[n]], db.live)
                  && after.rows[n].channel == channel && after.rows[n].device == device && after.rows[n].key == key
                  && after.rows[n].attempts == 0 && after.rows[n].heldBy == None
                  && after.rows[n].status == (if suppressed then Suppressed else Queued)
                  && (Claimable(after.rows[n]) <==> !suppressed))
  {
  }

  /** When marking fails the row stays SENDING with nobody holding it: only that row when it was a failure that
      could not be marked, every row the worker still held when it was a success. */
  lemma UnmarkedRowIsStranded(db: Db, w: nat, r: nat, a: Answer)
    requires Holds(db, w, r) && db.rows[r].status == Sending
    ensures var row, after := db.rows[r], Handle(db, w, r, a, false);
            var asked := row.channel != InApp && (row.channel == Push ==> row.token);
            var delivered := row.channel == InApp || (asked && a == Accepted);
            && |after.rows| == |db.rows| && after.rows[r].status == Sending && after.rows[r].heldBy == None
            && (forall k :: 0 <= k < |db.rows| && k != r ==>
                  after.rows[k] == if delivered && db.rows[k].heldBy == Some(w) then db.rows[k].(heldBy := None)
                                   else db.rows[k])
  {
  }

  datatype Step =
    | EnqueueStep(channel: Channel, device: Option<nat>, key: string, suppressed: bool)
    | ClaimStep(worker: nat, limit: int)
    | HandleStep(worker: nat, row: nat, answer: Answer, marked: bool)
    | DieStep(worker: nat)
    | DevicesStep(live: set<nat>)

  function Apply(db: Db, s: Step): Db {
    match s
    case EnqueueStep(channel, device, key, suppressed) => Enqueue(db, NewRow(channel, device, key, suppressed))
    case ClaimStep(w, limit) => Claim(db, w, limit)
    case HandleStep(w, r, a, marked) => if Holds(db, w, r) then Handle(db, w, r, a, marked) else db
    case DieStep(w) => Release(db, w)
    case DevicesStep(live) => db.(live := live)
  }

  function Run(db: Db, steps: seq<Step>): Db
    decreases |steps|
  {
    if steps == [] then db else Run(Apply(db, steps[0]), steps[1..])
  }

  // --- what one step may do to a row ------------------------------------------------------------------

  predicate RowSound(r: Row) {
    && r.attempts <= MAX_ATTEMPTS
    && r.calls + (if r.heldBy.Some? then 1 else 0) <= r.attempts
    && r.taken <= 1
    && (r.heldBy.Some? ==> r.status == Sending && r.taken == 0)
    && (r.status == Queued ==> r.attempts < MAX_ATTEMPTS && r.taken == 0)
  }

  predicate Sound(db: Db) {
    forall r :: 0 <= r < |db.rows| ==> RowSound(db.rows[r])
  }

  predicate Settled(r: Row) {
    r.status in {Sent, Failed, Suppressed}
  }

  /** Claimed, and nobody is going to say how it went. */
  predicate Stranded(r: Row) {
    r.status == Sending && r.heldBy.None?
  }

  predicate RowFollows(after: Row, before: Row) {
    && after.calls >= before.calls && after.attempts >= before.attempts
    && (Settled(before) || Stranded(before) ==> after == before)
  }

  lemma StepKeeps(db: Db, s: Step)
    requires Sound(db)
    ensures Sound(Apply(db, s))
    ensures |db.rows| <= |Apply(db, s).rows|
    ensures forall r :: 0 <= r < |db.rows| ==> RowFollows(Apply(db, s).rows[r], db.rows[r])
  {
    forall r | 0 <= r < |Apply(db, s).rows| ensures RowSound(Apply(db, s).rows[r]) {
      if r < |db.rows| {
        StepKeepsRow(db, s, r);
      }
    }
    forall r | 0 <= r < |db.rows| ensures RowFollows(Apply(db, s).rows[r], db.rows[r]) {
      StepKeepsRow(db, s, r);
    }
  }

  lemma StepKeepsRow(db: Db, s: Step, r: nat)
    requires r < |db.rows| && RowSound(db.rows[r])
    ensures r < |Apply(db, s).rows| && RowSound(Apply(db, s).rows[r]) && RowFollows(Apply(db, s).rows[r], db.rows[r])
  {
    if s.ClaimStep? {
      OldestFirst(db.rows, LimitOf(s.limit));
    }
  }

  lemma {:induction false} RunKeeps(db: Db, steps: seq<Step>)
    requires Sound(db)
    ensures Sound(Run(db, steps)) && |db.rows| <= |Run(db, steps).rows|
    ensures forall r :: 0 <= r < |db.rows| ==> RowFollows(Run(db, steps).rows[r], db.rows[r])
    decreases |steps|
  {
    if steps != [] {
      var next := Apply(db, steps[0]);
      StepKeeps(db, steps[0]);
      RunKeeps(next, steps[1..]);
      forall r | 0 <= r < |db.rows| ensures RowFollows(Run(db, steps).rows[r], db.rows[r]) {
        assert RowFollows(next.rows[r], db.rows[r]) && RowFollows(Run(next, steps[1..]).rows[r], next.rows[r]);
      }
    }
  }

  /** However workers overlap, fail and die: the provider is handed a row at most three times and takes it at
      most once, and whatever is queued has an attempt left. */
  lemma ProviderIsAskedAtMostThreeTimes(steps: seq<Step>, r: nat)
    requires r < |Run(EMPTY, steps).rows|
    ensures var row := Run(EMPTY, steps).rows[r];
            && row.calls <= row.attempts <= MAX_ATTEMPTS && row.taken <= 1
            && (row.status == Queued ==> row.attempts < MAX_ATTEMPTS)
  {
    RunKeeps(EMPTY, steps);
    assert RowSound(Run(EMPTY, steps).rows[r]);
  }

  /** SENT and FAILED are final. So is a claim whose worker is gone: nothing ever takes it up again. */
  lemma FinishedAndStrandedNeverChange(before: seq<Step>, steps: seq<Step>, r: nat)
    requires r < |Run(EMPTY, before).rows|
    requires Settled(Run(EMPTY, before).rows[r]) || Stranded(Run(EMPTY, before).rows[r])
    ensures var db := Run(EMPTY, before);
            r < |Run(db, steps).rows| && Run(db, steps).rows[r] == db.rows[r]
  {
    RunKeeps(EMPTY, before);
    RunKeeps(Run(EMPTY, before), steps);
    assert RowFollows(Run(Run(EMPTY, before), steps).rows[r], Run(EMPTY, before).rows[r]);
  }

  predicate ErrorFree(s: Step) {
    !s.DieStep? && (s.HandleStep? ==> s.marked)
  }

  predicate NoneStranded(db: Db) {
    forall r :: 0 <= r < |db.rows| ==> !Stranded(db.rows[r])
  }

  /** Rows are stranded by a worker that dies holding them or a mark that fails, and by nothing else. */
  lemma StrandedExactlyByFailures(db: Db, s: Step)
    requires Sound(db) && NoneStranded(db)
    ensures NoneStranded(Apply(db, s)) <==>
      match s
      case DieStep(w) => forall r :: 0 <= r < |db.rows| ==> db.rows[r].heldBy != Some(w)
      case HandleStep(w, r, _, marked) => marked || !Holds(db, w, r)
      case _ => true
  {
    var after := Apply(db, s);
    match s
    case DieStep(w) =>
      if r :| 0 <= r < |db.rows| && db.rows[r].heldBy == Some(w) {
        assert RowSound(db.rows[r]);
        assert Stranded(after.rows[r]);
      }
    case HandleStep(w, r, a, marked) =>
      if Holds(db, w, r) {
        assert RowSound(db.rows[r]);
        assert !marked ==> Stranded(after.rows[r]);
      }
    case _ =>
  }

  /** Without failures, what no worker holds is finished or waiting for another attempt. */
  lemma {:induction false} ErrorFreeRunsStrandNothing(db: Db, steps: seq<Step>)
    requires Sound(db) && NoneStranded(db) && forall k :: 0 <= k < |steps| ==> ErrorFree(steps[k])
    ensures NoneStranded(Run(db, steps))
    decreases |steps|
  {
    if steps != [] {
      assert ErrorFree(steps[0]);
      StrandedExactlyByFailures(db, steps[0]);
      StepKeeps(db, steps[0]);
      ErrorFreeRunsStrandNothing(Apply(db, steps[0]), steps[1..]);
    }
  }

  // --- draining ---------------------------------------------------------------------------------------

  /** Twice the attempts a row has left, and one more while a worker holds it. */
  function Weight(r: Row): int {
    if r.status == Queued then 2 * (MAX_ATTEMPTS - r.attempts)
    else if r.heldBy.Some? then 2 * (MAX_ATTEMPTS - r.attempts) + 1
    else 0
  }

  function Left(rows: seq<Row>): int {
    if rows == [] then 0 else Left(rows[..|rows| - 1]) + Weight(rows[|rows| - 1])
  }

  lemma {:induction false} LighterRows(after: seq<Row>, before: seq<Row>)
    requires |after| == |before| && forall r :: 0 <= r < |before| ==> Weight(after[r]) <= Weight(before[r])
    ensures Left(after) <= Left(before)
    ensures (exists r :: 0 <= r < |before| && Weight(after[r]) < Weight(before[r])) ==> Left(after) < Left(before)
  {
    if before != [] {
      LighterRows(after[..|after| - 1], before[..|before| - 1]);
    }
  }

  predicate Drained(rows: seq<Row>) {
    forall r :: 0 <= r < |rows| ==> Settled(rows[r]) || Stranded(rows[r])
  }

  /** Nothing is left exactly when every row is finished or stranded. */
  lemma {:induction false} NothingLeftExactlyWhenDrained(rows: seq<Row>)
    requires forall r :: 0 <= r < |rows| ==> RowSound(rows[r])
    ensures 0 <= Left(rows)
    ensures Left(rows) == 0 <==> Drained(rows)
  {
    if rows != [] {
      var n := |rows| - 1;
      NothingLeftExactlyWhenDrained(rows[..n]);
      assert RowSound(rows[n]);
      assert Drained(rows) ==> Drained(rows[..n]);
      assert Drained(rows[..n]) ==> forall r :: 0 <= r < n ==> Settled(rows[..n][r]) || Stranded(rows[..n][r]);
    }
  }

  lemma RowNeverHeavier(db: Db, s: Step, r: nat)
    requires Sound(db) && !s.EnqueueStep? && r < |db.rows|
    ensures r < |Apply(db, s).rows| && Weight(Apply(db, s).rows[r]) <= Weight(db.rows[r])
  {
    assert RowSound(db.rows[r]);
    if s.ClaimStep? {
      OldestFirst(db.rows, LimitOf(s.limit));
    }
  }

  /** Every step but enqueueing leaves no more to do, and a claim that takes anything or a row handled leaves
      strictly less. */
  lemma WorkOnlyShrinks(db: Db, s: Step)
    requires Sound(db) && !s.EnqueueStep?
    ensures |Apply(db, s).rows| == |db.rows| && Left(Apply(db, s).rows) <= Left(db.rows)
    ensures Works(db, s) ==> Left(Apply(db, s).rows) < Left(db.rows)
  {
    var after := Apply(db, s);
    forall r | 0 <= r < |db.rows| ensures Weight(after.rows[r]) <= Weight(db.rows[r]) {
      RowNeverHeavier(db, s, r);
    }
    LighterRows(after.rows, db.rows);
    if Works(db, s) {
      if s.ClaimStep? {
        OldestFirst(db.rows, LimitOf(s.limit));
      }
      var r := if s.ClaimStep? then Oldest(db.rows, LimitOf(s.limit))[0] else s.row;
      assert RowSound(db.rows[r]);
      WorkLightens(db, s, r);
    }
  }

  /** A claim that finds something, or a held row handled. */
  predicate Works(db: Db, s: Step) {
    match s
    case ClaimStep(_, limit) => Oldest(db.rows, LimitOf(limit)) != []
    case HandleStep(w, r, _, _) => Holds(db, w, r)
    case _ => false
  }

  lemma WorkLightens(db: Db, s: Step, r: nat)
    requires Works(db, s) && r < |db.rows| && RowSound(db.rows[r])
    requires s.ClaimStep? ==> r in Oldest(db.rows, LimitOf(s.limit))
    requires s.HandleStep? ==> r == s.row
    ensures r < |Apply(db, s).rows| && Weight(Apply(db, s).rows[r]) < Weight(db.rows[r])
  {
    if s.ClaimStep? {
      OldestFirst(db.rows, LimitOf(s.limit));
    }
  }

  /** A claim finds something whenever anything is queued. */
  lemma ClaimFindsTheQueued(db: Db, limit: int, r: nat)
    requires Sound(db) && r < |db.rows| && db.rows[r].status == Queued
    ensures Oldest(db.rows, LimitOf(limit)) != []
  {
    assert RowSound(db.rows[r]);
    OldestFirst(db.rows, LimitOf(limit));
  }
}
