/** The offline mutation queue: one process, its store already read, and other calls running while a send is
    awaited. */
module MutationQueue {
  import opened Common

  /** The serial number is the order of enqueueing; it stands for the identity of the queued object. */
  datatype Mutation = Mutation(serial: nat, kind: string, createdAt: int, attempts: nat)

  /** What became of a mutation that no longer waits. Misplaced is the one nobody meant. */
  datatype Fate = Delivered | Expired | Overflowed | Cleared | Misplaced

  datatype Phase = Idle | Sending(mutation: Mutation) | Persisting

  datatype State = State(
    pending: seq<Mutation>,
    capacity: nat,
    phase: Phase,
    next: nat,                // how many have been enqueued
    delivered: seq<nat>,      // serials, in the order their sends succeeded
    fates: map<nat, Fate>)

  function Empty(capacity: nat): State {
    State([], capacity, Idle, 0, [], map[])
  }

  function Serials(ms: seq<Mutation>): set<nat> {
    set i | 0 <= i < |ms| :: ms[i].serial
  }

  function Fated(fates: map<nat, Fate>, who: set<nat>, fate: Fate): map<nat, Fate> {
    map s | s in fates.Keys + who :: if s in who then fate else fates[s]
  }

  // --- the queue's own operations -----------------------------------------------------------------------

  /** The newest ones that fit. */
  function Trim(ms: seq<Mutation>, capacity: nat): seq<Mutation> {
    if |ms| > capacity then ms[|ms| - capacity..] else ms
  }

  function WithNewest(q: State, kind: string, createdAt: int): seq<Mutation> {
    q.pending + [Mutation(q.next, kind, createdAt, 0)]
  }

  function Enqueue(q: State, kind: string, createdAt: int): State {
    var all := WithNewest(q, kind, createdAt);
    var kept := Trim(all, q.capacity);
    q.(pending := kept, next := q.next + 1,
       fates := Fated(q.fates, Serials(all) - Serials(kept), Overflowed))
  }

  /** No configured age means no expiry. */
  predicate HasExpired(m: Mutation, maxAge: map<string, int>, now: int) {
    m.kind in maxAge && now - m.createdAt > maxAge[m.kind]
  }

  function Unexpired(ms: seq<Mutation>, maxAge: map<string, int>, now: int): (r: seq<Mutation>)
    ensures |r| <= |ms|
  {
    if ms == [] then []
    else
      var last := ms[|ms| - 1];
      Unexpired(ms[..|ms| - 1], maxAge, now) + if HasExpired(last, maxAge, now) then [] else [last]
  }

  function NextPhase(pending: seq<Mutation>): Phase {
    if pending == [] then Persisting else Sending(pending[0])
  }

  /** A flush already under way is shared; otherwise what is too old goes and the first is sent. */
  function Begin(q: State, maxAge: map<string, int>, now: int): State {
    if !q.phase.Idle? then q
    else
      var unexpired := Unexpired(q.pending, maxAge, now);
      q.(pending := unexpired, phase := NextPhase(unexpired),
         fates := Fated(q.fates, Serials(q.pending) - Serials(unexpired), Expired))
  }

  /** The send went through: whatever now heads the queue is taken off it. */
  function SendSucceeded(q: State): State {
    if !q.phase.Sending? then q
    else
      var m := q.phase.mutation;
      var rest := if q.pending == [] then [] else q.pending[1..];
      var misplaced := if q.pending == [] || q.pending[0].serial == m.serial then {} else {q.pending[0].serial};
      q.(pending := rest, phase := NextPhase(rest), delivered := q.delivered + [m.serial],
         fates := Fated(Fated(q.fates, misplaced, Misplaced), {m.serial}, Fate.Delivered))
  }

  function CountAttempt(ms: seq<Mutation>, serial: nat): (r: seq<Mutation>)
    ensures |r| == |ms|
    ensures forall i :: 0 <= i < |ms| ==>
              r[i] == if ms[i].serial == serial then ms[i].(attempts := ms[i].attempts + 1) else ms[i]
  {
    seq(|ms|, i requires 0 <= i < |ms| =>
      if ms[i].serial == serial then ms[i].(attempts := ms[i].attempts + 1) else ms[i])
  }

  /** The attempt is counted on the object itself, wherever it still is, and the flush stops. */
  function SendFailed(q: State): State {
    if !q.phase.Sending? then q
    else q.(pending := CountAttempt(q.pending, q.phase.mutation.serial), phase := Persisting)
  }

  function Clear(q: State): State {
    q.(pending := [], fates := Fated(q.fates, Serials(q.pending), Cleared))
  }

  datatype Step =
    | EnqueueStep(kind: string, createdAt: int)
    | BeginStep(maxAge: map<string, int>, now: int)
    | SucceedStep
    | FailStep
    | PersistedStep
    | ClearStep

  function Apply(q: State, s: Step): State {
    match s
    case EnqueueStep(kind, createdAt) => Enqueue(q, kind, createdAt)
    case BeginStep(maxAge, now) => Begin(q, maxAge, now)
    case SucceedStep => SendSucceeded(q)
    case FailStep => SendFailed(q)
    case PersistedStep => if q.phase.Persisting? then q.(phase := Idle) else q
    case ClearStep => Clear(q)
  }

  function Run(q: State, steps: seq<Step>): State
    decreases |steps|
  {
    if steps == [] then q else Run(Apply(q, steps[0]), steps[1..])
  }

  // --- order --------------------------------------------------------------------------------------------

  predicate Increasing(ms: seq<Mutation>) {
    forall i, j :: 0 <= i < j < |ms| ==> ms[i].serial < ms[j].serial
  }

  predicate Ascending(xs: seq<nat>) {
    forall i, j :: 0 <= i < j < |xs| ==> xs[i] < xs[j]
  }

  predicate AllBelow(xs: seq<nat>, bound: int) {
    forall i :: 0 <= i < |xs| ==> xs[i] < bound
  }

  /** Everything delivered was enqueued before anything that waits or is being sent, and what is being sent
      heads the queue or left it. */
  predicate Ordered(q: State) {
    && Increasing(q.pending)
    && (forall i :: 0 <= i < |q.pending| ==> q.pending[i].serial < q.next && AllBelow(q.delivered, q.pending[i].serial))
    && Ascending(q.delivered)
    && AllBelow(q.delivered, q.next)
    && (q.phase.Sending? ==>
          && q.phase.mutation.serial < q.next && AllBelow(q.delivered, q.phase.mutation.serial)
          && forall i :: 0 <= i < |q.pending| ==> q.phase.mutation.serial <= q.pending[i].serial)
  }

  /** Every mutation either waits or has met exactly one fate, and Delivered is the fate of those delivered. */
  predicate Accounted(q: State) {
    && (forall s :: 0 <= s < q.next ==> (s in q.fates <==> s !in Serials(q.pending)))
    && (forall s :: s in q.fates ==> s < q.next)
    && (forall s :: s in q.fates ==> (q.fates[s] == Fate.Delivered <==> s in q.delivered))
    && (forall s :: s in q.delivered ==> s in q.fates)
  }

  predicate Sound(q: State) {
    Ordered(q) && Accounted(q)
  }

  lemma {:induction false} UnexpiredIsPart(ms: seq<Mutation>, maxAge: map<string, int>, now: int)
    requires Increasing(ms)
    ensures var unexpired := Unexpired(ms, maxAge, now);
            && Increasing(unexpired)
            && (forall m :: m in unexpired <==> m in ms && !HasExpired(m, maxAge, now))
  {
    if ms != [] {
      var n := |ms| - 1;
      UnexpiredIsPart(ms[..n], maxAge, now);
      assert ms == ms[..n] + [ms[n]];
      var rest := Unexpired(ms[..n], maxAge, now);
      forall i | 0 <= i < |rest| ensures rest[i].serial < ms[n].serial {
        assert rest[i] in rest;
      }
    }
  }

  lemma NewestJoins(q: State, kind: string, createdAt: int)
    requires Ordered(q)
    ensures var all := WithNewest(q, kind, createdAt);
            && Increasing(all) && Serials(all) == Serials(q.pending) + {q.next}
            && forall i :: 0 <= i < |all| ==> all[i].serial <= q.next && AllBelow(q.delivered, all[i].serial)
  {
    var all := WithNewest(q, kind, createdAt);
    assert all[|q.pending|].serial == q.next;
    assert forall i :: 0 <= i < |q.pending| ==> all[i] == q.pending[i];
  }

  lemma TrimIsPart(ms: seq<Mutation>, capacity: nat)
    requires Increasing(ms)
    ensures var kept := Trim(ms, capacity);
            Increasing(kept) && Serials(kept) <= Serials(ms) && forall i :: 0 <= i < |kept| ==> kept[i] in ms
  {
  }

  lemma EnqueueKeepsOrder(q: State, kind: string, createdAt: int)
    requires Sound(q)
    ensures Ordered(Enqueue(q, kind, createdAt))
  {
    NewestJoins(q, kind, createdAt);
    TrimIsPart(WithNewest(q, kind, createdAt), q.capacity);
  }

  lemma EnqueueKeeps(q: State, kind: string, createdAt: int)
    requires Sound(q)
    ensures Sound(Enqueue(q, kind, createdAt))
  {
    EnqueueKeepsOrder(q, kind, createdAt);
    NewestJoins(q, kind, createdAt);
    TrimIsPart(WithNewest(q, kind, createdAt), q.capacity);
    NoneWaitingDelivered(q);
  }

  lemma NoneWaitingDelivered(q: State)
    requires Sound(q)
    ensures forall s :: s in Serials(q.pending) ==> s !in q.delivered && s !in q.fates
  {
  }

  lemma UnexpiredSerials(ms: seq<Mutation>, maxAge: map<string, int>, now: int)
    requires Increasing(ms)
    ensures Serials(Unexpired(ms, maxAge, now)) <= Serials(ms)
  {
    UnexpiredIsPart(ms, maxAge, now);
    var unexpired := Unexpired(ms, maxAge, now);
    forall i | 0 <= i < |unexpired| ensures unexpired[i].serial in Serials(ms) {
      assert unexpired[i] in ms;
    }
  }

  lemma BeginKeepsOrder(q: State, maxAge: map<string, int>, now: int)
    requires Sound(q)
    ensures Ordered(Begin(q, maxAge, now))
  {
    UnexpiredIsPart(q.pending, maxAge, now);
    var unexpired := Unexpired(q.pending, maxAge, now);
    forall i | 0 <= i < |unexpired|
      ensures unexpired[i].serial < q.next && AllBelow(q.delivered, unexpired[i].serial)
    {
      assert unexpired[i] in q.pending;
    }
  }

  lemma BeginKeeps(q: State, maxAge: map<string, int>, now: int)
    requires Sound(q)
    ensures Sound(Begin(q, maxAge, now))
  {
    BeginKeepsOrder(q, maxAge, now);
    UnexpiredSerials(q.pending, maxAge, now);
    NoneWaitingDelivered(q);
  }

  /** What the head's leaving takes from the waiting. */
  lemma HeadLeaves(ms: seq<Mutation>)
    requires ms != [] && Increasing(ms)
    ensures Serials(ms) == Serials(ms[1..]) + {ms[0].serial} && ms[0].serial !in Serials(ms[1..])
  {
  }

  lemma OneMoreBelow(xs: seq<nat>, x: nat, bound: int)
    requires AllBelow(xs, x) && x < bound
    ensures AllBelow(xs + [x], bound)
  {
  }

  /** The rest of the queue comes after what was just delivered. */
  lemma RestComesAfter(q: State, i: nat)
    requires Ordered(q) && q.phase.Sending? && 0 < i < |q.pending|
    ensures AllBelow(q.delivered + [q.phase.mutation.serial], q.pending[i].serial)
  {
    assert q.phase.mutation.serial <= q.pending[0].serial < q.pending[i].serial;
    OneMoreBelow(q.delivered, q.phase.mutation.serial, q.pending[i].serial);
  }

  lemma SucceedKeepsOrder(q: State)
    requires Sound(q) && q.phase.Sending?
    ensures Ordered(SendSucceeded(q))
  {
    var after := SendSucceeded(q);
    OneMoreBelow(q.delivered, q.phase.mutation.serial, q.next);
    assert Ascending(after.delivered);
    forall i | 0 <= i < |after.pending| ensures AllBelow(after.delivered, after.pending[i].serial) {
      RestComesAfter(q, i + 1);
      assert after.pending[i] == q.pending[i + 1];
    }
  }

  lemma SucceedKeepsAccount(q: State)
    requires Sound(q) && q.phase.Sending?
    ensures Accounted(SendSucceeded(q))
  {
    if q.pending != [] {
      HeadLeaves(q.pending);
    }
    NoneWaitingDelivered(q);
  }

  lemma SucceedKeeps(q: State)
    requires Sound(q) && q.phase.Sending?
    ensures Sound(SendSucceeded(q))
  {
    SucceedKeepsOrder(q);
    SucceedKeepsAccount(q);
  }

  lemma FailKeeps(q: State)
    requires Sound(q)
    ensures Sound(SendFailed(q))
  {
  }

  lemma ClearKeeps(q: State)
    requires Sound(q)
    ensures Sound(Clear(q))
  {
  }

  lemma StepKeeps(q: State, s: Step)
    requires Sound(q)
    ensures Sound(Apply(q, s))
  {
    match s
    case EnqueueStep(kind, createdAt) => EnqueueKeeps(q, kind, createdAt);
    case BeginStep(maxAge, now) => BeginKeeps(q, maxAge, now);
    case SucceedStep =>
      if q.phase.Sending? {
        SucceedKeeps(q);
      }
    case FailStep => FailKeeps(q);
    case ClearStep => ClearKeeps(q);
    case PersistedStep =>
  }

  lemma {:induction false} RunKeeps(q: State, steps: seq<Step>)
    requires Sound(q)
    ensures Sound(Run(q, steps))
    decreases |steps|
  {
    if steps != [] {
      StepKeeps(q, steps[0]);
      RunKeeps(Apply(q, steps[0]), steps[1..]);
    }
  }

  /** Whatever is enqueued, cleared or dropped while sends are awaited, what is delivered is delivered in the
      order it was enqueued, and nothing twice. */
  lemma DeliveriesAreInOrder(capacity: nat, steps: seq<Step>)
    ensures Ascending(Run(Empty(capacity), steps).delivered)
  {
    RunKeeps(Empty(capacity), steps);
  }

  /** Nothing enqueued is unaccounted for: it waits, or it has exactly one fate. */
  lemma EveryMutationIsAccountedFor(capacity: nat, steps: seq<Step>, s: nat)
    requires s < Run(Empty(capacity), steps).next
    ensures var q := Run(Empty(capacity), steps);
            && (s in Serials(q.pending) <==> s !in q.fates)
            && (s in q.fates && q.fates[s] == Fate.Delivered <==> s in q.delivered)
  {
    RunKeeps(Empty(capacity), steps);
  }

  /** The queue is within capacity after every enqueue, holding the newest that fit. */
  lemma EnqueueKeepsTheNewest(q: State, kind: string, createdAt: int)
    ensures var after := Enqueue(q, kind, createdAt);
            var all := WithNewest(q, kind, createdAt);
            && |after.pending| <= q.capacity
            && after.pending == all[|all| - |after.pending|..]
            && (|after.pending| < q.capacity ==> after.pending == all)
  {
  }

  lemma LeftOutLeaves(ms: seq<Mutation>, part: seq<Mutation>, m: Mutation)
    requires Increasing(ms) && m in ms && m !in part && forall x :: x in part ==> x in ms
    ensures m.serial in Serials(ms) && m.serial !in Serials(part)
  {
    var i :| 0 <= i < |ms| && ms[i] == m;
    forall k | 0 <= k < |part| ensures part[k].serial != m.serial {
      assert part[k] in part && part[k] in ms;
      var j :| 0 <= j < |ms| && ms[j] == part[k];
      assert j != i;
    }
  }

  /** A flush begins by dropping what is too old and nothing else: a mutation stays if and only if its kind has
      no configured age or it is no older than that. */
  lemma BeginDropsExactlyTheTooOld(q: State, maxAge: map<string, int>, now: int, m: Mutation)
    requires Sound(q) && q.phase.Idle? && m in q.pending
    ensures var after := Begin(q, maxAge, now);
            && (m in after.pending <==> (m.kind in maxAge ==> now - m.createdAt <= maxAge[m.kind]))
            && (m !in after.pending ==> m.serial in after.fates && after.fates[m.serial] == Expired)
            && after.phase == (if after.pending == [] then Persisting else Sending(after.pending[0]))
  {
    UnexpiredIsPart(q.pending, maxAge, now);
    if m !in Unexpired(q.pending, maxAge, now) {
      LeftOutLeaves(q.pending, Unexpired(q.pending, maxAge, now), m);
    }
  }

  // --- what a send takes off the queue --------------------------------------------------------------------

  /** A successful send should take off the mutation it sent. It takes off another one, unsent, exactly when
      the queue's head is no longer the mutation being sent. */
  lemma SendMisplacesExactlyWhenHeadMoved(q: State, s: nat)
    requires Sound(q) && q.phase.Sending?
    ensures var after := SendSucceeded(q);
            (s !in q.delivered && s in Serials(q.pending) && s !in Serials(after.pending) && s !in after.delivered) <==>
            (q.pending != [] && q.pending[0].serial != q.phase.mutation.serial && s == q.pending[0].serial)
  {
  }

  /** A caller disturbs a send by clearing, or by enqueueing when there is no room. */
  predicate Disturbs(q: State, s: Step) {
    q.phase.Sending? && (s.ClearStep? || (s.EnqueueStep? && |q.pending| >= q.capacity))
  }

  predicate Undisturbed(q: State, steps: seq<Step>)
    decreases |steps|
  {
    steps == [] || (!Disturbs(q, steps[0]) && Undisturbed(Apply(q, steps[0]), steps[1..]))
  }

  predicate HeadIsSent(q: State) {
    q.phase.Sending? ==> q.pending != [] && q.pending[0] == q.phase.mutation
  }

  predicate NoneMisplaced(q: State) {
    forall s :: s in q.fates ==> q.fates[s] != Misplaced
  }

  /** The head of the queue stays the mutation being sent through every step that does not disturb the send,
      and through none that clears it. */
  lemma HeadStays(q: State, s: Step)
    requires Sound(q) && HeadIsSent(q)
    ensures !Disturbs(q, s) ==> HeadIsSent(Apply(q, s))
    ensures Disturbs(q, s) ==> !HeadIsSent(Apply(q, s))
  {
  }

  /** So while nothing disturbs a send, no mutation is ever misplaced. */
  lemma {:induction false} NothingIsMisplaced(q: State, steps: seq<Step>)
    requires Sound(q) && HeadIsSent(q) && NoneMisplaced(q) && Undisturbed(q, steps)
    ensures NoneMisplaced(Run(q, steps))
    decreases |steps|
  {
    if steps != [] {
      HeadStays(q, steps[0]);
      StepKeeps(q, steps[0]);
      NothingIsMisplaced(Apply(q, steps[0]), steps[1..]);
    }
  }

  // --- one awaited send -------------------------------------------------------------------------------------

  /** The steps other callers take while one send is awaited: anything but its answer. */
  predicate Awaited(steps: seq<Step>) {
    forall i :: 0 <= i < |steps| ==> !steps[i].SucceedStep? && !steps[i].FailStep?
  }

  /** What is being sent no longer heads the queue. */
  predicate HeadMoved(q: State) {
    q.phase.Sending? && (q.pending == [] || q.pending[0].serial != q.phase.mutation.serial)
  }

  lemma {:induction false} OnceMovedStaysMoved(q: State, steps: seq<Step>)
    requires Sound(q) && HeadMoved(q) && Awaited(steps)
    ensures HeadMoved(Run(q, steps)) && Run(q, steps).phase == q.phase
    decreases |steps|
  {
    if steps != [] {
      StepKeeps(q, steps[0]);
      OnceMovedStaysMoved(Apply(q, steps[0]), steps[1..]);
    }
  }

  /** When the answer of a send arrives, the queue is headed by the mutation that was sent if and only if
      nobody cleared the queue, or enqueued to it while full, since the send began. */
  lemma {:induction false} HeadIsSentExactlyWhileUndisturbed(q: State, steps: seq<Step>)
    requires Sound(q) && q.phase.Sending? && HeadIsSent(q) && Awaited(steps)
    ensures Run(q, steps).phase == q.phase
    ensures HeadIsSent(Run(q, steps)) <==> Undisturbed(q, steps)
    ensures !Undisturbed(q, steps) ==> HeadMoved(Run(q, steps))
    decreases |steps|
  {
    if steps != [] {
      StepKeeps(q, steps[0]);
      if Disturbs(q, steps[0]) {
        OnceMovedStaysMoved(Apply(q, steps[0]), steps[1..]);
      } else {
        HeadStays(q, steps[0]);
        HeadIsSentExactlyWhileUndisturbed(Apply(q, steps[0]), steps[1..]);
      }
    }
  }

  /** Waiting before the success, neither waiting nor delivered after it. */
  predicate DroppedUnsent(q: State, s: nat) {
    s in Serials(q.pending) && s !in Serials(SendSucceeded(q).pending) && s !in SendSucceeded(q).delivered
  }

  /** The success of a send drops a mutation that was never sent if and only if the send was disturbed and
      something waits when the answer arrives. */
  lemma SuccessDropsAnUnsentOneExactlyWhenDisturbed(q: State, steps: seq<Step>)
    requires Sound(q) && q.phase.Sending? && HeadIsSent(q) && Awaited(steps)
    ensures var end := Run(q, steps);
            (exists s :: DroppedUnsent(end, s)) <==> !Undisturbed(q, steps) && end.pending != []
  {
    var end := Run(q, steps);
    HeadIsSentExactlyWhileUndisturbed(q, steps);
    RunKeeps(q, steps);
    NoneWaitingDelivered(end);
    if end.pending != [] {
      HeadLeaves(end.pending);
      if !Undisturbed(q, steps) {
        assert DroppedUnsent(end, end.pending[0].serial);
      }
    }
  }

  /** Whatever is being sent, clearing the queue and enqueueing once before the answer loses the newcomer,
      with all the room in the world. */
  lemma ClearThenEnqueueLosesTheNewest(q: State, kind: string, createdAt: int)
    requires Sound(q) && q.phase.Sending? && q.capacity > 0
    ensures var after := SendSucceeded(Enqueue(Clear(q), kind, createdAt));
            && after.delivered == q.delivered + [q.phase.mutation.serial] && after.pending == []
            && q.next in after.fates && after.fates[q.next] == Misplaced
  {
    assert Enqueue(Clear(q), kind, createdAt).pending == [Mutation(q.next, kind, createdAt, 0)];
  }

  lemma RunGoesOn(q: State, s: Step, rest: seq<Step>)
    ensures Run(q, [s] + rest) == Run(Apply(q, s), rest)
  {
    assert ([s] + rest)[1..] == rest;
  }

  lemma RunOfFour(q: State, s0: Step, s1: Step, s2: Step, s3: Step)
    ensures Run(q, [s0, s1, s2, s3]) == Apply(Apply(Apply(Apply(q, s0), s1), s2), s3)
  {
    var q1 := Apply(q, s0);
    var q2 := Apply(q1, s1);
    RunGoesOn(q, s0, [s1, s2, s3]);
    assert [s0, s1, s2, s3] == [s0] + [s1, s2, s3];
    RunGoesOn(q1, s1, [s2, s3]);
    assert [s1, s2, s3] == [s1] + [s2, s3];
    RunGoesOn(q2, s2, [s3]);
    assert [s2, s3] == [s2] + [s3];
    RunGoesOn(Apply(q2, s2), s3, []);
    assert [s3] == [s3] + [];
  }

  lemma FirstSendBegins()
    ensures var b := Begin(Enqueue(Empty(1), "book", 0), map[], 0);
            && b.phase == Sending(Mutation(0, "book", 0, 0))
            && b.next == b.capacity == 1 && b.delivered == [] && b.pending == [Mutation(0, "book", 0, 0)]
  {
    var first := Mutation(0, "book", 0, 0);
    assert Enqueue(Empty(1), "book", 0).pending == [first];
    assert [first][..0] == [];
    assert Unexpired([first], map[], 0) == [first];
  }

  /** Disturbed by overflow, one is lost too: a full queue of one, enqueued to during its send, loses the
      newcomer unsent. */
  lemma OverflowDuringSendLosesTheNewest()
    ensures var q := Run(Empty(1), [EnqueueStep("book", 0), BeginStep(map[], 0), EnqueueStep("cancel", 1), SucceedStep]);
            q.delivered == [0] && q.pending == [] && 1 in q.fates && q.fates[1] == Misplaced
  {
    FirstSendBegins();
    var b := Begin(Enqueue(Empty(1), "book", 0), map[], 0);
    RunOfFour(Empty(1), EnqueueStep("book", 0), BeginStep(map[], 0), EnqueueStep("cancel", 1), SucceedStep);
  }
}
