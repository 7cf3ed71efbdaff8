/** The queue as an object: its operations in place, split where a send is awaited, and a whole flush that
    nothing runs beside. */
module MutationFlush {
  import opened Common
  import opened MutationQueue

  datatype FlushResult = FlushResult(sent: nat, expired: nat, remaining: nat)

  /** Whether the sender accepts each mutation, by serial. */
  type Sender = nat -> bool

  /** How many of a queue, from the front, go through before the first that does not. */
  function Accepted(ms: seq<Mutation>, sender: Sender): (n: nat)
    ensures n <= |ms|
    ensures forall i :: 0 <= i < n ==> sender(ms[i].serial)
    ensures n < |ms| ==> !sender(ms[n].serial)
  {
    if ms == [] || !sender(ms[0].serial) then 0 else 1 + Accepted(ms[1..], sender)
  }

  function Attempted(m: Mutation): Mutation {
    m.(attempts := m.attempts + 1)
  }

  /** What stays after a flush: the rest in order, the refused one with its attempt counted. */
  function Rest(ms: seq<Mutation>, n: nat): seq<Mutation>
    requires n <= |ms|
  {
    if n == |ms| then [] else [Attempted(ms[n])] + ms[n + 1..]
  }

  class Queue {
    var pending: seq<Mutation>
    const capacity: nat
    var phase: Phase
    ghost var next: nat
    ghost var delivered: seq<nat>
    ghost var fates: map<nat, Fate>

    ghost function Now(): State
      reads this
    {
      State(pending, capacity, phase, next, delivered, fates)
    }

    constructor (capacity: nat)
      ensures Now() == Empty(capacity)
    {
      this.capacity := capacity;
      pending, phase, next, delivered, fates := [], Idle, 0, [], map[];
    }

    method Enqueue(serial: nat, kind: string, createdAt: int)
      requires serial == next
      modifies this
      ensures Now() == MutationQueue.Enqueue(old(Now()), kind, createdAt)
    {
      ghost var all := WithNewest(Now(), kind, createdAt);
      pending := pending + [Mutation(serial, kind, createdAt, 0)];
      if |pending| > capacity {
        pending := pending[|pending| - capacity..];
      }
      assert pending == Trim(all, capacity);
      next := next + 1;
      fates := Fated(fates, Serials(all) - Serials(pending), Overflowed);
    }

    /** Drops what is too old, keeping order. */
    method DropExpired(maxAge: map<string, int>, now: int) returns (expired: nat)
      modifies this
      ensures pending == Unexpired(old(pending), maxAge, now)
      ensures expired == |old(pending)| - |pending|
      ensures Now() == old(Now()).(pending := pending, fates := fates)
      ensures fates == Fated(old(fates), Serials(old(pending)) - Serials(pending), Expired)
    {
      var unexpired: seq<Mutation> := [];
      expired := 0;
      for i := 0 to |pending|
        invariant unexpired == Unexpired(pending[..i], maxAge, now)
        invariant expired == i - |unexpired|
      {
        assert pending[..i + 1][..i] == pending[..i];
        if HasExpired(pending[i], maxAge, now) {
          expired := expired + 1;
          continue;
        }
        unexpired := unexpired + [pending[i]];
      }
      assert pending[..|pending|] == pending;
      fates := Fated(fates, Serials(pending) - Serials(unexpired), Expired);
      pending := unexpired;
    }

    /** The part of a flush up to its first awaited send. */
    method Begin(maxAge: map<string, int>, now: int)
      modifies this
      ensures Now() == MutationQueue.Begin(old(Now()), maxAge, now)
    {
      if phase != Idle {
        return;
      }
      var _ := DropExpired(maxAge, now);
      phase := if |pending| > 0 then Sending(pending[0]) else Persisting;
    }

    /** The part from an accepted send to the next one awaited. */
    method Succeed()
      modifies this
      ensures Now() == SendSucceeded(old(Now()))
    {
      if !phase.Sending? {
        return;
      }
      ghost var m := phase.mutation;
      ghost var misplaced := if pending == [] || pending[0].serial == m.serial then {} else {pending[0].serial};
      fates := Fated(Fated(fates, misplaced, Misplaced), {m.serial}, Fate.Delivered);
      delivered := delivered + [m.serial];
      if |pending| > 0 {
        pending := pending[1..];
      }
      phase := if |pending| > 0 then Sending(pending[0]) else Persisting;
    }

    method Fail()
      modifies this
      ensures Now() == SendFailed(old(Now()))
    {
      if phase.Sending? {
        pending := CountAttempt(pending, phase.mutation.serial);
        phase := Persisting;
      }
    }

    method Clear()
      modifies this
      ensures Now() == MutationQueue.Clear(old(Now()))
    {
      fates := Fated(fates, Serials(pending), Cleared);
      pending := [];
    }

    /** A flush nothing runs beside: the unexpired are delivered in order up to the first refusal, and the rest
        stay as they were but for the attempt counted on the one refused. */
    method Flush(maxAge: map<string, int>, now: int, sender: Sender) returns (r: FlushResult)
      requires Sound(Now()) && phase == Idle
      modifies this
      ensures Sound(Now()) && phase == Idle
      ensures
        var unexpired := Unexpired(old(pending), maxAge, now);
        var n := Accepted(unexpired, sender);
        && DeliveredMore(delivered, old(delivered), unexpired, n)
        && pending == Rest(unexpired, n)
        && r == FlushResult(n, |old(pending)| - |unexpired|, |pending|)
      ensures NoneMisplaced(old(Now())) ==> NoneMisplaced(Now())
    {
      ghost var before := Now();
      var size := |pending|;
      Begin(maxAge, now);
      var expired := size - |pending|;
      ghost var unexpired := pending;
      FlushStarts(before, maxAge, now, sender);
      var sent := 0;
      while phase.Sending?
        invariant Flushing(Now(), before, unexpired, sender, sent)
        decreases phase.Sending?, |pending|
      {
        if sender(phase.mutation.serial) {
          FlushGoesOn(Now(), before, unexpired, sender, sent);
          Succeed();
          sent := sent + 1;
        } else {
          FlushStops(Now(), before, unexpired, sender, sent);
          Fail();
        }
      }
      FlushEnds(Now(), before, unexpired, sender, sent);
      phase := Idle;
      r := FlushResult(sent, expired, |pending|);
    }
  }

  /** What was delivered is what had been, then the first `sent` of these. */
  predicate DeliveredMore(after: seq<nat>, before: seq<nat>, ms: seq<Mutation>, sent: nat) {
    && sent <= |ms| && |after| == |before| + sent && before <= after
    && forall i :: 0 <= i < sent ==> after[|before| + i] == ms[i].serial
  }

  /** Where a flush stands after `sent` accepted sends. */
  ghost predicate Flushing(q: State, before: State, ms: seq<Mutation>, sender: Sender, sent: nat) {
    && Sound(q) && !q.phase.Idle? && sent <= Accepted(ms, sender)
    && (q.phase.Sending? ==> sent < |ms| && q.pending == ms[sent..] && HeadIsSent(q))
    && (q.phase.Persisting? ==> sent == Accepted(ms, sender) && q.pending == Rest(ms, sent))
    && DeliveredMore(q.delivered, before.delivered, ms, sent)
    && (NoneMisplaced(before) ==> NoneMisplaced(q))
  }

  lemma FlushStarts(before: State, maxAge: map<string, int>, now: int, sender: Sender)
    requires Sound(before) && before.phase.Idle?
    ensures Flushing(MutationQueue.Begin(before, maxAge, now), before, Unexpired(before.pending, maxAge, now), sender, 0)
  {
    BeginKeeps(before, maxAge, now);
    var q, ms := MutationQueue.Begin(before, maxAge, now), Unexpired(before.pending, maxAge, now);
    assert q.pending == ms == ms[0..] && q.delivered == before.delivered;
    if NoneMisplaced(before) {
      BeginMisplacesNone(before, maxAge, now);
    }
  }

  lemma BeginMisplacesNone(q: State, maxAge: map<string, int>, now: int)
    requires NoneMisplaced(q)
    ensures NoneMisplaced(MutationQueue.Begin(q, maxAge, now))
  {
  }

  lemma OneMoreDelivered(after: seq<nat>, before: seq<nat>, ms: seq<Mutation>, sent: nat)
    requires DeliveredMore(after, before, ms, sent) && sent < |ms|
    ensures DeliveredMore(after + [ms[sent].serial], before, ms, sent + 1)
  {
  }

  lemma SucceedMisplacesNone(q: State)
    requires q.phase.Sending? && HeadIsSent(q) && NoneMisplaced(q)
    ensures NoneMisplaced(SendSucceeded(q))
  {
  }

  lemma FlushGoesOn(q: State, before: State, ms: seq<Mutation>, sender: Sender, sent: nat)
    requires Flushing(q, before, ms, sender, sent) && q.phase.Sending? && sender(q.phase.mutation.serial)
    ensures Flushing(SendSucceeded(q), before, ms, sender, sent + 1)
  {
    AcceptedSoFar(ms, sender, sent);
    SucceedKeeps(q);
    OneMoreDelivered(q.delivered, before.delivered, ms, sent);
    if NoneMisplaced(before) {
      SucceedMisplacesNone(q);
    }
    assert ms[sent..][1..] == ms[sent + 1..];
  }

  lemma FlushStops(q: State, before: State, ms: seq<Mutation>, sender: Sender, sent: nat)
    requires Flushing(q, before, ms, sender, sent) && q.phase.Sending? && !sender(q.phase.mutation.serial)
    ensures Flushing(SendFailed(q), before, ms, sender, sent)
  {
    AcceptedSoFar(ms, sender, sent);
    FailKeeps(q);
    assert ms[sent..][1..] == ms[sent + 1..];
  }

  lemma FlushEnds(q: State, before: State, ms: seq<Mutation>, sender: Sender, sent: nat)
    requires Flushing(q, before, ms, sender, sent) && q.phase.Persisting?
    ensures Sound(q.(phase := Idle)) && (NoneMisplaced(before) ==> NoneMisplaced(q.(phase := Idle)))
  {
  }

  /** Short of the first refusal the next is accepted; at it, it is not. */
  lemma AcceptedSoFar(ms: seq<Mutation>, sender: Sender, k: nat)
    requires k <= Accepted(ms, sender) && k < |ms|
    ensures k < Accepted(ms, sender) <==> sender(ms[k].serial)
  {
  }

}
