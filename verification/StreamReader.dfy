/** The reader as it runs: one drain per progress event, and a connection that is opened again when it ends. */
module StreamReader {
  import opened Common
  import opened Stream

  const FIRST_RETRY_MS := 1000
  const MAX_RETRY_MS := 30000

  // --- reading ------------------------------------------------------------------------------------------

  /** Where the next frame ends. */
  method IndexOfBlank(text: string, from: nat) returns (end: Option<nat>)
    ensures end == NextEnd(text, from)
  {
    var i := from;
    while i + 2 <= |text|
      invariant from <= i
      invariant forall k :: from <= k < i ==> !IsBlank(text, k)
    {
      if text[i] == '\n' && text[i + 1] == '\n' {
        NextEndIs(text, from, i);
        return Some(i);
      }
      i := i + 1;
    }
    NoEnd(text, from);
    return None;
  }

  method Split(frame: string) returns (lines: seq<string>)
    ensures lines == Lines(frame)
  {
    lines := [""];
    var i := |frame|;
    assert frame[i..] == "";
    while i > 0
      invariant 0 <= i <= |frame|
      invariant lines == Lines(frame[i..])
    {
      i := i - 1;
      assert frame[i..][1..] == frame[i + 1..];
      lines := if frame[i] == '\n' then [""] + lines else [[frame[i]] + lines[0]] + lines[1..];
    }
    assert frame[0..] == frame;
  }

  /** Comments and other fields are passed over; data lines accumulate. */
  method ParseFrame<E>(frame: string, decode: Decoder<E>) returns (event: Option<E>)
    ensures event == Parse(frame, decode)
  {
    var lines := Split(frame);
    var data := "";
    for k := 0 to |lines|
      invariant data == Data(lines[..k])
    {
      assert lines[..k + 1][..k] == lines[..k];
      var line := lines[k];
      if line == "" || line[0] == ':' {
        assert !IsData(line);
        continue;
      }
      if IsData(line) {
        data := data + TrimStart(line[5..]);
      }
    }
    assert lines[..|lines|] == lines;
    if data == "" {
      return None;
    }
    event := decode(data);
  }

  lemma OneMoreEvent<E>(frames: seq<string>, frame: string, decode: Decoder<E>)
    ensures Events(frames + [frame], decode) ==
            Events(frames, decode) + match Parse(frame, decode) case None => [] case Some(e) => [e]
  {
    EventsConcat(frames, [frame], decode);
    assert [frame][1..] == [];
  }

  /** These frames, and those still to be cut, are the frames there are. */
  ghost predicate Reached(buffer: string, from: nat, frames: seq<string>, consumed: nat) {
    Cut(buffer, from) == Joined(Pieces(frames, consumed), Cut(buffer, consumed))
  }

  lemma NothingCutYet(buffer: string, from: nat)
    ensures Reached(buffer, from, [], from)
  {
  }

  lemma OneMoreFrame(buffer: string, from: nat, frames: seq<string>, consumed: nat, end: nat)
    requires Reached(buffer, from, frames, consumed) && NextEnd(buffer, consumed) == Some(end)
    ensures Reached(buffer, from, frames + [buffer[consumed..end]], end + 2)
  {
  }

  lemma NoMoreFrames(buffer: string, from: nat, frames: seq<string>, consumed: nat)
    requires Reached(buffer, from, frames, consumed) && NextEnd(buffer, consumed) == None
    ensures Cut(buffer, from) == Pieces(frames, consumed)
  {
  }

  /** Turns whatever is complete into events and reports how much was consumed. */
  method Drain<E>(buffer: string, from: nat, decode: Decoder<E>) returns (events: seq<E>, consumed: nat)
    ensures events == Events(Cut(buffer, from).frames, decode) && consumed == Cut(buffer, from).end
  {
    events, consumed := [], from;
    ghost var frames: seq<string> := [];
    NothingCutYet(buffer, from);
    while true
      invariant Reached(buffer, from, frames, consumed)
      invariant events == Events(frames, decode)
      decreases |buffer| - consumed
    {
      var end := IndexOfBlank(buffer, consumed);
      if end.None? {
        NoMoreFrames(buffer, from, frames, consumed);
        return;
      }
      var frame := buffer[consumed..end.value];
      OneMoreFrame(buffer, from, frames, consumed, end.value);
      OneMoreEvent(frames, frame, decode);
      frames := frames + [frame];
      consumed := end.value + 2;
      var event := ParseFrame(frame, decode);
      if event.Some? {
        events := events + [event.value];
      }
    }
  }

  // --- reconnecting -------------------------------------------------------------------------------------

  function Min(a: nat, b: nat): nat {
    if a <= b then a else b
  }

  function Pow2(n: nat): nat {
    if n == 0 then 1 else 2 * Pow2(n - 1)
  }

  /** The wait after n failures in a row. */
  function Backoff(n: nat): nat {
    if n == 0 then FIRST_RETRY_MS else Min(2 * Backoff(n - 1), MAX_RETRY_MS)
  }

  /** It doubles to a ceiling and stays there. */
  lemma {:induction false} BackoffDoublesToACeiling(n: nat)
    ensures Backoff(n) == Min(FIRST_RETRY_MS * Pow2(n), MAX_RETRY_MS)
  {
    if n > 0 {
      BackoffDoublesToACeiling(n - 1);
    }
  }

  /** One request: how much of its response was consumed, whether it was accepted, and whether it has told
      anyone that it is over. */
  datatype Connection = Connection(consumed: nat, accepted: bool, over: bool)

  // --- what keeps a stream heard ------------------------------------------------------------------------

  /** Of each request made, whether it has reported its end; and how many reconnections are scheduled. */
  datatype Link = Link(over: seq<bool>, timers: nat)

  datatype Signal = Ended(c: nat) | Due

  function Running(over: seq<bool>): nat {
    if over == [] then 0 else Running(over[..|over| - 1]) + if over[|over| - 1] then 0 else 1
  }

  /** How many ways there are of hearing the stream: requests still running and reconnections to come. */
  function Hears(l: Link): nat {
    Running(l.over) + l.timers
  }

  /** What an open stream does on being told that request `c` is over, and when a reconnection is due. */
  function Signalled(l: Link, s: Signal): Link {
    match s
    case Ended(c) => if c < |l.over| then Link(l.over[c := true], l.timers + 1) else l
    case Due => if l.timers > 0 then Link(l.over + [false], l.timers - 1) else l
  }

  predicate EndsTwice(l: Link, s: Signal) {
    s.Ended? && s.c < |l.over| && l.over[s.c]
  }

  function AfterAll(l: Link, ss: seq<Signal>): Link
    decreases |ss|
  {
    if ss == [] then l else AfterAll(Signalled(l, ss[0]), ss[1..])
  }

  /** How many of the signals report the end of a request that had reported it before. */
  function RepeatedEnds(l: Link, ss: seq<Signal>): nat
    decreases |ss|
  {
    if ss == [] then 0 else (if EndsTwice(l, ss[0]) then 1 else 0) + RepeatedEnds(Signalled(l, ss[0]), ss[1..])
  }

  lemma {:induction false} EndedRunning(over: seq<bool>, c: nat)
    requires c < |over|
    ensures Running(over[c := true]) == Running(over) - if over[c] then 0 else 1
    decreases |over|
  {
    var n := |over| - 1;
    if c < n {
      EndedRunning(over[..n], c);
      assert over[c := true][..n] == over[..n][c := true];
    } else {
      assert over[c := true][..n] == over[..n];
    }
  }

  lemma SignalHears(l: Link, s: Signal)
    ensures Hears(Signalled(l, s)) == Hears(l) + if EndsTwice(l, s) then 1 else 0
  {
    match s
    case Ended(c) =>
      if c < |l.over| {
        EndedRunning(l.over, c);
      }
    case Due =>
      assert (l.over + [false])[..|l.over|] == l.over;
  }

  /** Over any signals: what is left to hear the stream by is what there was, and one more for every end that
      was reported again. */
  lemma {:induction false} RepeatedEndsAddUp(l: Link, ss: seq<Signal>)
    ensures Hears(AfterAll(l, ss)) == Hears(l) + RepeatedEnds(l, ss)
    decreases |ss|
  {
    if ss != [] {
      SignalHears(l, ss[0]);
      RepeatedEndsAddUp(Signalled(l, ss[0]), ss[1..]);
    }
  }

  /** So a stream opened with its one request has, after any signals, exactly one request running or due if
      and only if no request has reported its end twice. */
  lemma OneAttemptExactlyWhileEndsAreHeardOnce(ss: seq<Signal>)
    ensures Hears(AfterAll(Link([false], 0), ss)) == 1 <==> RepeatedEnds(Link([false], 0), ss) == 0
  {
    RepeatedEndsAddUp(Link([false], 0), ss);
  }

  /** A failed request that fires both its state change and its error forks the stream: from any state with
      that request running, two reconnections come of it, and both are made. */
  lemma FailureHeardTwiceForksTheStream(l: Link, c: nat)
    requires c < |l.over| && !l.over[c]
    ensures var after := AfterAll(l, [Ended(c), Ended(c), Due, Due]);
            && Hears(after) == Hears(l) + 1
            && after == Link(l.over[c := true] + [false, false], l.timers)
  {
    var ss := [Ended(c), Ended(c), Due, Due];
    assert ss[1..][1..] == [Due, Due] && [Due, Due][1..] == [Due];
    var ended := Link(l.over[c := true], l.timers + 2);
    assert Signalled(Signalled(l, Ended(c)), Ended(c)) == ended;
    assert AfterAll(l, ss) == AfterAll(ended, [Due, Due]);
    assert AfterAll(ended, [Due, Due]) == Signalled(Signalled(ended, Due), Due);
    assert l.over[c := true] + [false] + [false] == l.over[c := true] + [false, false];
    SignalHears(l, Ended(c));
    SignalHears(Signalled(l, Ended(c)), Ended(c));
    SignalHears(ended, Due);
    SignalHears(Signalled(ended, Due), Due);
  }

  function Overs(cs: seq<Connection>): (over: seq<bool>)
    ensures |over| == |cs| && forall i :: 0 <= i < |cs| ==> over[i] == cs[i].over
  {
    seq(|cs|, i requires 0 <= i < |cs| => cs[i].over)
  }

  class EventStream<E> {
    const decode: Decoder<E>
    var closed: bool
    var retryMs: nat
    var connections: seq<Connection>
    var timers: seq<nat>           // reconnections scheduled and not yet made, by how long they wait
    var delivered: seq<E>
    var opens: nat
    var refusals: nat

    constructor (decode: Decoder<E>)
      ensures this.decode == decode && !closed && retryMs == FIRST_RETRY_MS
      ensures connections == [Connection(0, false, false)] && timers == [] && delivered == []
      ensures Line() == Link([false], 0)
    {
      this.decode := decode;
      closed, retryMs, timers, delivered, opens, refusals := false, FIRST_RETRY_MS, [], [], 0, 0;
      connections := [Connection(0, false, false)];
    }

    /** What keeps this stream heard. */
    ghost function Line(): Link
      reads this
    {
      Link(Overs(connections), |timers|)
    }

    method Reconnect()
      requires !closed
      modifies this`timers, this`retryMs
      ensures timers == old(timers) + [old(retryMs)]
      ensures retryMs == Min(2 * old(retryMs), MAX_RETRY_MS)
    {
      var wait := retryMs;
      retryMs := if retryMs * 2 <= MAX_RETRY_MS then retryMs * 2 else MAX_RETRY_MS;
      timers := timers + [wait];
    }

    /** A change of state of request `c`. Progress delivers what is newly complete and nothing twice. */
    method ReadyState(c: nat, state: nat, status: nat, text: string)
      requires c < |connections|
      modifies this
      ensures closed == old(closed)
      ensures closed ==> connections == old(connections) && timers == old(timers) && delivered == old(delivered)
                         && retryMs == old(retryMs) && opens == old(opens) && refusals == old(refusals)
      ensures !closed && state !in {3, 4} ==> delivered == old(delivered)
      ensures !closed && state in {3, 4} ==>
        var more := Cut(text, old(connections)[c].consumed);
        && delivered == old(delivered) + Events(more.frames, decode)
        && |connections| == |old(connections)|
        && connections[c].consumed == more.end
      ensures !closed && state == 2 && !old(connections)[c].accepted && 200 <= status < 300 ==>
        opens == old(opens) + 1 && retryMs == FIRST_RETRY_MS && refusals == old(refusals)
        && connections == old(connections)[c := old(connections)[c].(accepted := true)]
      ensures !closed && state == 2 && !old(connections)[c].accepted && !(200 <= status < 300) ==>
        refusals == old(refusals) + (if status != 0 then 1 else 0) && connections == old(connections) && opens == old(opens)
      ensures !closed && state == 4 ==>
        && timers == old(timers) + [old(retryMs)] && retryMs == Min(2 * old(retryMs), MAX_RETRY_MS)
        && Line() == Signalled(old(Line()), Ended(c))
      ensures state != 4 ==> timers == old(timers) && Line() == old(Line())
    {
      if closed {
        return;
      }
      if state == 2 && !connections[c].accepted {
        if 200 <= status < 300 {
          connections := connections[c := connections[c].(accepted := true)];
          retryMs := FIRST_RETRY_MS;
          opens := opens + 1;
        } else if status != 0 {
          refusals := refusals + 1;
        }
      }
      if state == 3 || state == 4 {
        var events, consumed := Drain(text, connections[c].consumed, decode);
        delivered := delivered + events;
        connections := connections[c := connections[c].(consumed := consumed)];
      }
      if state == 4 {
        End(c);
        Reconnect();
      }
    }

    method End(c: nat)
      requires c < |connections|
      modifies this`connections
      ensures connections == old(connections)[c := old(connections)[c].(over := true)]
      ensures Overs(connections) == Overs(old(connections))[c := true]
    {
      connections := connections[c := connections[c].(over := true)];
    }

    /** A transport error asks for a reconnection too, whether or not the end was already noticed. */
    method Failed(c: nat)
      requires c < |connections|
      modifies this
      ensures delivered == old(delivered) && closed == old(closed)
      ensures closed ==> timers == old(timers) && connections == old(connections) && retryMs == old(retryMs)
      ensures !closed ==>
        && timers == old(timers) + [old(retryMs)]
        && connections == old(connections)[c := old(connections)[c].(over := true)]
        && Line() == Signalled(old(Line()), Ended(c))
    {
      if !closed {
        End(c);
        Reconnect();
      }
    }

    /** A scheduled reconnection comes due. */
    method Fire()
      requires timers != []
      modifies this
      ensures timers == old(timers)[1..] && closed == old(closed) && delivered == old(delivered)
      ensures connections == if closed then old(connections) else old(connections) + [Connection(0, false, false)]
      ensures !closed ==> Line() == Signalled(old(Line()), Due)
    {
      timers := timers[1..];
      if closed {
        return;
      }
      connections := connections + [Connection(0, false, false)];
    }

    method Close()
      modifies this`closed, this`timers
      ensures closed
      ensures timers == if old(timers) == [] then [] else old(timers)[..|old(timers)| - 1]
    {
      closed := true;
      // Only the latest timer is remembered; any other finds the stream closed when it fires.
      if timers != [] {
        timers := timers[..|timers| - 1];
      }
    }
  }
}
