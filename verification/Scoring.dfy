/** Ranking the drivers considered for a job. Scores are exact reals here; the Go service rounds them as 64-bit
    floating point. */
module Scoring {
  import opened Common

  /** Driver identifiers are compared, never computed with; a number stands for each in their order. */
  datatype Candidate = Candidate(
    driver: nat,
    distance: real,
    eta: Option<real>,
    completion: Option<real>,
    cancellation: Option<real>,
    acceptance: Option<real>,
    idle: real,
    exact: bool)

  datatype Weights = Weights(eta: int, distance: int, reliability: int, acceptance: int, idle: int, capability: int)

  datatype Scored = Scored(candidate: Candidate, score: real)

  // --- normalising ----------------------------------------------------------------------------------------

  datatype Signal = EtaSignal | DistanceSignal | IdleSignal

  /** What a candidate contributes to the bound of a signal. */
  function Reading(c: Candidate, s: Signal): real {
    match s
    case EtaSignal => c.eta.GetOr(0.0)
    case DistanceSignal => c.distance
    case IdleSignal => c.idle
  }

  /** The largest reading, and never below one. */
  function Bound(cs: seq<Candidate>, s: Signal): (m: real)
    ensures m >= 1.0
    ensures forall i :: 0 <= i < |cs| ==> Reading(cs[i], s) <= m
    ensures m == 1.0 || exists i :: 0 <= i < |cs| && Reading(cs[i], s) == m
  {
    if cs == [] then 1.0
    else
      var last := cs[|cs| - 1];
      var rest := Bound(cs[..|cs| - 1], s);
      if Reading(last, s) > rest then Reading(last, s) else rest
  }

  datatype Bounds = Bounds(eta: real, distance: real, idle: real)

  function BoundsOf(cs: seq<Candidate>): Bounds {
    Bounds(Bound(cs, EtaSignal), Bound(cs, DistanceSignal), Bound(cs, IdleSignal))
  }

  predicate Positive(b: Bounds) {
    b.eta >= 1.0 && b.distance >= 1.0 && b.idle >= 1.0
  }

  function Clamp(v: real): real {
    if v > 1.0 then 1.0 else if v < 0.0 then 0.0 else v
  }

  /** The six terms, each between nothing and one, where one is best. */
  datatype Terms = Terms(eta: real, distance: real, reliability: real, acceptance: real, idle: real, capability: real)

  /** An unknown arrival is not an instant one; no history is neutral. */
  function TermsOf(c: Candidate, b: Bounds): Terms
    requires Positive(b)
  {
    Terms(
      if c.eta.Some? then 1.0 - c.eta.value / b.eta else 0.0,
      1.0 - c.distance / b.distance,
      if c.completion.None? && c.cancellation.None? then 0.5
      else Clamp(c.completion.GetOr(1.0) - c.cancellation.GetOr(0.0)),
      if c.acceptance.None? then 0.5 else Clamp(c.acceptance.value),
      c.idle / b.idle,
      if c.exact then 1.0 else 0.5)
  }

  function TotalWeight(w: Weights): real {
    w.eta as real + w.distance as real + w.reliability as real + w.acceptance as real + w.idle as real + w.capability as real
  }

  function Weighted(t: Terms, w: Weights): real {
    w.eta as real * t.eta + w.distance as real * t.distance + w.reliability as real * t.reliability
    + w.acceptance as real * t.acceptance + w.idle as real * t.idle + w.capability as real * t.capability
  }

  function ScoreOf(c: Candidate, b: Bounds, w: Weights): real
    requires Positive(b)
  {
    Weighted(TermsOf(c, b), w) / (if TotalWeight(w) == 0.0 then 1.0 else TotalWeight(w))
  }

  function ScoreEach(cs: seq<Candidate>, b: Bounds, w: Weights): (r: seq<Scored>)
    requires Positive(b)
    ensures |r| == |cs|
  {
    seq(|cs|, i requires 0 <= i < |cs| => Scored(cs[i], ScoreOf(cs[i], b, w)))
  }

  // --- the range of a score -------------------------------------------------------------------------------

  predicate NonNegative(w: Weights) {
    w.eta >= 0 && w.distance >= 0 && w.reliability >= 0 && w.acceptance >= 0 && w.idle >= 0 && w.capability >= 0
  }

  predicate Plausible(c: Candidate) {
    c.distance >= 0.0 && c.idle >= 0.0 && (c.eta.Some? ==> c.eta.value >= 0.0)
  }

  predicate WithinUnit(x: real) {
    0.0 <= x <= 1.0
  }

  predicate TermsWithinUnit(t: Terms) {
    && WithinUnit(t.eta) && WithinUnit(t.distance) && WithinUnit(t.reliability)
    && WithinUnit(t.acceptance) && WithinUnit(t.idle) && WithinUnit(t.capability)
  }

  lemma ShareIsWithinUnit(x: real, m: real)
    requires 0.0 <= x <= m && m > 0.0
    ensures WithinUnit(x / m)
  {
  }

  lemma CandidateTermsWithinUnit(cs: seq<Candidate>, i: nat)
    requires i < |cs| && Plausible(cs[i])
    ensures TermsWithinUnit(TermsOf(cs[i], BoundsOf(cs)))
  {
    var b := BoundsOf(cs);
    var c := cs[i];
    assert Reading(c, EtaSignal) <= b.eta && Reading(c, DistanceSignal) <= b.distance && Reading(c, IdleSignal) <= b.idle;
    ShareIsWithinUnit(c.eta.GetOr(0.0), b.eta);
    ShareIsWithinUnit(c.distance, b.distance);
    ShareIsWithinUnit(c.idle, b.idle);
  }

  lemma WeightedWithinTotal(t: Terms, w: Weights)
    requires TermsWithinUnit(t) && NonNegative(w)
    ensures 0.0 <= Weighted(t, w) <= TotalWeight(w)
  {
    WeightedFollowsTerms(t, Terms(0.0, 0.0, 0.0, 0.0, 0.0, 0.0), w);
    WeightedFollowsTerms(Terms(1.0, 1.0, 1.0, 1.0, 1.0, 1.0), t, w);
  }

  /** With non-negative weights every score lies between nothing and one. */
  lemma ScoreIsWithinUnit(cs: seq<Candidate>, w: Weights, i: nat)
    requires i < |cs| && Plausible(cs[i]) && NonNegative(w)
    ensures WithinUnit(ScoreOf(cs[i], BoundsOf(cs), w))
  {
    CandidateTermsWithinUnit(cs, i);
    var t := TermsOf(cs[i], BoundsOf(cs));
    WeightedWithinTotal(t, w);
    if TotalWeight(w) > 0.0 {
      ShareIsWithinUnit(Weighted(t, w), TotalWeight(w));
    }
  }

  /** At least as good on every signal: nearer, sooner where both are known, no less reliable or willing, idle at
      least as long, and matching at least as well. */
  predicate AtLeastAsGood(a: Candidate, b: Candidate) {
    && a.distance <= b.distance && a.idle >= b.idle && (b.exact ==> a.exact)
    && (if b.eta.Some? then a.eta.Some? && a.eta.value <= b.eta.value else true)
    && ReliabilityOf(a) >= ReliabilityOf(b) && AcceptanceOf(a) >= AcceptanceOf(b)
  }

  function ReliabilityOf(c: Candidate): real {
    if c.completion.None? && c.cancellation.None? then 0.5
    else Clamp(c.completion.GetOr(1.0) - c.cancellation.GetOr(0.0))
  }

  function AcceptanceOf(c: Candidate): real {
    if c.acceptance.None? then 0.5 else Clamp(c.acceptance.value)
  }

  lemma QuotientGrows(x: real, y: real, d: real)
    requires x <= y && d > 0.0
    ensures x / d <= y / d
  {
  }

  predicate TermsAtLeast(s: Terms, t: Terms) {
    && s.eta >= t.eta && s.distance >= t.distance && s.reliability >= t.reliability
    && s.acceptance >= t.acceptance && s.idle >= t.idle && s.capability >= t.capability
  }

  lemma BetterTerms(cs: seq<Candidate>, i: nat, j: nat)
    requires i < |cs| && j < |cs| && Plausible(cs[i]) && AtLeastAsGood(cs[i], cs[j])
    ensures TermsAtLeast(TermsOf(cs[i], BoundsOf(cs)), TermsOf(cs[j], BoundsOf(cs)))
  {
    var b := BoundsOf(cs);
    CandidateTermsWithinUnit(cs, i);
    QuotientGrows(cs[i].distance, cs[j].distance, b.distance);
    QuotientGrows(cs[j].idle, cs[i].idle, b.idle);
    if cs[j].eta.Some? {
      QuotientGrows(cs[i].eta.value, cs[j].eta.value, b.eta);
    }
  }

  lemma WeightedFollowsTerms(s: Terms, t: Terms, w: Weights)
    requires TermsAtLeast(s, t) && NonNegative(w)
    ensures Weighted(t, w) <= Weighted(s, w)
  {
  }

  /** A candidate at least as good on every signal never scores lower. */
  lemma BetterNeverScoresLower(cs: seq<Candidate>, w: Weights, i: nat, j: nat)
    requires i < |cs| && j < |cs| && Plausible(cs[i]) && NonNegative(w)
    requires AtLeastAsGood(cs[i], cs[j])
    ensures ScoreOf(cs[i], BoundsOf(cs), w) >= ScoreOf(cs[j], BoundsOf(cs), w)
  {
    var s, t := TermsOf(cs[i], BoundsOf(cs)), TermsOf(cs[j], BoundsOf(cs));
    BetterTerms(cs, i, j);
    WeightedFollowsTerms(s, t, w);
    var total := if TotalWeight(w) == 0.0 then 1.0 else TotalWeight(w);
    QuotientGrows(Weighted(t, w), Weighted(s, w), total);
  }

  // --- what each signal weighs ------------------------------------------------------------------------------

  lemma ShareOfItself(m: real)
    requires m != 0.0
    ensures m / m == 1.0
  {
  }

  lemma TakesOut(w: real, x: real, y: real, d: real)
    requires x - y == d
    ensures w * x - w * y == w * d
  {
    assert w * x - w * y == w * (x - y);
  }

  lemma SharesDiffer(x: real, y: real, m: real)
    requires m > 0.0
    ensures x / m - y / m == (x - y) / m
  {
  }

  /** A score is a share of the total weight: of what, and the terms that is made of. */
  lemma ScoreIsAShare(c: Candidate, b: Bounds, w: Weights) returns (x: real, t: Terms)
    requires Positive(b) && TotalWeight(w) != 0.0
    ensures ScoreOf(c, b, w) == x / TotalWeight(w)
    ensures t == TermsOf(c, b)
    ensures x == Weighted(t, w)
  {
    t := TermsOf(c, b);
    x := Weighted(t, w);
  }

  lemma ArrivalTermLeads(x: real, y: real, s: Terms, t: Terms, w: Weights, d: real)
    requires x == Weighted(s, w) && y == Weighted(t, w) && s == t.(eta := s.eta) && s.eta - t.eta == d
    ensures x - y == w.eta as real * d
  {
    TakesOut(w.eta as real, s.eta, t.eta, d);
  }

  lemma ArrivalDiffers(cs: seq<Candidate>, i: nat, j: nat, s: Terms, t: Terms) returns (share: real)
    requires i < |cs| && j < |cs|
    requires cs[i].eta.Some? && cs[j].eta.Some? && cs[i] == cs[j].(driver := cs[i].driver, eta := cs[i].eta)
    requires s == TermsOf(cs[i], BoundsOf(cs)) && t == TermsOf(cs[j], BoundsOf(cs))
    ensures s == t.(eta := s.eta) && s.eta - t.eta == share
    ensures share == (cs[j].eta.value - cs[i].eta.value) / Bound(cs, EtaSignal)
  {
    share := s.eta - t.eta;
    SharesDiffer(cs[j].eta.value, cs[i].eta.value, Bound(cs, EtaSignal));
  }

  /** Two candidates of one list who differ in their arrival alone: in units of the total weight, the sooner one
      leads by the arrival's weight times the difference as a share of the slowest arrival. */
  lemma ArrivalWeighs(cs: seq<Candidate>, w: Weights, i: nat, j: nat) returns (x: real, y: real, share: real)
    requires i < |cs| && j < |cs| && TotalWeight(w) != 0.0
    requires cs[i].eta.Some? && cs[j].eta.Some? && cs[i] == cs[j].(driver := cs[i].driver, eta := cs[i].eta)
    ensures ScoreOf(cs[i], BoundsOf(cs), w) == x / TotalWeight(w) && ScoreOf(cs[j], BoundsOf(cs), w) == y / TotalWeight(w)
    ensures share == (cs[j].eta.value - cs[i].eta.value) / Bound(cs, EtaSignal)
    ensures x - y == w.eta as real * share
  {
    var s, t;
    x, s := ScoreIsAShare(cs[i], BoundsOf(cs), w);
    y, t := ScoreIsAShare(cs[j], BoundsOf(cs), w);
    share := ArrivalDiffers(cs, i, j, s, t);
    ArrivalTermLeads(x, y, s, t, w, share);
  }

  lemma DistanceTermLeads(x: real, y: real, s: Terms, t: Terms, w: Weights, d: real)
    requires x == Weighted(s, w) && y == Weighted(t, w) && s == t.(distance := s.distance) && s.distance - t.distance == d
    ensures x - y == w.distance as real * d
  {
    TakesOut(w.distance as real, s.distance, t.distance, d);
  }

  lemma DistanceDiffers(cs: seq<Candidate>, i: nat, j: nat, s: Terms, t: Terms) returns (share: real)
    requires i < |cs| && j < |cs|
    requires cs[i] == cs[j].(driver := cs[i].driver, distance := cs[i].distance)
    requires s == TermsOf(cs[i], BoundsOf(cs)) && t == TermsOf(cs[j], BoundsOf(cs))
    ensures s == t.(distance := s.distance) && s.distance - t.distance == share
    ensures share == (cs[j].distance - cs[i].distance) / Bound(cs, DistanceSignal)
  {
    share := s.distance - t.distance;
    SharesDiffer(cs[j].distance, cs[i].distance, Bound(cs, DistanceSignal));
  }

  /** In their distance alone: the nearer one leads by the distance's weight times that share of the farthest. */
  lemma DistanceWeighs(cs: seq<Candidate>, w: Weights, i: nat, j: nat) returns (x: real, y: real, share: real)
    requires i < |cs| && j < |cs| && TotalWeight(w) != 0.0
    requires cs[i] == cs[j].(driver := cs[i].driver, distance := cs[i].distance)
    ensures ScoreOf(cs[i], BoundsOf(cs), w) == x / TotalWeight(w) && ScoreOf(cs[j], BoundsOf(cs), w) == y / TotalWeight(w)
    ensures share == (cs[j].distance - cs[i].distance) / Bound(cs, DistanceSignal)
    ensures x - y == w.distance as real * share
  {
    var s, t;
    x, s := ScoreIsAShare(cs[i], BoundsOf(cs), w);
    y, t := ScoreIsAShare(cs[j], BoundsOf(cs), w);
    share := DistanceDiffers(cs, i, j, s, t);
    DistanceTermLeads(x, y, s, t, w, share);
  }

  lemma IdlenessTermLeads(x: real, y: real, s: Terms, t: Terms, w: Weights, d: real)
    requires x == Weighted(s, w) && y == Weighted(t, w) && s == t.(idle := s.idle) && s.idle - t.idle == d
    ensures x - y == w.idle as real * d
  {
    TakesOut(w.idle as real, s.idle, t.idle, d);
  }

  lemma IdlenessDiffers(cs: seq<Candidate>, i: nat, j: nat, s: Terms, t: Terms) returns (share: real)
    requires i < |cs| && j < |cs|
    requires cs[i] == cs[j].(driver := cs[i].driver, idle := cs[i].idle)
    requires s == TermsOf(cs[i], BoundsOf(cs)) && t == TermsOf(cs[j], BoundsOf(cs))
    ensures s == t.(idle := s.idle) && s.idle - t.idle == share
    ensures share == (cs[i].idle - cs[j].idle) / Bound(cs, IdleSignal)
  {
    share := s.idle - t.idle;
    SharesDiffer(cs[i].idle, cs[j].idle, Bound(cs, IdleSignal));
  }

  /** In how long they have been idle: the longer one leads by that weight times that share of the longest. */
  lemma IdlenessWeighs(cs: seq<Candidate>, w: Weights, i: nat, j: nat) returns (x: real, y: real, share: real)
    requires i < |cs| && j < |cs| && TotalWeight(w) != 0.0
    requires cs[i] == cs[j].(driver := cs[i].driver, idle := cs[i].idle)
    ensures ScoreOf(cs[i], BoundsOf(cs), w) == x / TotalWeight(w) && ScoreOf(cs[j], BoundsOf(cs), w) == y / TotalWeight(w)
    ensures share == (cs[i].idle - cs[j].idle) / Bound(cs, IdleSignal)
    ensures x - y == w.idle as real * share
  {
    var s, t;
    x, s := ScoreIsAShare(cs[i], BoundsOf(cs), w);
    y, t := ScoreIsAShare(cs[j], BoundsOf(cs), w);
    share := IdlenessDiffers(cs, i, j, s, t);
    IdlenessTermLeads(x, y, s, t, w, share);
  }

  lemma ReliabilityTermLeads(x: real, y: real, s: Terms, t: Terms, w: Weights, d: real)
    requires x == Weighted(s, w) && y == Weighted(t, w) && s == t.(reliability := s.reliability) && s.reliability - t.reliability == d
    ensures x - y == w.reliability as real * d
  {
    TakesOut(w.reliability as real, s.reliability, t.reliability, d);
  }

  lemma ReliabilityDiffers(cs: seq<Candidate>, i: nat, j: nat, s: Terms, t: Terms) returns (share: real)
    requires i < |cs| && j < |cs|
    requires cs[i] == cs[j].(driver := cs[i].driver, completion := cs[i].completion, cancellation := cs[i].cancellation)
    requires cs[i].completion.Some? && cs[i].cancellation.Some? && cs[j].completion.Some? && cs[j].cancellation.Some?
    requires s == TermsOf(cs[i], BoundsOf(cs)) && t == TermsOf(cs[j], BoundsOf(cs))
    ensures s == t.(reliability := s.reliability) && s.reliability - t.reliability == share
    ensures share == Clamp(cs[i].completion.value - cs[i].cancellation.value)
                     - Clamp(cs[j].completion.value - cs[j].cancellation.value)
  {
    share := s.reliability - t.reliability;
  }

  /** In their rates of completing and cancelling: what they complete less what they cancel counts, when that
      is a rate at all, by the weight of reliability. */
  lemma ReliabilityWeighs(cs: seq<Candidate>, w: Weights, i: nat, j: nat) returns (x: real, y: real, share: real)
    requires i < |cs| && j < |cs| && TotalWeight(w) != 0.0
    requires cs[i] == cs[j].(driver := cs[i].driver, completion := cs[i].completion, cancellation := cs[i].cancellation)
    requires cs[i].completion.Some? && cs[i].cancellation.Some? && cs[j].completion.Some? && cs[j].cancellation.Some?
    ensures ScoreOf(cs[i], BoundsOf(cs), w) == x / TotalWeight(w) && ScoreOf(cs[j], BoundsOf(cs), w) == y / TotalWeight(w)
    ensures share == Clamp(cs[i].completion.value - cs[i].cancellation.value)
                     - Clamp(cs[j].completion.value - cs[j].cancellation.value)
    ensures x - y == w.reliability as real * share
  {
    var s, t;
    x, s := ScoreIsAShare(cs[i], BoundsOf(cs), w);
    y, t := ScoreIsAShare(cs[j], BoundsOf(cs), w);
    share := ReliabilityDiffers(cs, i, j, s, t);
    ReliabilityTermLeads(x, y, s, t, w, share);
  }

  lemma AcceptanceTermLeads(x: real, y: real, s: Terms, t: Terms, w: Weights, d: real)
    requires x == Weighted(s, w) && y == Weighted(t, w) && s == t.(acceptance := s.acceptance) && s.acceptance - t.acceptance == d
    ensures x - y == w.acceptance as real * d
  {
    TakesOut(w.acceptance as real, s.acceptance, t.acceptance, d);
  }

  lemma AcceptanceDiffers(cs: seq<Candidate>, i: nat, j: nat, s: Terms, t: Terms) returns (share: real)
    requires i < |cs| && j < |cs|
    requires cs[i] == cs[j].(driver := cs[i].driver, acceptance := cs[i].acceptance)
    requires cs[i].acceptance.Some? && cs[j].acceptance.Some?
    requires s == TermsOf(cs[i], BoundsOf(cs)) && t == TermsOf(cs[j], BoundsOf(cs))
    ensures s == t.(acceptance := s.acceptance) && s.acceptance - t.acceptance == share
    ensures share == Clamp(cs[i].acceptance.value) - Clamp(cs[j].acceptance.value)
  {
    share := s.acceptance - t.acceptance;
  }

  /** In how often they accept: the rate counts, by the weight of acceptance. */
  lemma AcceptanceWeighs(cs: seq<Candidate>, w: Weights, i: nat, j: nat) returns (x: real, y: real, share: real)
    requires i < |cs| && j < |cs| && TotalWeight(w) != 0.0
    requires cs[i] == cs[j].(driver := cs[i].driver, acceptance := cs[i].acceptance)
    requires cs[i].acceptance.Some? && cs[j].acceptance.Some?
    ensures ScoreOf(cs[i], BoundsOf(cs), w) == x / TotalWeight(w) && ScoreOf(cs[j], BoundsOf(cs), w) == y / TotalWeight(w)
    ensures share == Clamp(cs[i].acceptance.value) - Clamp(cs[j].acceptance.value)
    ensures x - y == w.acceptance as real * share
  {
    var s, t;
    x, s := ScoreIsAShare(cs[i], BoundsOf(cs), w);
    y, t := ScoreIsAShare(cs[j], BoundsOf(cs), w);
    share := AcceptanceDiffers(cs, i, j, s, t);
    AcceptanceTermLeads(x, y, s, t, w, share);
  }

  lemma CapabilityTermLeads(x: real, y: real, s: Terms, t: Terms, w: Weights, d: real)
    requires x == Weighted(s, w) && y == Weighted(t, w) && s == t.(capability := s.capability) && s.capability - t.capability == d
    ensures x - y == w.capability as real * d
  {
    TakesOut(w.capability as real, s.capability, t.capability, d);
  }

  lemma CapabilityDiffers(cs: seq<Candidate>, i: nat, j: nat, s: Terms, t: Terms) returns (share: real)
    requires i < |cs| && j < |cs|
    requires cs[i] == cs[j].(driver := cs[i].driver, exact := true) && !cs[j].exact
    requires s == TermsOf(cs[i], BoundsOf(cs)) && t == TermsOf(cs[j], BoundsOf(cs))
    ensures s == t.(capability := s.capability) && s.capability - t.capability == share
    ensures share == 0.5
  {
    share := s.capability - t.capability;
  }

  /** In whether the vehicle is just the one asked for: that is worth half the weight of capability. */
  lemma CapabilityWeighs(cs: seq<Candidate>, w: Weights, i: nat, j: nat) returns (x: real, y: real, share: real)
    requires i < |cs| && j < |cs| && TotalWeight(w) != 0.0
    requires cs[i] == cs[j].(driver := cs[i].driver, exact := true) && !cs[j].exact
    ensures ScoreOf(cs[i], BoundsOf(cs), w) == x / TotalWeight(w) && ScoreOf(cs[j], BoundsOf(cs), w) == y / TotalWeight(w)
    ensures share == 0.5
    ensures x - y == w.capability as real * share
  {
    var s, t;
    x, s := ScoreIsAShare(cs[i], BoundsOf(cs), w);
    y, t := ScoreIsAShare(cs[j], BoundsOf(cs), w);
    share := CapabilityDiffers(cs, i, j, s, t);
    CapabilityTermLeads(x, y, s, t, w, share);
  }

  /** A rate is taken as it is when it lies between nothing and one, and otherwise as the nearer end. */
  lemma RatesAreClamped(v: real)
    ensures 0.0 <= v <= 1.0 ==> Clamp(v) == v
    ensures v < 0.0 ==> Clamp(v) == 0.0
    ensures v > 1.0 ==> Clamp(v) == 1.0
  {
  }

  /** An unknown arrival counts as the slowest one; no history as one half; a missing half of the record as a
      full rate of completing or none of cancelling. */
  lemma UnknownsCountAs(c: Candidate, b: Bounds)
    requires Positive(b)
    ensures c.eta.None? ==> TermsOf(c, b) == TermsOf(c.(eta := Some(b.eta)), b)
    ensures c.acceptance.None? ==> TermsOf(c, b) == TermsOf(c.(acceptance := Some(0.5)), b)
    ensures c.completion.None? && c.cancellation.None? ==>
      TermsOf(c, b) == TermsOf(c.(completion := Some(0.5), cancellation := Some(0.0)), b)
    ensures c.completion.None? && c.cancellation.Some? ==> TermsOf(c, b) == TermsOf(c.(completion := Some(1.0)), b)
    ensures c.completion.Some? && c.cancellation.None? ==> TermsOf(c, b) == TermsOf(c.(cancellation := Some(0.0)), b)
  {
    ShareOfItself(b.eta);
  }

  /** So whoever lacks a reading scores as if they had that one. */
  lemma UnknownsScoreAs(c: Candidate, b: Bounds, w: Weights)
    requires Positive(b)
    ensures c.eta.None? ==> ScoreOf(c, b, w) == ScoreOf(c.(eta := Some(b.eta)), b, w)
    ensures c.acceptance.None? ==> ScoreOf(c, b, w) == ScoreOf(c.(acceptance := Some(0.5)), b, w)
    ensures c.completion.None? && c.cancellation.None? ==>
      ScoreOf(c, b, w) == ScoreOf(c.(completion := Some(0.5), cancellation := Some(0.0)), b, w)
    ensures c.completion.None? && c.cancellation.Some? ==> ScoreOf(c, b, w) == ScoreOf(c.(completion := Some(1.0)), b, w)
    ensures c.completion.Some? && c.cancellation.None? ==> ScoreOf(c, b, w) == ScoreOf(c.(cancellation := Some(0.0)), b, w)
  {
    UnknownsCountAs(c, b);
  }

  lemma AllOnes(w: Weights)
    ensures Weighted(Terms(1.0, 1.0, 1.0, 1.0, 1.0, 1.0), w)
            == (w.eta + w.distance + w.reliability + w.acceptance + w.idle + w.capability) as real == TotalWeight(w)
  {
  }

  lemma BestTerms(c: Candidate, b: Bounds)
    requires Positive(b) && c.distance == 0.0 && c.eta == Some(0.0) && c.idle == b.idle
    requires c.completion == Some(1.0) && c.cancellation == Some(0.0) && c.acceptance == Some(1.0) && c.exact
    ensures TermsOf(c, b) == Terms(1.0, 1.0, 1.0, 1.0, 1.0, 1.0)
  {
    ShareOfItself(b.idle);
  }

  /** The best anybody could be on every signal scores exactly one, whatever the weights, unless they come to
      nothing. */
  lemma BestScoresOne(cs: seq<Candidate>, w: Weights, i: nat)
    requires i < |cs| && cs[i].distance == 0.0 && cs[i].eta == Some(0.0) && cs[i].idle == Bound(cs, IdleSignal)
    requires cs[i].completion == Some(1.0) && cs[i].cancellation == Some(0.0) && cs[i].acceptance == Some(1.0) && cs[i].exact
    requires w.eta + w.distance + w.reliability + w.acceptance + w.idle + w.capability != 0
    ensures ScoreOf(cs[i], BoundsOf(cs), w) == 1.0
  {
    BestTerms(cs[i], BoundsOf(cs));
    AllOnes(w);
    ShareOfItself(TotalWeight(w));
  }

  // --- the order ------------------------------------------------------------------------------------------

  /** Higher scores first, and of equal ones the smaller driver identifier. */
  predicate Before(a: Scored, b: Scored) {
    a.score > b.score || (a.score == b.score && a.candidate.driver < b.candidate.driver)
  }

  predicate Ranked(ss: seq<Scored>) {
    forall i, j :: 0 <= i < j < |ss| ==> !Before(ss[j], ss[i])
  }

  predicate DistinctDrivers(ss: seq<Scored>) {
    forall i, j :: 0 <= i < j < |ss| ==> ss[i].candidate.driver != ss[j].candidate.driver
  }

  predicate DistinctCandidates(cs: seq<Candidate>) {
    forall i, j :: 0 <= i < j < |cs| ==> cs[i].driver != cs[j].driver
  }

  lemma FirstIsFirst(xs: seq<Scored>, ys: seq<Scored>)
    requires multiset(xs) == multiset(ys) && xs != [] && ys != []
    requires Ranked(xs) && Ranked(ys) && DistinctDrivers(xs)
    ensures xs[0] == ys[0]
  {
    assert xs[0] in multiset(ys) && ys[0] in multiset(xs);
    var j :| 0 <= j < |ys| && ys[j] == xs[0];
    var i :| 0 <= i < |xs| && xs[i] == ys[0];
    assert !Before(ys[0], xs[0]) && !Before(xs[0], ys[0]);
    assert xs[i].candidate.driver == xs[0].candidate.driver;
  }

  /** Where two rankings of the same drivers agree up to a position, they agree on what stands there. */
  lemma AgreeOneFurther(xs: seq<Scored>, ys: seq<Scored>, k: nat)
    requires multiset(xs) == multiset(ys) && Ranked(xs) && Ranked(ys) && DistinctDrivers(xs)
    requires k < |xs| == |ys| && xs[..k] == ys[..k]
    ensures xs[k] == ys[k]
  {
    assert xs[..k] + xs[k..] == xs && ys[..k] + ys[k..] == ys;
    assert multiset(xs[k..]) == multiset(xs) - multiset(xs[..k]);
    assert multiset(ys[k..]) == multiset(ys) - multiset(ys[..k]);
    FirstIsFirst(xs[k..], ys[k..]);
  }

  /** Whatever algorithm sorts them, distinct drivers have one ranking. */
  lemma RankingIsUnique(xs: seq<Scored>, ys: seq<Scored>)
    requires multiset(xs) == multiset(ys) && Ranked(xs) && Ranked(ys) && DistinctDrivers(xs)
    ensures xs == ys
  {
    SameLength(xs, ys);
    for k := 0 to |xs|
      invariant xs[..k] == ys[..k]
    {
      AgreeOneFurther(xs, ys, k);
    }
  }

  lemma SameLength(xs: seq<Scored>, ys: seq<Scored>)
    requires multiset(xs) == multiset(ys)
    ensures |xs| == |ys|
  {
    assert |multiset(xs)| == |multiset(ys)|;
  }

  // --- the same list for every input order ----------------------------------------------------------------

  lemma BoundIgnoresOrder(cs: seq<Candidate>, ds: seq<Candidate>, s: Signal)
    requires multiset(cs) == multiset(ds)
    ensures Bound(cs, s) == Bound(ds, s)
  {
    BoundAtMost(cs, ds, s);
    BoundAtMost(ds, cs, s);
  }

  lemma BoundAtMost(cs: seq<Candidate>, ds: seq<Candidate>, s: Signal)
    requires multiset(cs) == multiset(ds)
    ensures Bound(cs, s) <= Bound(ds, s)
  {
    if Bound(cs, s) != 1.0 {
      var i :| 0 <= i < |cs| && Reading(cs[i], s) == Bound(cs, s);
      assert cs[i] in multiset(ds);
      var j :| 0 <= j < |ds| && ds[j] == cs[i];
      assert Reading(ds[j], s) <= Bound(ds, s);
    }
  }

  lemma EachSplits(cs: seq<Candidate>, k: nat, b: Bounds, w: Weights)
    requires k < |cs| && Positive(b)
    ensures multiset(ScoreEach(cs, b, w)) ==
            multiset(ScoreEach(Removed(cs, k), b, w)) + multiset{Scored(cs[k], ScoreOf(cs[k], b, w))}
  {
    var x := Scored(cs[k], ScoreOf(cs[k], b, w));
    var front, back := ScoreEach(cs[..k], b, w), ScoreEach(cs[k + 1..], b, w);
    assert ScoreEach(cs, b, w) == front + [x] + back;
    assert ScoreEach(Removed(cs, k), b, w) == front + back;
  }

  lemma RemovedEverywhere(cs: seq<Candidate>, k: nat)
    requires k < |cs|
    ensures multiset(Removed(cs, k)) == multiset(cs) - multiset{cs[k]}
  {
    assert cs == cs[..k] + [cs[k]] + cs[k + 1..];
  }

  function Removed(cs: seq<Candidate>, k: nat): seq<Candidate>
    requires k < |cs|
  {
    cs[..k] + cs[k + 1..]
  }

  lemma FoundAgain(cs: seq<Candidate>, ds: seq<Candidate>) returns (j: nat)
    requires multiset(cs) == multiset(ds) && cs != []
    ensures j < |ds| && ds[j] == cs[0] && multiset(Removed(cs, 0)) == multiset(Removed(ds, j))
  {
    assert cs[0] in multiset(ds);
    var i :| 0 <= i < |ds| && ds[i] == cs[0];
    j := i;
    RemovedEverywhere(cs, 0);
    RemovedEverywhere(ds, j);
  }

  lemma {:induction false} ScoringIgnoresOrder(cs: seq<Candidate>, ds: seq<Candidate>, b: Bounds, w: Weights)
    requires multiset(cs) == multiset(ds) && Positive(b)
    ensures multiset(ScoreEach(cs, b, w)) == multiset(ScoreEach(ds, b, w))
    decreases |cs|
  {
    if cs != [] {
      var j := FoundAgain(cs, ds);
      EachSplits(cs, 0, b, w);
      EachSplits(ds, j, b, w);
      ScoringIgnoresOrder(Removed(cs, 0), Removed(ds, j), b, w);
    } else {
      assert |multiset(ds)| == 0;
    }
  }

  /** A ranking of these candidates: each scored once, best first. */
  predicate RankingOf(ss: seq<Scored>, cs: seq<Candidate>, w: Weights) {
    multiset(ss) == multiset(ScoreEach(cs, BoundsOf(cs), w)) && Ranked(ss)
  }

  lemma {:induction false} DistinctFromCandidates(ss: seq<Scored>, cs: seq<Candidate>, w: Weights, b: Bounds)
    requires Positive(b) && multiset(ss) == multiset(ScoreEach(cs, b, w)) && DistinctCandidates(cs)
    ensures DistinctDrivers(ss)
  {
    var each := ScoreEach(cs, b, w);
    forall i, j | 0 <= i < j < |ss| ensures ss[i].candidate.driver != ss[j].candidate.driver {
      if ss[i].candidate.driver == ss[j].candidate.driver {
        assert ss[i] in multiset(each) && ss[j] in multiset(each);
        var k :| 0 <= k < |each| && each[k] == ss[i];
        var l :| 0 <= l < |each| && each[l] == ss[j];
        assert k == l;
        TwiceIn(ss, i, j);
        OnceIn(cs, b, w, k);
        assert false;
      }
    }
  }

  lemma TwiceIn(ss: seq<Scored>, i: nat, j: nat)
    requires i < j < |ss| && ss[i] == ss[j]
    ensures multiset(ss)[ss[i]] >= 2
  {
    assert ss == ss[..j] + [ss[j]] + ss[j + 1..];
    assert ss[i] in ss[..j];
    assert multiset(ss) == multiset(ss[..j]) + multiset{ss[j]} + multiset(ss[j + 1..]);
  }

  lemma OnceIn(cs: seq<Candidate>, b: Bounds, w: Weights, k: nat)
    requires Positive(b) && k < |cs| && DistinctCandidates(cs)
    ensures multiset(ScoreEach(cs, b, w))[ScoreEach(cs, b, w)[k]] == 1
  {
    var each := ScoreEach(cs, b, w);
    var x := each[k];
    assert each == each[..k] + [x] + each[k + 1..];
    assert x !in each[..k] && x !in each[k + 1..];
    assert multiset(each) == multiset(each[..k]) + multiset{x} + multiset(each[k + 1..]);
  }

  /** The same candidates in any order give the very same list. */
  lemma RankingIgnoresInputOrder(xs: seq<Scored>, cs: seq<Candidate>, ys: seq<Scored>, ds: seq<Candidate>, w: Weights)
    requires multiset(cs) == multiset(ds) && DistinctCandidates(cs)
    requires RankingOf(xs, cs, w) && RankingOf(ys, ds, w)
    ensures xs == ys
  {
    BoundIgnoresOrder(cs, ds, EtaSignal);
    BoundIgnoresOrder(cs, ds, DistanceSignal);
    BoundIgnoresOrder(cs, ds, IdleSignal);
    ScoringIgnoresOrder(cs, ds, BoundsOf(cs), w);
    DistinctFromCandidates(xs, cs, w, BoundsOf(cs));
    RankingIsUnique(xs, ys);
  }

  // --- the computation --------------------------------------------------------------------------------------

  /** The bounds come from the candidates themselves, so a ring where everyone is far still ranks. */
  method Normalise(cs: seq<Candidate>) returns (b: Bounds)
    ensures b == BoundsOf(cs)
  {
    var maxEta, maxDistance, maxIdle := 1.0, 1.0, 1.0;
    for i := 0 to |cs|
      invariant maxEta == Bound(cs[..i], EtaSignal)
      invariant maxDistance == Bound(cs[..i], DistanceSignal)
      invariant maxIdle == Bound(cs[..i], IdleSignal)
    {
      assert cs[..i + 1][..i] == cs[..i];
      if cs[i].eta.Some? && cs[i].eta.value > maxEta {
        maxEta := cs[i].eta.value;
      }
      if cs[i].distance > maxDistance {
        maxDistance := cs[i].distance;
      }
      if cs[i].idle > maxIdle {
        maxIdle := cs[i].idle;
      }
    }
    assert cs[..|cs|] == cs;
    b := Bounds(maxEta, maxDistance, maxIdle);
  }

  lemma EachAppends(cs: seq<Candidate>, i: nat, b: Bounds, w: Weights)
    requires i < |cs| && Positive(b)
    ensures ScoreEach(cs[..i + 1], b, w) == ScoreEach(cs[..i], b, w) + [Scored(cs[i], ScoreOf(cs[i], b, w))]
  {
  }

  /** Ranks candidates, best first. */
  method Score(cs: seq<Candidate>, w: Weights) returns (out: seq<Scored>)
    ensures RankingOf(out, cs, w)
  {
    var bounds := Normalise(cs);
    out := [];
    for i := 0 to |cs|
      invariant multiset(out) == multiset(ScoreEach(cs[..i], bounds, w))
      invariant Ranked(out)
    {
      EachAppends(cs, i, bounds, w);
      var score := ScoreOf(cs[i], bounds, w);
      out := Insert(out, Scored(cs[i], score));
    }
    assert cs[..|cs|] == cs;
  }

  /** Keeps a ranking ranked; the library's sort may do it any other way. */
  method Insert(ss: seq<Scored>, x: Scored) returns (r: seq<Scored>)
    requires Ranked(ss)
    ensures Ranked(r) && multiset(r) == multiset(ss) + multiset{x}
  {
    var k := |ss|;
    while k > 0 && Before(x, ss[k - 1])
      invariant 0 <= k <= |ss|
      invariant forall i :: k <= i < |ss| ==> Before(x, ss[i])
    {
      k := k - 1;
    }
    r := ss[..k] + [x] + ss[k..];
    assert ss == ss[..k] + ss[k..];
    forall i | 0 <= i < k ensures !Before(x, ss[i]) {
    }
  }
}
