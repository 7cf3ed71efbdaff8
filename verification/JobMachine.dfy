/** The job lifecycle: the transition table, the walks it permits, and the straight line a driver
    command advances along. */
module JobMachine {

  datatype JobStatus =
    | Draft | Quoted | Requested | Searching | Assigned
    | Accepted | Arriving | AtPickup | InProgress | AtDropoff | Completed
    | Cancelled | Failed | Expired | Disputed

  function Next(from: JobStatus): set<JobStatus> {
    match from
    case Draft => {Quoted, Requested, Cancelled, Expired}
    case Quoted => {Requested, Cancelled, Expired}
    case Requested => {Searching, Cancelled, Expired, Failed}
    case Searching => {Assigned, Cancelled, Expired, Failed}
    case Assigned => {Accepted, Searching, Cancelled, Expired, Failed}
    case Accepted => {Arriving, Searching, Cancelled, Failed}
    case Arriving => {AtPickup, Cancelled, Failed}
    case AtPickup => {InProgress, Cancelled, Failed}
    case InProgress => {AtDropoff, Failed}
    case AtDropoff => {Completed, Failed}
    case Completed => {Disputed}
    case _ => {}
  }

  predicate Edge(from: JobStatus, to: JobStatus) {
    to in Next(from)
  }

  predicate Terminal(s: JobStatus) {
    s in {Cancelled, Failed, Expired, Disputed}
  }

  /** A status a job can only have before a driver has accepted it. */
  predicate Open(s: JobStatus) {
    s in {Draft, Quoted, Requested, Searching, Assigned}
  }

  /** A status a job can only have while, or just after, a driver carries it. */
  predicate Held(s: JobStatus) {
    s in {Accepted, Arriving, AtPickup, InProgress, AtDropoff, Completed}
  }

  // --- walks ------------------------------------------------------------------

  /** A non-empty sequence of statuses, each one edge from the last. */
  predicate Walk(w: seq<JobStatus>) {
    && |w| > 0
    && forall i :: 0 <= i < |w| - 1 ==> Edge(w[i], w[i + 1])
  }

  ghost predicate Reaches(from: JobStatus, to: JobStatus) {
    exists w: seq<JobStatus> :: Walk(w) && w[0] == from && w[|w| - 1] == to
  }

  lemma ReachesSelf(s: JobStatus)
    ensures Reaches(s, s)
  {
    assert Walk([s]);
  }

  lemma ReachesByEdge(from: JobStatus, to: JobStatus)
    requires Edge(from, to)
    ensures Reaches(from, to)
  {
    var w := [from, to];
    assert Walk(w) && w[0] == from && w[|w| - 1] == to;
  }

  lemma ReachesTransitively(a: JobStatus, b: JobStatus, c: JobStatus)
    requires Reaches(a, b) && Reaches(b, c)
    ensures Reaches(a, c)
  {
    var v :| Walk(v) && v[0] == a && v[|v| - 1] == b;
    var w :| Walk(w) && w[0] == b && w[|w| - 1] == c;
    var joined := v + w[1..];
    forall i | 0 <= i < |joined| - 1 ensures Edge(joined[i], joined[i + 1]) {
      if i >= |v| - 1 {
        assert joined[i] == w[i - (|v| - 1)];
        assert joined[i + 1] == w[i + 1 - (|v| - 1)];
      }
    }
    assert Walk(joined) && joined[0] == a && joined[|joined| - 1] == c;
  }

  lemma TerminalReachesOnlyItself(from: JobStatus, to: JobStatus)
    requires Terminal(from) && Reaches(from, to)
    ensures to == from
  {
    var w :| Walk(w) && w[0] == from && w[|w| - 1] == to;
    assert |w| > 1 ==> w[1] in Next(w[0]);
  }

  // --- the main flow ----------------------------------------------------------

  const MAIN_FLOW: seq<JobStatus> := [
    Draft, Quoted, Requested, Searching, Assigned, Accepted,
    Arriving, AtPickup, InProgress, AtDropoff, Completed
  ]

  /** Position on the main flow, or -1 off it. */
  function FlowIndex(s: JobStatus): int {
    match s
    case Draft => 0 case Quoted => 1 case Requested => 2 case Searching => 3 case Assigned => 4
    case Accepted => 5 case Arriving => 6 case AtPickup => 7 case InProgress => 8
    case AtDropoff => 9 case Completed => 10
    case _ => -1
  }

  lemma FlowIndexFinds(s: JobStatus)
    ensures FlowIndex(s) >= 0 ==> FlowIndex(s) < |MAIN_FLOW| && MAIN_FLOW[FlowIndex(s)] == s
  {
  }

  /** The main flow is a walk: a command that follows it never asks for a move the machine refuses. */
  lemma FlowIsEdges(i: nat)
    requires i + 1 < |MAIN_FLOW|
    ensures Edge(MAIN_FLOW[i], MAIN_FLOW[i + 1])
  {
  }
}
