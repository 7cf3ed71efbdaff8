/** Sessions, their refresh tokens, and the refreshes in flight. A request reads and writes the store several
    times, and anything may happen between two of those.

    A token is its number in the order tokens were minted; equal tokens have equal hashes and no others do. */
module Sessions {
  import opened Common

  type Token = nat
  type User = nat
  type Time = int

  datatype Session = Session(user: User, current: Token, expires: Time, revoked: bool)
  datatype Owner = Owner(session: nat, user: User)

  /** One rotation that committed: which request exchanged which token for which. */
  datatype Exchange = Exchange(request: nat, given: Token, minted: Token, session: nat)

  datatype Outcome =
    | Granted(token: Token)
    | Inactive                        // the session was revoked or had expired
    | Stopped(user: User, upTo: nat)  // reuse: the user's sessions, those with numbers below upTo, were ended
    | Unknown                         // never issued, as far as the store can tell
    | Forbidden
    | Abandoned

  datatype Phase =
    | Looking
    | Rotating(session: nat, user: User)
    | Losing(user: User)
    | Suspecting
    | Alarming(user: User)
    | Granting(session: nat, minted: Token)
    | Closing(session: nat)
    | Done(outcome: Outcome)

  /** A refresh in flight. The last two fields only record what was true when it arrived. */
  datatype Request = Request(token: Token, phase: Phase, wasIssued: bool, sessionsThen: nat)

  datatype Db = Db(
    sessions: seq<Session>,
    retired: map<Token, Owner>,
    next: Token,            // every token below it has been minted
    exchanges: seq<Exchange>,
    requests: seq<Request>)

  const EMPTY := Db([], map[], 0, [], [])

  predicate IsActive(s: Session, clock: Time) {
    !s.revoked && clock < s.expires
  }

  function RevokedFor(sessions: seq<Session>, user: User): (r: seq<Session>)
    ensures |r| == |sessions|
  {
    seq(|sessions|, i requires 0 <= i < |sessions| =>
      if sessions[i].user == user then sessions[i].(revoked := true) else sessions[i])
  }

  function FindCurrent(sessions: seq<Session>, t: Token): (s: Option<nat>)
    ensures s.Some? ==> s.value < |sessions| && sessions[s.value].current == t
    ensures s.None? ==> forall i :: 0 <= i < |sessions| ==> sessions[i].current != t
  {
    if sessions == [] then None
    else if sessions[|sessions| - 1].current == t then Some(|sessions| - 1)
    else FindCurrent(sessions[..|sessions| - 1], t)
  }

  // --- the store's own steps ------------------------------------------------------------------------

  function CreateSession(db: Db, user: User, expires: Time): Db {
    db.(sessions := db.sessions + [Session(user, db.next, expires, false)], next := db.next + 1)
  }

  /** The swap is conditional on the old token still being current and the session still live. */
  predicate MayRotate(db: Db, s: nat, t: Token) {
    s < |db.sessions| && db.sessions[s].current == t && !db.sessions[s].revoked
  }

  function Rotate(db: Db, s: nat, user: User, t: Token, expires: Time): Db
    requires MayRotate(db, s, t)
  {
    db.(sessions := db.sessions[s := db.sessions[s].(current := db.next, expires := expires)],
        retired := if t in db.retired then db.retired else db.retired[t := Owner(s, user)],
        next := db.next + 1)
  }

  function RevokeSession(db: Db, s: nat): Db {
    if s < |db.sessions| then db.(sessions := db.sessions[s := db.sessions[s].(revoked := true)]) else db
  }

  function RevokeUser(db: Db, user: User): Db {
    db.(sessions := RevokedFor(db.sessions, user))
  }

  // --- a request's next move ------------------------------------------------------------------------

  function Begin(db: Db, t: Token): Db {
    db.(requests := db.requests + [Request(t, Looking, t < db.next, |db.sessions|)])
  }

  function At(db: Db, r: nat, phase: Phase): Db {
    if r < |db.requests| then db.(requests := db.requests[r := db.requests[r].(phase := phase)]) else db
  }

  /** The swap and the record of who made it commit together. */
  function Swapped(db: Db, r: nat, s: nat, user: User, t: Token, expires: Time): Db
    requires MayRotate(db, s, t)
  {
    Rotate(db, s, user, t, expires).(exchanges := db.exchanges + [Exchange(r, t, db.next, s)])
  }

  /** What a request does to the store's rows on its next move. */
  function Effect(db: Db, r: nat, expires: Time): Db
    requires r < |db.requests|
  {
    var q := db.requests[r];
    match q.phase
    case Rotating(s, user) => if MayRotate(db, s, q.token) then Swapped(db, r, s, user, q.token, expires) else db
    case Losing(user) => RevokeUser(db, user)
    case Alarming(user) => RevokeUser(db, user)
    case Closing(s) => RevokeSession(db, s)
    case _ => db
  }

  /** Where the request then stands. */
  function NextPhase(db: Db, q: Request, clock: Time, accountActive: bool): Phase {
    match q.phase
    case Looking =>
      (match FindCurrent(db.sessions, q.token)
       case None => Suspecting
       case Some(s) =>
         if IsActive(db.sessions[s], clock) then Rotating(s, db.sessions[s].user) else Done(Inactive))
    case Rotating(s, user) => if MayRotate(db, s, q.token) then Granting(s, db.next) else Losing(user)
    case Losing(user) => Done(Stopped(user, |db.sessions|))
    case Suspecting => if q.token in db.retired then Alarming(db.retired[q.token].user) else Done(Unknown)
    case Alarming(user) => Done(Stopped(user, |db.sessions|))
    case Granting(s, minted) => if accountActive then Done(Granted(minted)) else Closing(s)
    case Closing(_) => Done(Forbidden)
    case Done(o) => Done(o)
  }

  function Advance(db: Db, r: nat, clock: Time, ttl: Time, accountActive: bool): Db
    requires r < |db.requests|
  {
    At(Effect(db, r, clock + ttl), r, NextPhase(db, db.requests[r], clock, accountActive))
  }

  datatype Step =
    | Login(user: User, expires: Time)
    | Arrive(token: Token)
    | Move(request: nat, clock: Time, ttl: Time, accountActive: bool)
    | Drop(request: nat)          // the store or the process failed: the request answers an error
    | Logout(session: nat)
    | LogoutAll(user: User)

  function Apply(db: Db, s: Step): Db {
    match s
    case Login(user, expires) => CreateSession(db, user, expires)
    case Arrive(t) => Begin(db, t)
    case Move(r, clock, ttl, ok) => if r < |db.requests| then Advance(db, r, clock, ttl, ok) else db
    case Drop(r) => if r < |db.requests| && !db.requests[r].phase.Done? then At(db, r, Done(Abandoned)) else db
    case Logout(s) => RevokeSession(db, s)
    case LogoutAll(user) => RevokeUser(db, user)
  }

  function Run(db: Db, steps: seq<Step>): Db
    decreases |steps|
  {
    if steps == [] then db else Run(Apply(db, steps[0]), steps[1..])
  }
}
