/** What refresh-token rotation guarantees whatever requests overlap. */
module SessionSafety {
  import opened Common
  import opened Sessions
  import opened SessionInvariant

  lemma Reached(steps: seq<Step>)
    ensures Sound(Run(EMPTY, steps))
  {
    RunKeeps(EMPTY, steps);
  }

  predicate HoldsToken(db: Db, s: int, t: Token) {
    0 <= s < |db.sessions| && db.sessions[s].current == t
  }

  /** Every token ever minted is the current token of exactly one session, or retired; never both. */
  lemma EveryTokenHasOnePlace(steps: seq<Step>, t: Token)
    requires t < Run(EMPTY, steps).next
    ensures var db := Run(EMPTY, steps);
            && (t in db.retired <==> !IsCurrent(db, t))
            && (forall s, u :: HoldsToken(db, s, t) && HoldsToken(db, u, t) ==> s == u)
            && (t in db.retired <==> Exchanged(db, t))
  {
    Reached(steps);
    var db := Run(EMPTY, steps);
    forall s, u | HoldsToken(db, s, t) && HoldsToken(db, u, t) ensures s == u {
      if s < u || u < s {
        assert false;
      }
    }
  }

  /** However many requests carry one token, at most one of them is granted a new one. */
  lemma TokenIsExchangedOnce(steps: seq<Step>, r: nat, q: nat)
    requires r < |Run(EMPTY, steps).requests| && q < |Run(EMPTY, steps).requests|
    requires var db := Run(EMPTY, steps);
             && db.requests[r].token == db.requests[q].token
             && db.requests[r].phase.Done? && db.requests[r].phase.outcome.Granted?
             && db.requests[q].phase.Done? && db.requests[q].phase.outcome.Granted?
    ensures r == q
  {
    Reached(steps);
    var db := Run(EMPTY, steps);
    assert RequestSound(db, r) && RequestSound(db, q);
    var t := db.requests[r].token;
    var k :| 0 <= k < |db.exchanges| && IsExchange(db.exchanges[k], r, t, db.requests[r].phase.outcome.token);
    var m :| 0 <= m < |db.exchanges| && IsExchange(db.exchanges[m], q, t, db.requests[q].phase.outcome.token);
    if k < m || m < k {
      assert false;
    }
  }

  /** A revoked session is never rotated and never revived. */
  lemma RevokedIsForEver(before: seq<Step>, steps: seq<Step>, s: nat)
    requires s < |Run(EMPTY, before).sessions| && Run(EMPTY, before).sessions[s].revoked
    ensures var db, after := Run(EMPTY, before), Run(Run(EMPTY, before), steps);
            s < |after.sessions| && after.sessions[s].revoked && after.sessions[s].current == db.sessions[s].current
  {
    Reached(before);
    RunKeeps(Run(EMPTY, before), steps);
    assert Follows(Run(Run(EMPTY, before), steps).sessions[s], Run(EMPTY, before).sessions[s]);
  }

  // --- expiry -----------------------------------------------------------------------------------------

  /** A session whose current token this is, neither revoked nor past its expiry. */
  predicate LiveToken(sessions: seq<Session>, s: int, t: Token, clock: Time) {
    0 <= s < |sessions| && sessions[s].current == t && !sessions[s].revoked && clock < sessions[s].expires
  }

  predicate IsLive(sessions: seq<Session>, t: Token, clock: Time) {
    exists s :: 0 <= s < |sessions| && LiveToken(sessions, s, t, clock)
  }

  lemma FoundIsHolder(db: Db, s: nat, t: Token)
    requires TokensPlaced(db) && HoldsToken(db, s, t)
    ensures FindCurrent(db.sessions, t) == Some(s)
  {
  }

  /** The lookup finds the one session that holds the token. */
  lemma LookupTells(db: Db, t: Token, clock: Time)
    requires TokensPlaced(db)
    ensures IsCurrent(db, t) <==> FindCurrent(db.sessions, t).Some?
    ensures IsLive(db.sessions, t, clock) <==>
      FindCurrent(db.sessions, t).Some? && LiveToken(db.sessions, FindCurrent(db.sessions, t).value, t, clock)
  {
    if s :| 0 <= s < |db.sessions| && LiveToken(db.sessions, s, t, clock) {
      FoundIsHolder(db, s, t);
    }
  }

  /** No grant lies ahead of a request in one of these phases. */
  predicate Refused(p: Phase) {
    match p
    case Suspecting => true
    case Alarming(_) => true
    case Done(o) => !o.Granted?
    case _ => false
  }

  lemma {:induction false} RefusedForGood(db: Db, steps: seq<Step>, r: nat)
    requires r < |db.requests| && Refused(db.requests[r].phase)
    ensures r < |Run(db, steps).requests| && Refused(Run(db, steps).requests[r].phase)
    ensures db.requests[r].phase.Done? ==> Run(db, steps).requests[r].phase == db.requests[r].phase
    decreases |steps|
  {
    if steps != [] {
      StepKeepsRefused(db, steps[0], r);
      RefusedForGood(Apply(db, steps[0]), steps[1..], r);
    }
  }

  lemma StepKeepsRefused(db: Db, s: Step, r: nat)
    requires r < |db.requests| && Refused(db.requests[r].phase)
    ensures r < |Apply(db, s).requests| && Refused(Apply(db, s).requests[r].phase)
    ensures db.requests[r].phase.Done? ==> Apply(db, s).requests[r].phase == db.requests[r].phase
  {
  }

  /** A request goes on to the swap if and only if, at the moment it looks, its token is the current one of a
      session neither revoked nor expired. If that session is revoked or expired it ends as inactive for
      good, whatever follows; and in no other case is it ever granted a token. */
  lemma GrantedOnlyIfLiveWhenLookedUp(db: Db, r: nat, clock: Time, ttl: Time, ok: bool, steps: seq<Step>)
    requires Sound(db) && r < |db.requests| && db.requests[r].phase == Looking
    ensures var t := db.requests[r].token;
            var looked, after := Apply(db, Move(r, clock, ttl, ok)), Run(Apply(db, Move(r, clock, ttl, ok)), steps);
            && r < |looked.requests| && r < |after.requests|
            && looked.sessions == db.sessions && looked.retired == db.retired
            && (looked.requests[r].phase.Rotating? <==> IsLive(db.sessions, t, clock))
            && (!IsLive(db.sessions, t, clock) && IsCurrent(db, t) ==> after.requests[r].phase == Done(Inactive))
            && (!IsLive(db.sessions, t, clock) ==> Refused(after.requests[r].phase))
  {
    var t := db.requests[r].token;
    var looked := Apply(db, Move(r, clock, ttl, ok));
    LookupTells(db, t, clock);
    if !IsLive(db.sessions, t, clock) {
      RefusedForGood(looked, steps, r);
    }
    RunKeepsRequests(looked, steps, r);
  }

  lemma {:induction false} RunKeepsRequests(db: Db, steps: seq<Step>, r: nat)
    requires r < |db.requests|
    ensures r < |Run(db, steps).requests|
    decreases |steps|
  {
    if steps != [] {
      RunKeepsRequests(Apply(db, steps[0]), steps[1..], r);
    }
  }

  /** The swap renews the session for its time to live, puts the new token in the old one's place, and
      touches no other session. */
  lemma SwapRenews(db: Db, r: nat, clock: Time, ttl: Time, ok: bool)
    requires r < |db.requests| && db.requests[r].phase.Rotating?
    requires MayRotate(db, db.requests[r].phase.session, db.requests[r].token)
    ensures var s, t, after := db.requests[r].phase.session, db.requests[r].token, Apply(db, Move(r, clock, ttl, ok));
            && after.sessions == db.sessions[s := db.sessions[s].(current := db.next, expires := clock + ttl)]
            && after.next == db.next + 1 && t in after.retired
            && after.requests[r].phase == Granting(s, db.next)
  {
  }

  // --- replays ----------------------------------------------------------------------------------------

  /** A request carrying a retired token is somewhere on the way to ending its user's sessions. */
  predicate Caught(db: Db, r: nat, user: User)
    requires r < |db.requests|
  {
    var q := db.requests[r];
    && q.token in db.retired && db.retired[q.token].user == user
    && match q.phase
       case Looking => true
       case Suspecting => true
       case Alarming(u) => u == user
       case Done(Stopped(u, _)) => u == user
       case Done(Abandoned) => true
       case _ => false
  }

  lemma RetiredIsNotFound(db: Db, t: Token)
    requires TokensPlaced(db) && t in db.retired
    ensures FindCurrent(db.sessions, t).None?
  {
  }

  lemma StepKeepsCaught(db: Db, s: Step, r: nat, user: User)
    requires Sound(db) && r < |db.requests| && Caught(db, r, user)
    ensures r < |Apply(db, s).requests| && Caught(Apply(db, s), r, user)
  {
    StepExtends(db, s);
    RetiredIsNotFound(db, db.requests[r].token);
    if !Touches(s, r) {
      OthersUnmoved(db, s, r);
    }
  }

  lemma {:induction false} RunKeepsCaught(db: Db, steps: seq<Step>, r: nat, user: User)
    requires Sound(db) && r < |db.requests| && Caught(db, r, user)
    ensures r < |Run(db, steps).requests| && Caught(Run(db, steps), r, user)
    decreases |steps|
  {
    if steps != [] {
      StepKeepsCaught(db, steps[0], r, user);
      StepKeeps(db, steps[0]);
      RunKeepsCaught(Apply(db, steps[0]), steps[1..], r, user);
    }
  }

  /** Presenting a retired token: unless the request itself is cut off, it can only end with reuse found,
      and then every session its user had when it arrived is revoked, for good. */
  lemma ReplayEndsEverySession(before: seq<Step>, t: Token, steps: seq<Step>)
    requires t in Run(EMPTY, before).retired
    ensures var db := Run(EMPTY, before);
            var r, user := |db.requests|, db.retired[t].user;
            var after := Run(Begin(db, t), steps);
            && r < |after.requests|
            && (after.requests[r].phase.Done? ==>
                  after.requests[r].phase.outcome.Abandoned?
                  || (after.requests[r].phase.outcome.Stopped? && UserEndedUpTo(after, user, |db.sessions|)))
  {
    var db := Run(EMPTY, before);
    var r, user := |db.requests|, db.retired[t].user;
    Reached(before);
    StepKeeps(db, Arrive(t));
    RunKeepsCaught(Begin(db, t), steps, r, user);
    RunKeeps(Begin(db, t), steps);
    var after := Run(Begin(db, t), steps);
    assert SameRequest(after.requests[r], Begin(db, t).requests[r]);
    assert RequestSound(after, r);
  }

  /** A token that was ever issued is never mistaken for a made-up one. */
  lemma IssuedIsNeverUnknown(steps: seq<Step>, r: nat)
    requires r < |Run(EMPTY, steps).requests| && Run(EMPTY, steps).requests[r].phase == Done(Unknown)
    ensures !Run(EMPTY, steps).requests[r].wasIssued
  {
    Reached(steps);
    assert RequestSound(Run(EMPTY, steps), r);
  }

  // --- what counts as reuse ---------------------------------------------------------------------------

  /** A swap is lost exactly when the token was exchanged meanwhile or the session was ended meanwhile. */
  lemma SwapLostExactlyWhen(steps: seq<Step>, r: nat, clock: Time, ttl: Time, ok: bool)
    requires r < |Run(EMPTY, steps).requests| && Run(EMPTY, steps).requests[r].phase.Rotating?
    ensures var db := Run(EMPTY, steps); var q := db.requests[r];
            && q.phase.session < |db.sessions|
            && (Advance(db, r, clock, ttl, ok).requests[r].phase.Losing? <==>
                q.token in db.retired || db.sessions[q.phase.session].revoked)
            && (Advance(db, r, clock, ttl, ok).requests[r].phase.Losing? ==>
                Advance(db, r, clock, ttl, ok).requests[r].phase.user == db.sessions[q.phase.session].user)
  {
    Reached(steps);
    var db := Run(EMPTY, steps);
    assert RequestSound(db, r);
  }

  /** One user signed in on two devices, one of which is about to swap its token. */
  const ABOUT_TO_SWAP: seq<Step> := [Login(7, 100), Login(7, 100), Arrive(0), Move(0, 0, 50, true)]

  const LOGOUT_FIRST: seq<Step> := [Logout(0), Move(0, 0, 50, true), Move(0, 0, 50, true)]

  /** So a lost swap is not always reuse: logging out of one device while it refreshes ends the user's other
      session too, though no token was ever presented twice, or even exchanged. */
  lemma LogoutDuringRefreshEndsOtherSessions()
    ensures var db := Run(Run(EMPTY, ABOUT_TO_SWAP), LOGOUT_FIRST);
            && |db.sessions| == 2 && db.sessions[1].user == 7 && db.sessions[1].revoked
            && db.exchanges == [] && db.retired == map[] && |db.requests| == 1
  {
  }

  // --- every request ends -----------------------------------------------------------------------------

  function Rank(p: Phase): nat {
    match p
    case Looking => 4
    case Rotating(_, _) => 3
    case Suspecting => 2
    case Granting(_, _) => 2
    case Losing(_) => 1
    case Alarming(_) => 1
    case Closing(_) => 1
    case Done(_) => 0
  }

  function OwnMoves(steps: seq<Step>, r: nat): nat {
    if steps == [] then 0 else (if steps[0].Move? && steps[0].request == r then 1 else 0) + OwnMoves(steps[1..], r)
  }

  /** Four moves of its own finish a request, whatever happens between them. */
  lemma {:induction false} FourMovesFinish(db: Db, r: nat, steps: seq<Step>)
    requires Sound(db) && r < |db.requests|
    ensures r < |Run(db, steps).requests|
    ensures Rank(Run(db, steps).requests[r].phase) <=
            if OwnMoves(steps, r) >= Rank(db.requests[r].phase) then 0
            else Rank(db.requests[r].phase) - OwnMoves(steps, r)
    ensures OwnMoves(steps, r) >= 4 ==> Run(db, steps).requests[r].phase.Done?
    decreases |steps|
  {
    if steps != [] {
      var next := Apply(db, steps[0]);
      StepKeeps(db, steps[0]);
      MoveLowersRank(db, steps[0], r);
      FourMovesFinish(next, r, steps[1..]);
    }
  }

  lemma MoveLowersRank(db: Db, s: Step, r: nat)
    requires r < |db.requests|
    ensures r < |Apply(db, s).requests|
    ensures Rank(Apply(db, s).requests[r].phase) <= Rank(db.requests[r].phase)
    ensures s.Move? && s.request == r && Rank(db.requests[r].phase) > 0 ==>
              Rank(Apply(db, s).requests[r].phase) < Rank(db.requests[r].phase)
  {
  }
}
