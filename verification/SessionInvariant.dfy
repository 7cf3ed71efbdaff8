/** What every step of every interleaving keeps about tokens, sessions and the requests in flight. */
module SessionInvariant {
  import opened Common
  import opened Sessions

  // --- tokens -----------------------------------------------------------------------------------------

  predicate IsCurrent(db: Db, t: Token) {
    exists s :: 0 <= s < |db.sessions| && db.sessions[s].current == t
  }

  predicate TokensPlaced(db: Db) {
    && (forall s :: 0 <= s < |db.sessions| ==> db.sessions[s].current < db.next && db.sessions[s].current !in db.retired)
    && (forall s, u :: 0 <= s < u < |db.sessions| ==> db.sessions[s].current != db.sessions[u].current)
    && (forall t :: t in db.retired ==>
          && t < db.next && db.retired[t].session < |db.sessions|
          && db.sessions[db.retired[t].session].user == db.retired[t].user)
    && (forall t :: 0 <= t < db.next ==> t in db.retired || IsCurrent(db, t))
  }

  predicate ExchangesRecorded(db: Db) {
    && (forall k :: 0 <= k < |db.exchanges| ==>
          && db.exchanges[k].given in db.retired
          && db.exchanges[k].session == db.retired[db.exchanges[k].given].session)
    && (forall k, m :: 0 <= k < m < |db.exchanges| ==> db.exchanges[k].given != db.exchanges[m].given)
    && (forall t :: t in db.retired ==> Exchanged(db, t))
  }

  predicate Exchanged(db: Db, t: Token) {
    exists k :: 0 <= k < |db.exchanges| && db.exchanges[k].given == t
  }

  // --- requests -----------------------------------------------------------------------------------------

  predicate UserEndedUpTo(db: Db, user: User, n: nat) {
    n <= |db.sessions| && forall s :: 0 <= s < n && db.sessions[s].user == user ==> db.sessions[s].revoked
  }

  /** Request `r` is the one that exchanged its token, for `minted`. */
  predicate Won(db: Db, r: nat, minted: Token)
    requires r < |db.requests|
  {
    exists k :: 0 <= k < |db.exchanges| && IsExchange(db.exchanges[k], r, db.requests[r].token, minted)
  }

  predicate IsExchange(x: Exchange, r: nat, given: Token, minted: Token) {
    x.request == r && x.given == given && x.minted == minted
  }

  predicate WonSome(db: Db, r: nat)
    requires r < |db.requests|
  {
    exists k :: 0 <= k < |db.exchanges| && db.exchanges[k].request == r && db.exchanges[k].given == db.requests[r].token
  }

  predicate RequestSound(db: Db, r: nat)
    requires r < |db.requests|
  {
    var q := db.requests[r];
    && q.sessionsThen <= |db.sessions|
    && (q.wasIssued ==> q.token < db.next)
    && match q.phase
       case Looking => true
       case Rotating(s, user) =>
         && s < |db.sessions| && db.sessions[s].user == user && q.token < db.next
         && (db.sessions[s].current == q.token || (q.token in db.retired && db.retired[q.token].session == s))
       case Losing(user) => q.token < db.next
       case Suspecting => q.wasIssued ==> q.token in db.retired
       case Alarming(user) => q.token in db.retired && db.retired[q.token].user == user
       case Granting(s, minted) => Won(db, r, minted) && s < |db.sessions|
       case Closing(s) => WonSome(db, r) && s < |db.sessions|
       case Done(Granted(minted)) => Won(db, r, minted)
       case Done(Stopped(user, n)) => UserEndedUpTo(db, user, n) && q.sessionsThen <= n
       case Done(Unknown) => !q.wasIssued
       case Done(Forbidden) => WonSome(db, r)
       case Done(_) => true
  }

  predicate Sound(db: Db) {
    && TokensPlaced(db)
    && ExchangesRecorded(db)
    && forall r :: 0 <= r < |db.requests| ==> RequestSound(db, r)
  }

  // --- what never goes back -----------------------------------------------------------------------------

  /** A session keeps its user; once revoked it stays revoked, with the token it had. */
  predicate Follows(after: Session, before: Session) {
    && after.user == before.user
    && (before.revoked ==> after.revoked && after.current == before.current)
  }

  predicate Extends(after: Db, before: Db) {
    && |before.sessions| <= |after.sessions| && before.next <= after.next
    && (forall s :: 0 <= s < |before.sessions| ==> Follows(after.sessions[s], before.sessions[s]))
    && (forall t :: t in before.retired ==> t in after.retired && after.retired[t] == before.retired[t])
    && before.exchanges <= after.exchanges
    && |before.requests| <= |after.requests|
    && forall r :: 0 <= r < |before.requests| ==> SameRequest(after.requests[r], before.requests[r])
  }

  predicate SameRequest(after: Request, before: Request) {
    && after == before.(phase := after.phase)
    && (before.phase.Done? ==> after == before)
  }

  lemma MoveExtends(db: Db, r: nat, clock: Time, ttl: Time, ok: bool)
    requires r < |db.requests|
    ensures Extends(Advance(db, r, clock, ttl, ok), db)
  {
    var after := Effect(db, r, clock + ttl);
    forall i | 0 <= i < |db.sessions| ensures Follows(after.sessions[i], db.sessions[i]) {}
  }

  lemma StepExtends(db: Db, s: Step)
    ensures Extends(Apply(db, s), db)
  {
    if s.Move? {
      if s.request < |db.requests| {
        MoveExtends(db, s.request, s.clock, s.ttl, s.accountActive);
      }
    } else {
      var after := Apply(db, s);
      forall i | 0 <= i < |db.sessions| ensures Follows(after.sessions[i], db.sessions[i]) {}
    }
  }

  // --- preservation -------------------------------------------------------------------------------------

  predicate Placed(db: Db) {
    TokensPlaced(db) && ExchangesRecorded(db)
  }

  /** The tokens and the exchanges are where they were; only revocations, expiries or requests changed. */
  predicate SameTokens(after: Db, db: Db) {
    && after.next == db.next && after.retired == db.retired && after.exchanges == db.exchanges
    && |after.sessions| == |db.sessions|
    && forall i :: 0 <= i < |db.sessions| ==>
         after.sessions[i].current == db.sessions[i].current && after.sessions[i].user == db.sessions[i].user
  }

  lemma SameTokensPlaced(db: Db, after: Db)
    requires Placed(db) && SameTokens(after, db)
    ensures Placed(after)
  {
    forall t | 0 <= t < db.next && t !in db.retired ensures IsCurrent(after, t) {
      assert IsCurrent(db, t);
      var i :| 0 <= i < |db.sessions| && db.sessions[i].current == t;
      assert after.sessions[i].current == t;
    }
    forall t | t in db.retired ensures Exchanged(after, t) {
      assert Exchanged(db, t);
    }
  }

  lemma CreatePlaced(db: Db, user: User, expires: Time)
    requires Placed(db)
    ensures Placed(CreateSession(db, user, expires))
  {
    var after := CreateSession(db, user, expires);
    forall t | 0 <= t < after.next && t !in db.retired ensures IsCurrent(after, t) {
      if t < db.next {
        assert IsCurrent(db, t);
        var i :| 0 <= i < |db.sessions| && db.sessions[i].current == t;
        assert after.sessions[i].current == t;
      } else {
        assert after.sessions[|db.sessions|].current == t;
      }
    }
    forall t | t in db.retired ensures Exchanged(after, t) {
      assert Exchanged(db, t);
    }
  }

  lemma RotatePlacesTokens(db: Db, r: nat, s: nat, user: User, t: Token, expires: Time)
    requires TokensPlaced(db) && MayRotate(db, s, t) && db.sessions[s].user == user
    ensures TokensPlaced(Swapped(db, r, s, user, t, expires))
  {
    var after := Swapped(db, r, s, user, t, expires);
    assert t !in db.retired;
    forall k | 0 <= k < after.next && k !in after.retired ensures IsCurrent(after, k) {
      if k < db.next {
        assert IsCurrent(db, k);
        var i :| 0 <= i < |db.sessions| && db.sessions[i].current == k;
        assert after.sessions[i].current == k;
      } else {
        assert after.sessions[s].current == k;
      }
    }
  }

  lemma RotateRecordsExchange(db: Db, r: nat, s: nat, user: User, t: Token, expires: Time)
    requires Placed(db) && MayRotate(db, s, t)
    ensures ExchangesRecorded(Swapped(db, r, s, user, t, expires))
  {
    var after := Swapped(db, r, s, user, t, expires);
    assert t !in db.retired;
    forall k | k in after.retired ensures Exchanged(after, k) {
      if k == t {
        assert after.exchanges[|db.exchanges|].given == k;
      } else {
        assert Exchanged(db, k);
        var m :| 0 <= m < |db.exchanges| && db.exchanges[m].given == k;
        assert after.exchanges[m].given == k;
      }
    }
  }

  predicate Swaps(db: Db, r: nat)
    requires r < |db.requests|
  {
    var q := db.requests[r];
    q.phase.Rotating? && MayRotate(db, q.phase.session, q.token)
  }

  lemma MoveSwapsOrKeeps(db: Db, r: nat, clock: Time, ttl: Time, ok: bool)
    requires r < |db.requests|
    ensures var q, after := db.requests[r], Advance(db, r, clock, ttl, ok);
            if Swaps(db, r) then SameTokens(after, Swapped(db, r, q.phase.session, q.phase.user, q.token, clock + ttl))
            else SameTokens(after, db)
  {
  }

  lemma SwapPlaced(db: Db, r: nat, expires: Time)
    requires Placed(db) && r < |db.requests| && Swaps(db, r)
    requires db.sessions[db.requests[r].phase.session].user == db.requests[r].phase.user
    ensures var q := db.requests[r]; Placed(Swapped(db, r, q.phase.session, q.phase.user, q.token, expires))
  {
    var q := db.requests[r];
    RotatePlacesTokens(db, r, q.phase.session, q.phase.user, q.token, expires);
    RotateRecordsExchange(db, r, q.phase.session, q.phase.user, q.token, expires);
  }

  /** A request about to swap remembers its session's user. */
  predicate KnowsItsUser(db: Db, r: nat)
    requires r < |db.requests|
  {
    var p := db.requests[r].phase;
    p.Rotating? ==> p.session < |db.sessions| && db.sessions[p.session].user == p.user
  }

  lemma MovedPlaced(db: Db, after: Db, r: nat, expires: Time)
    requires Placed(db) && r < |db.requests| && KnowsItsUser(db, r)
    requires Swaps(db, r) ==>
      var p := db.requests[r].phase;
      SameTokens(after, Swapped(db, r, p.session, p.user, db.requests[r].token, expires))
    requires !Swaps(db, r) ==> SameTokens(after, db)
    ensures Placed(after)
  {
    if Swaps(db, r) {
      var p := db.requests[r].phase;
      SwapPlaced(db, r, expires);
      SameTokensPlaced(Swapped(db, r, p.session, p.user, db.requests[r].token, expires), after);
    } else {
      SameTokensPlaced(db, after);
    }
  }

  lemma MoveKeepsPlaces(db: Db, r: nat, clock: Time, ttl: Time, ok: bool)
    requires Placed(db) && r < |db.requests| && KnowsItsUser(db, r)
    ensures Placed(Advance(db, r, clock, ttl, ok))
  {
    MoveSwapsOrKeeps(db, r, clock, ttl, ok);
    MovedPlaced(db, Advance(db, r, clock, ttl, ok), r, clock + ttl);
  }

  lemma StepKeepsPlaces(db: Db, s: Step)
    requires Placed(db) && (s.Move? && s.request < |db.requests| ==> KnowsItsUser(db, s.request))
    ensures Placed(Apply(db, s))
  {
    match s
    case Login(user, expires) => CreatePlaced(db, user, expires);
    case Move(r, clock, ttl, ok) =>
      if r < |db.requests| {
        MoveKeepsPlaces(db, r, clock, ttl, ok);
      }
    case _ => SameTokensPlaced(db, Apply(db, s));
  }

  /** A request that does not move stays sound whatever else happens. */
  lemma OthersStaySound(db: Db, after: Db, r: nat)
    requires Extends(after, db) && r < |db.requests| && RequestSound(db, r)
    requires after.requests[r] == db.requests[r] && TokensFollow(after, db)
    ensures RequestSound(after, r)
  {
  }

  lemma LookerStaysSound(db: Db, r: nat, clock: Time, ttl: Time, ok: bool)
    requires Placed(db) && r < |db.requests| && RequestSound(db, r) && db.requests[r].phase.Looking?
    ensures RequestSound(Advance(db, r, clock, ttl, ok), r)
  {
  }

  lemma RotatorStaysSound(db: Db, r: nat, clock: Time, ttl: Time, ok: bool)
    requires Placed(db) && r < |db.requests| && RequestSound(db, r) && db.requests[r].phase.Rotating?
    ensures RequestSound(Advance(db, r, clock, ttl, ok), r)
  {
    var q := db.requests[r];
    if MayRotate(db, q.phase.session, q.token) {
      var after := Advance(db, r, clock, ttl, ok);
      assert IsExchange(after.exchanges[|db.exchanges|], r, q.token, db.next);
    }
  }

  lemma WinnerMovesSound(db: Db, r: nat, clock: Time, ttl: Time, ok: bool)
    requires r < |db.requests| && RequestSound(db, r)
    requires db.requests[r].phase.Granting? || db.requests[r].phase.Closing?
    ensures RequestSound(Advance(db, r, clock, ttl, ok), r)
  {
  }

  lemma StopperStaysSound(db: Db, r: nat, clock: Time, ttl: Time, ok: bool)
    requires r < |db.requests| && RequestSound(db, r)
    requires db.requests[r].phase.Losing? || db.requests[r].phase.Suspecting? || db.requests[r].phase.Alarming?
    ensures RequestSound(Advance(db, r, clock, ttl, ok), r)
  {
  }

  lemma MoverStaysSound(db: Db, r: nat, clock: Time, ttl: Time, ok: bool)
    requires Placed(db) && r < |db.requests| && RequestSound(db, r)
    ensures RequestSound(Advance(db, r, clock, ttl, ok), r)
  {
    match db.requests[r].phase
    case Looking => LookerStaysSound(db, r, clock, ttl, ok);
    case Rotating(_, _) => RotatorStaysSound(db, r, clock, ttl, ok);
    case Granting(_, _) => WinnerMovesSound(db, r, clock, ttl, ok);
    case Closing(_) => WinnerMovesSound(db, r, clock, ttl, ok);
    case Done(_) =>
    case _ => StopperStaysSound(db, r, clock, ttl, ok);
  }

  /** A token a session gives up is in the history, under that session. */
  predicate TokensFollow(after: Db, db: Db) {
    forall s :: 0 <= s < |db.sessions| ==>
      s < |after.sessions|
      && (after.sessions[s].current == db.sessions[s].current
          || (db.sessions[s].current in after.retired && after.retired[db.sessions[s].current].session == s))
  }

  lemma SameTokensFollow(after: Db, db: Db)
    requires SameTokens(after, db)
    ensures TokensFollow(after, db)
  {
  }

  lemma MoveTokensFollow(db: Db, r: nat, clock: Time, ttl: Time, ok: bool)
    requires TokensPlaced(db) && r < |db.requests|
    ensures TokensFollow(Advance(db, r, clock, ttl, ok), db)
  {
  }

  lemma StepTokensFollow(db: Db, s: Step)
    requires TokensPlaced(db)
    ensures TokensFollow(Apply(db, s), db)
  {
    match s
    case Login(_, _) =>
    case Move(r, clock, ttl, ok) =>
      if r < |db.requests| {
        MoveTokensFollow(db, r, clock, ttl, ok);
      }
    case _ => SameTokensFollow(Apply(db, s), db);
  }

  predicate Touches(s: Step, r: nat) {
    (s.Move? && s.request == r) || (s.Drop? && s.request == r)
  }

  lemma OthersUnmoved(db: Db, s: Step, r: nat)
    requires r < |db.requests| && !Touches(s, r)
    ensures r < |Apply(db, s).requests| && Apply(db, s).requests[r] == db.requests[r]
  {
  }

  lemma DroppedSound(db: Db, r: nat)
    requires r < |db.requests| && RequestSound(db, r)
    ensures RequestSound(Apply(db, Drop(r)), r)
  {
  }

  lemma StepKeepsRequest(db: Db, s: Step, r: nat)
    requires Sound(db) && r < |db.requests|
    requires Extends(Apply(db, s), db) && TokensFollow(Apply(db, s), db)
    ensures r < |Apply(db, s).requests| && RequestSound(Apply(db, s), r)
  {
    assert RequestSound(db, r);
    if !Touches(s, r) {
      OthersUnmoved(db, s, r);
      OthersStaySound(db, Apply(db, s), r);
    } else if s.Move? {
      MoverStaysSound(db, r, s.clock, s.ttl, s.accountActive);
    } else {
      DroppedSound(db, r);
    }
  }

  lemma StepKeepsRequests(db: Db, s: Step, after: Db)
    requires Sound(db) && after == Apply(db, s) && Extends(after, db) && TokensFollow(after, db)
    ensures forall r :: 0 <= r < |after.requests| ==> RequestSound(after, r)
  {
    forall r | 0 <= r < |after.requests| ensures RequestSound(after, r) {
      if r < |db.requests| {
        StepKeepsRequest(db, s, r);
      }
    }
  }

  lemma StepKeeps(db: Db, s: Step)
    requires Sound(db)
    ensures Sound(Apply(db, s)) && Extends(Apply(db, s), db)
  {
    StepExtends(db, s);
    if s.Move? && s.request < |db.requests| {
      assert RequestSound(db, s.request);
    }
    StepKeepsPlaces(db, s);
    StepTokensFollow(db, s);
    StepKeepsRequests(db, s, Apply(db, s));
  }

  /** Every interleaving keeps the store sound, and only adds to it. */
  lemma {:induction false} RunKeeps(db: Db, steps: seq<Step>)
    requires Sound(db)
    ensures Sound(Run(db, steps)) && Extends(Run(db, steps), db)
    decreases |steps|
  {
    if steps != [] {
      var next := Apply(db, steps[0]);
      StepKeeps(db, steps[0]);
      RunKeeps(next, steps[1..]);
      ExtendsTransitively(db, next, Run(db, steps));
    }
  }

  lemma ExtendsTransitively(a: Db, b: Db, c: Db)
    requires Extends(b, a) && Extends(c, b)
    ensures Extends(c, a)
  {
  }
}
