/** The session store and the identity service's use of it, for a request nothing overlaps. */
module SessionStore {
  import opened Common
  import opened Sessions
  import opened SessionInvariant
  import opened SessionSafety

  datatype Refreshed = Refreshed(db: Db, outcome: Outcome)

  /** What a refresh nothing overlaps comes to: granted exactly when its token is a live session's current
      one and the account is active; a retired token ends every session of its user; any other changes
      nothing. */
  function RefreshAlone(db: Db, t: Token, clock: Time, ttl: Time, ok: bool): Refreshed {
    match FindCurrent(db.sessions, t)
    case None =>
      if t in db.retired then Refreshed(RevokeUser(db, db.retired[t].user), Stopped(db.retired[t].user, |db.sessions|))
      else Refreshed(db, Unknown)
    case Some(s) =>
      if !IsActive(db.sessions[s], clock) then Refreshed(db, Inactive)
      else
        var rotated := Swapped(db, |db.requests|, s, db.sessions[s].user, t, clock + ttl);
        if ok then Refreshed(rotated, Granted(db.next)) else Refreshed(RevokeSession(rotated, s), Forbidden)
  }

  function Moved(db: Db, r: nat, clock: Time, ttl: Time, ok: bool, n: nat): (after: Db)
    requires r < |db.requests|
    ensures |after.requests| == |db.requests|
    decreases n
  {
    if n == 0 then db else Moved(Advance(db, r, clock, ttl, ok), r, clock, ttl, ok, n - 1)
  }

  lemma FinishedStays(db: Db, r: nat, clock: Time, ttl: Time, ok: bool, n: nat)
    requires r < |db.requests| && db.requests[r].phase.Done?
    ensures Moved(db, r, clock, ttl, ok, n) == db
    decreases n
  {
    assert Advance(db, r, clock, ttl, ok) == db;
    if n > 0 {
      FinishedStays(db, r, clock, ttl, ok, n - 1);
    }
  }

  /** The requests table with the newcomer in a given phase. */
  function With(db: Db, t: Token, phase: Phase, tables: Db): Db {
    tables.(requests := db.requests + [Begin(db, t).requests[|db.requests|].(phase := phase)])
  }

  lemma MissGoesOn(db: Db, t: Token, clock: Time, ttl: Time, ok: bool)
    requires FindCurrent(db.sessions, t).None?
    ensures var r := |db.requests|; var out := RefreshAlone(db, t, clock, ttl, ok);
            Moved(Begin(db, t), r, clock, ttl, ok, 4) == With(db, t, Done(out.outcome), out.db)
  {
    var r := |db.requests|;
    var a := Advance(Begin(db, t), r, clock, ttl, ok);
    assert a == With(db, t, Suspecting, db);
    var b := Advance(a, r, clock, ttl, ok);
    if t in db.retired {
      var user := db.retired[t].user;
      assert b == With(db, t, Alarming(user), db);
      var c := Advance(b, r, clock, ttl, ok);
      assert c == With(db, t, Done(Stopped(user, |db.sessions|)), RevokeUser(db, user));
      assert Moved(b, r, clock, ttl, ok, 2) == Moved(c, r, clock, ttl, ok, 1);
      FinishedStays(c, r, clock, ttl, ok, 1);
    } else {
      assert b == With(db, t, Done(Unknown), db);
      FinishedStays(b, r, clock, ttl, ok, 2);
    }
  }

  lemma InactiveHitGoesOn(db: Db, t: Token, clock: Time, ttl: Time, ok: bool)
    requires FindCurrent(db.sessions, t).Some? && !IsActive(db.sessions[FindCurrent(db.sessions, t).value], clock)
    ensures Moved(Begin(db, t), |db.requests|, clock, ttl, ok, 4) == With(db, t, Done(Inactive), db)
  {
  }

  lemma SwapGoesOn(db: Db, t: Token, s: nat, clock: Time, ttl: Time, ok: bool)
    requires MayRotate(db, s, t)
    ensures var r := |db.requests|; var user := db.sessions[s].user;
            var rotated := Swapped(db, r, s, user, t, clock + ttl);
            Moved(With(db, t, Rotating(s, user), db), r, clock, ttl, ok, 3) ==
            if ok then With(db, t, Done(Granted(db.next)), rotated) else With(db, t, Done(Forbidden), RevokeSession(rotated, s))
  {
    var r := |db.requests|;
    var user := db.sessions[s].user;
    var rotated := Swapped(db, r, s, user, t, clock + ttl);
    var a := With(db, t, Rotating(s, user), db);
    var b := Advance(a, r, clock, ttl, ok);
    assert b == With(db, t, Granting(s, db.next), rotated);
    var c := Advance(b, r, clock, ttl, ok);
    assert Moved(b, r, clock, ttl, ok, 2) == Moved(c, r, clock, ttl, ok, 1);
    if ok {
      assert c == With(db, t, Done(Granted(db.next)), rotated);
      FinishedStays(c, r, clock, ttl, ok, 1);
    } else {
      assert c == With(db, t, Closing(s), rotated);
      var d := Advance(c, r, clock, ttl, ok);
      assert d == With(db, t, Done(Forbidden), RevokeSession(rotated, s));
      assert Moved(c, r, clock, ttl, ok, 1) == Moved(d, r, clock, ttl, ok, 0);
    }
  }

  lemma HitGoesOn(db: Db, t: Token, clock: Time, ttl: Time, ok: bool)
    requires FindCurrent(db.sessions, t).Some?
    ensures var r := |db.requests|; var out := RefreshAlone(db, t, clock, ttl, ok);
            Moved(Begin(db, t), r, clock, ttl, ok, 4) == With(db, t, Done(out.outcome), out.db)
  {
    var r := |db.requests|;
    var s := FindCurrent(db.sessions, t).value;
    if !IsActive(db.sessions[s], clock) {
      InactiveHitGoesOn(db, t, clock, ttl, ok);
    } else {
      var a := Advance(Begin(db, t), r, clock, ttl, ok);
      assert a == With(db, t, Rotating(s, db.sessions[s].user), db);
      SwapGoesOn(db, t, s, clock, ttl, ok);
    }
  }

  /** The interleaved request, given the store to itself, comes to exactly that. */
  lemma UninterruptedRequestIsRefresh(db: Db, t: Token, clock: Time, ttl: Time, ok: bool)
    ensures var r := |db.requests|; var out := RefreshAlone(db, t, clock, ttl, ok);
            Moved(Begin(db, t), r, clock, ttl, ok, 4) == With(db, t, Done(out.outcome), out.db)
  {
    if FindCurrent(db.sessions, t).None? {
      MissGoesOn(db, t, clock, ttl, ok);
    } else {
      HitGoesOn(db, t, clock, ttl, ok);
    }
  }

  /** A refresh is granted if and only if its token is the current one of a session neither revoked nor
      expired and the account is active. A revoked or expired session's token is refused and changes
      nothing. */
  lemma RefreshGrantedExactlyWhenLive(db: Db, t: Token, clock: Time, ttl: Time, ok: bool)
    requires TokensPlaced(db)
    ensures var out := RefreshAlone(db, t, clock, ttl, ok);
            && (out.outcome.Granted? <==> ok && IsLive(db.sessions, t, clock))
            && (out.outcome == Forbidden <==> !ok && IsLive(db.sessions, t, clock))
            && (out.outcome == Inactive <==> IsCurrent(db, t) && !IsLive(db.sessions, t, clock))
            && (out.outcome == Inactive ==> out.db == db)
  {
    LookupTells(db, t, clock);
  }

  /** The grant puts a new token in the old one's place and renews that session, and no other, for its time
      to live; on an account that is not active it ends the session as well. */
  lemma RefreshRenews(db: Db, t: Token, s: nat, clock: Time, ttl: Time, ok: bool)
    requires TokensPlaced(db) && LiveToken(db.sessions, s, t, clock)
    ensures var out := RefreshAlone(db, t, clock, ttl, ok);
            && out.outcome == (if ok then Granted(db.next) else Forbidden)
            && out.db.sessions == db.sessions[s := Session(db.sessions[s].user, db.next, clock + ttl, !ok)]
            && t in out.db.retired && out.db.next == db.next + 1
  {
    FoundIsHolder(db, s, t);
  }

  function LiveOf(sessions: seq<Session>, user: User): nat {
    if sessions == [] then 0
    else
      var last := sessions[|sessions| - 1];
      LiveOf(sessions[..|sessions| - 1], user) + if last.user == user && !last.revoked then 1 else 0
  }

  class Store {
    var sessions: seq<Session>
    var retired: map<Token, Owner>
    var next: Token
    ghost var exchanges: seq<Exchange>

    ghost function State(): Db
      reads this
    {
      Db(sessions, retired, next, exchanges, [])
    }

    constructor ()
      ensures State() == EMPTY
    {
      sessions, retired, next, exchanges := [], map[], 0, [];
    }

    method CreateSession(user: User, expires: Time) returns (minted: Token)
      modifies this
      ensures minted == old(next) && State() == Sessions.CreateSession(old(State()), user, expires)
      ensures sessions == old(sessions) + [Session(user, minted, expires, false)] && next == minted + 1
    {
      minted := next;
      sessions := sessions + [Session(user, minted, expires, false)];
      next := next + 1;
    }

    /** Swaps the token only while the old one is still current and the session live, and remembers the old
        one in the same transaction. */
    method RotateRefreshToken(s: nat, user: User, t: Token, expires: Time) returns (rotated: bool)
      modifies this
      ensures rotated == MayRotate(old(State()), s, t)
      ensures exchanges == old(exchanges)
      ensures State() == if rotated then Rotate(old(State()), s, user, t, expires) else old(State())
    {
      if s >= |sessions| || sessions[s].current != t || sessions[s].revoked {
        return false;
      }
      sessions := sessions[s := sessions[s].(current := next, expires := expires)];
      if t !in retired {
        retired := retired[t := Owner(s, user)];
      }
      next := next + 1;
      rotated := true;
    }

    method RevokeSession(s: nat)
      modifies this`sessions
      ensures State() == Sessions.RevokeSession(old(State()), s)
    {
      if s < |sessions| {
        sessions := sessions[s := sessions[s].(revoked := true)];
      }
    }

    /** Ends every live session of a user and counts those it ended. */
    method RevokeUserSessions(user: User) returns (count: nat)
      modifies this`sessions
      ensures State() == RevokeUser(old(State()), user)
      ensures count == LiveOf(old(sessions), user)
    {
      count := 0;
      for s := 0 to |sessions|
        invariant |sessions| == |old(sessions)|
        invariant forall k :: 0 <= k < s ==> sessions[k] == RevokedFor(old(sessions), user)[k]
        invariant forall k :: s <= k < |sessions| ==> sessions[k] == old(sessions)[k]
        invariant count == LiveOf(old(sessions)[..s], user)
      {
        assert old(sessions)[..s + 1][..s] == old(sessions)[..s];
        if sessions[s].user == user && !sessions[s].revoked {
          sessions := sessions[s := sessions[s].(revoked := true)];
          count := count + 1;
        }
      }
      assert old(sessions)[..|sessions|] == old(sessions);
      assert sessions == RevokedFor(old(sessions), user);
    }

    /** Exchanges a refresh token for a new one. */
    method Refresh(t: Token, clock: Time, ttl: Time, accountActive: bool) returns (outcome: Outcome)
      modifies this
      ensures State() == RefreshAlone(old(State()), t, clock, ttl, accountActive).db
      ensures outcome == RefreshAlone(old(State()), t, clock, ttl, accountActive).outcome
      ensures TokensPlaced(old(State())) ==> (outcome.Granted? <==> accountActive && IsLive(old(sessions), t, clock))
    {
      ghost var before := State();
      if TokensPlaced(before) {
        RefreshGrantedExactlyWhenLive(before, t, clock, ttl, accountActive);
      }
      var found := FindCurrent(sessions, t);
      if found.None? {
        outcome := DetectReuse(t);
        return;
      }
      var s := found.value;
      var session := sessions[s];
      if !IsActive(session, clock) {
        return Inactive;
      }
      var minted := next;
      var rotated := RotateRefreshToken(s, session.user, t, clock + ttl);
      exchanges := exchanges + [Exchange(0, t, minted, s)];
      if !accountActive {
        RevokeSession(s);
        return Forbidden;
      }
      return Granted(minted);
    }

    method DetectReuse(t: Token) returns (outcome: Outcome)
      modifies this`sessions
      ensures State() == if t in retired then RevokeUser(old(State()), retired[t].user) else old(State())
      ensures outcome == if t in retired then Stopped(retired[t].user, |sessions|) else Unknown
    {
      if t !in retired {
        return Unknown;
      }
      var _ := RevokeUserSessions(retired[t].user);
      return Stopped(retired[t].user, |sessions|);
    }
  }
}
