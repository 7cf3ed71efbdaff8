/** How much of the platform's cash a driver may hold before no more work is offered, and what clears it. */
module Credit {
  import opened Common
  import opened Money
  import opened Ledger
  import opened Books
  import opened BooksSafety

  const INT64_MAX := INT64 / 2 - 1

  datatype LimitRow = LimitRow(vehicle: Id, cap: Amount, warn: Amount, version: int)

  /** The table's own constraint: a warning after the stop is not a warning. */
  type Limit = l: LimitRow | 0 < l.warn <= l.cap witness LimitRow("", 1, 1, 1)

  datatype Terms = Terms(cap: Amount, warn: Amount)

  datatype CreditError = NoCap | OutOfSafeRange | DriverRequired | LimitRefused

  // --- the limit that applies ---------------------------------------------------------------------

  /** The highest version set for a vehicle type. */
  function Latest(limits: seq<Limit>, vehicle: Id): (row: Option<Limit>)
    ensures row.Some? ==> row.value in limits && row.value.vehicle == vehicle
    ensures forall l :: l in limits && l.vehicle == vehicle ==> row.Some? && l.version <= row.value.version
  {
    if limits == [] then None
    else
      var last := limits[|limits| - 1];
      var rest := Latest(limits[..|limits| - 1], vehicle);
      if last.vehicle == vehicle && (rest.None? || rest.value.version < last.version) then Some(last) else rest
  }

  /** The warning a raised or lowered cap gets: the same proportion, in 64-bit arithmetic, and the cap
      itself when nothing is left of it. */
  function ScaledWarn(override: int, warn: int, cap: int): int
    requires cap > 0
  {
    var scaled := Truncated(Wrap(override * warn), cap);
    if scaled <= 0 then override else scaled
  }

  lemma WrapNeverExceeds(x: int)
    requires x >= 0
    ensures Wrap(x) <= x
    ensures Wrap(x) == x <==> x <= INT64_MAX
    ensures x > INT64_MAX ==> Wrap(x) <= x - INT64
  {
    var y := x + INT64 / 2;
    assert y == (y / INT64) * INT64 + y % INT64;
  }

  lemma QuotientLess(x: int, y: int, d: int)
    requires 0 <= x < y * d && d > 0
    ensures 0 <= x / d < y
  {
    assert x >= (x / d) * d;
    if x / d >= y {
      ProductIsMonotone(y, x / d, d);
    }
  }

  lemma WrappedQuotient(x: int, y: int, d: int)
    requires x <= y * d && d > 0
    ensures Truncated(x, d) <= 0 || Truncated(x, d) <= y
  {
    if x >= 0 {
      assert (y + 1) * d == y * d + d;
      QuotientLess(x, y + 1, d);
    } else {
      assert (-x) / d >= 0;
    }
  }

  /** However the 64-bit product wraps, a positive cap gets a warning above nothing and not above it. */
  lemma WarningStaysBelowTheCap(override: int, warn: int, cap: int)
    requires override > 0 && 0 < warn <= cap
    ensures 0 < ScaledWarn(override, warn, cap) <= override
  {
    ProductIsMonotone(0, warn, override);
    ProductIsMonotone(warn, cap, override);
    WrapNeverExceeds(override * warn);
    WrappedQuotient(Wrap(override * warn), override, cap);
  }

  function LimitFor(limits: seq<Limit>, overrides: map<Id, int>, vehicle: Id, driver: Id): (r: Result<Terms, CreditError>)
    ensures r.Ok? ==> 0 < r.value.warn <= r.value.cap
  {
    match Latest(limits, vehicle)
    case None => Err(NoCap)
    case Some(l) =>
      if driver != "" && driver in overrides && overrides[driver] > 0 then
        WarningStaysBelowTheCap(overrides[driver], l.warn, l.cap);
        var warn := ScaledWarn(overrides[driver], l.warn, l.cap);
        if InRange(overrides[driver]) && InRange(warn) then Ok(Terms(overrides[driver], warn)) else Err(OutOfSafeRange)
      else Ok(Terms(l.cap, l.warn))
  }

  /** What the proportion should be. */
  function Proportion(override: int, warn: int, cap: int): int
    requires cap > 0
  {
    var share := Truncated(override * warn, cap);
    if share <= 0 then override else share
  }

  lemma FurtherQuotients(x: int, y: int, d: int)
    requires 0 < d && x + d <= y && 0 <= x
    ensures x / d < y / d
  {
    assert y == (y / d) * d + y % d;
    assert x >= (x / d) * d;
    if y / d <= x / d {
      ProductIsMonotone(y / d, x / d, d);
    }
  }

  /** A wrapped product that still gives a share gives a smaller one. */
  lemma WrappedShareIsLess(product: int, cap: int)
    requires product > INT64_MAX && 0 < cap <= MAX_SAFE
    ensures Truncated(Wrap(product), cap) > 0 ==> Truncated(Wrap(product), cap) < product / cap
    ensures Truncated(Wrap(product), cap) > 0 <==> Wrap(product) >= cap
    ensures product / cap > 0
  {
    WrapNeverExceeds(product);
    FurtherQuotients(0, product, cap);
    assert 0 / cap == 0;
    if Wrap(product) >= cap {
      FurtherQuotients(0, Wrap(product), cap);
      FurtherQuotients(Wrap(product), product, cap);
    } else if Wrap(product) >= 0 {
      QuotientLess(Wrap(product), 1, cap);
    } else {
      assert (-Wrap(product)) / cap >= 0;
    }
  }

  /** The proportion is kept exactly when the product fits 64 bits, or when the warning is the cap itself and
      what is left of the product is less than one share, so that the override stands in for it. */
  lemma ProportionKeptExactlyWhenItFits(override: int, warn: int, cap: int)
    requires override > 0 && 0 < warn <= cap <= MAX_SAFE
    ensures ScaledWarn(override, warn, cap) == Proportion(override, warn, cap) <==>
      override * warn <= INT64_MAX || (warn == cap && Wrap(override * warn) < cap)
  {
    var product := override * warn;
    ProductIsMonotone(0, warn, override);
    WrapNeverExceeds(product);
    if product > INT64_MAX {
      WrappedShareIsLess(product, cap);
      if warn < cap {
        ShareBelowWhole(override, warn, cap);
      } else {
        WholeShare(override, cap);
      }
    }
  }

  lemma WholeShare(override: int, cap: int)
    requires override > 0 && cap > 0
    ensures (override * cap) / cap == override
  {
    var x := override * cap;
    assert (override + 1) * cap == x + cap;
    QuotientLess(x, override + 1, cap);
    assert x == (x / cap) * cap + x % cap;
    if x / cap < override {
      ProductIsMonotone(x / cap + 1, override, cap);
    }
  }

  lemma ShareBelowWhole(override: int, warn: int, cap: int)
    requires override > 0 && 0 < warn < cap
    ensures 0 <= (override * warn) / cap < override
  {
    ProductIsMonotone(0, warn, override);
    ProductIsMonotone(warn, cap - 1, override);
    assert (cap - 1) * override == override * cap - override;
    QuotientLess(override * warn, override, cap);
  }

  // --- standing -----------------------------------------------------------------------------------

  datatype Standing = Standing(
    owed: Amount, cap: Amount, warn: Amount,
    blocked: bool, warning: bool, clearing: Amount, limited: bool)

  /** Handing back more than was collected is not a negative debt. */
  function OwedBy(txns: seq<Txn>, driver: Id): Result<Amount, CreditError> {
    var minor := Holds(txns, DriverCash(driver));
    if driver == "" then Err(DriverRequired)
    else if minor < 0 then Ok(0)
    else if InRange(minor) then Ok(minor)
    else Err(OutOfSafeRange)
  }

  /** The Go service also clamps what is asked for at nothing; under these limits it never has to. */
  function Against(owed: Amount, terms: Terms): Standing
    requires owed >= 0 && 0 < terms.warn <= terms.cap
  {
    var blocked := owed >= terms.cap;
    Standing(owed, terms.cap, terms.warn, blocked, owed >= terms.warn, if blocked then owed - terms.warn else 0, true)
  }

  function StandingOf(txns: seq<Txn>, limits: seq<Limit>, overrides: map<Id, int>, driver: Id, vehicle: Id)
    : Result<Standing, CreditError>
  {
    match OwedBy(txns, driver)
    case Err(e) => Err(e)
    case Ok(owed) =>
      match LimitFor(limits, overrides, vehicle, driver)
      case Err(NoCap) => Ok(Standing(owed, 0, 0, false, false, 0, false))
      case Err(e) => Err(e)
      case Ok(terms) => Ok(Against(owed, terms))
  }

  /** Every limit anyone is held to warns before it stops: above nothing and at or below the cap. */
  lemma EveryLimitWarnsFirst(limits: seq<Limit>, overrides: map<Id, int>, vehicle: Id, driver: Id)
    ensures match LimitFor(limits, overrides, vehicle, driver)
            case Ok(t) => 0 < t.warn <= t.cap
            case Err(NoCap) => forall l :: l in limits ==> l.vehicle != vehicle
            case Err(e) => e == OutOfSafeRange && driver in overrides && overrides[driver] > MAX_SAFE
  {
    if Latest(limits, vehicle).Some? && driver in overrides && overrides[driver] > 0 {
      var l := Latest(limits, vehicle).value;
      WarningStaysBelowTheCap(overrides[driver], l.warn, l.cap);
    }
  }

  /** A standing is told by the driver's cash and the limit alone: the debt is the cash, never below nothing;
      a limited driver is warned from the warning on and stopped from the cap on; and the limit is the newest
      row's, unless the driver has a positive cap of their own. */
  lemma StandingTells(txns: seq<Txn>, limits: seq<Limit>, overrides: map<Id, int>, driver: Id, vehicle: Id)
    requires StandingOf(txns, limits, overrides, driver, vehicle).Ok?
    ensures var s := StandingOf(txns, limits, overrides, driver, vehicle).value;
      var cash := Holds(txns, Part(CashInTransit, Driver, driver));
      && driver != ""
      && s.owed == (if cash < 0 then 0 else cash)
      && (s.limited <==> exists l :: l in limits && l.vehicle == vehicle)
      && (s.blocked <==> s.limited && s.owed >= s.cap)
      && (s.warning <==> s.limited && s.owed >= s.warn)
    ensures var s := StandingOf(txns, limits, overrides, driver, vehicle).value;
      s.limited ==>
        var l := Latest(limits, vehicle).value;
        if driver in overrides && overrides[driver] > 0
        then s.cap == overrides[driver] && s.warn == ScaledWarn(overrides[driver], l.warn, l.cap)
        else s.cap == l.cap && s.warn == l.warn
  {
  }

  /** What handing cash back does to a standing: every amount counts, only the driver's own debt moves, and
      the driver may work again exactly when what is left is under the cap. */
  lemma HandingBackMovesTheStanding(
    db: Db, limits: seq<Limit>, overrides: map<Id, int>, driver: Id, vehicle: Id, amount: Amount, key: string)
    requires StandingOf(db.txns, limits, overrides, driver, vehicle).Ok? && driver != "" && amount > 0
    ensures
      var before := StandingOf(db.txns, limits, overrides, driver, vehicle).value;
      var after := StandingOf(RecordHandback(db, driver, amount, key).txns, limits, overrides, driver, vehicle);
      before.limited && before.owed > 0 ==>
        && after.Ok?
        && after.value.owed == (if amount >= before.owed then 0 else before.owed - amount)
        && (after.value.blocked <==> before.owed - amount >= before.cap)
  {
    HandbackMoves(db, driver, amount, key);
    EveryLimitWarnsFirst(limits, overrides, vehicle, driver);
  }

  lemma HandingBackIsOnesOwn(db: Db, driver: Id, other: Id, amount: Amount, key: string)
    requires driver != other
    ensures OwedBy(RecordHandback(db, driver, amount, key).txns, other) == OwedBy(db.txns, other)
  {
    if !HandbackRefused(driver, amount) && DriverRemittance(amount, driver).Ok? {
      var a, b := Debit(PlatformClearing, amount, Platform, ""), Credit(CashInTransit, amount, Driver, driver);
      TwoEntries(a, b, DriverCash(other));
    }
  }

  /** A blocked driver is asked for what takes the debt down to the warning. Handing exactly that back
      unblocks them if and only if the warning sits below the cap; when the two are equal and the driver
      stands exactly on them, nothing is asked for and nothing can be handed back. */
  lemma ClearingClearsExactlyWhenWarnIsBelowCap(
    db: Db, limits: seq<Limit>, overrides: map<Id, int>, driver: Id, vehicle: Id, key: string)
    requires StandingOf(db.txns, limits, overrides, driver, vehicle).Ok?
    requires StandingOf(db.txns, limits, overrides, driver, vehicle).value.blocked
    ensures
      var before := StandingOf(db.txns, limits, overrides, driver, vehicle).value;
      var after := StandingOf(RecordHandback(db, driver, before.clearing, key).txns, limits, overrides, driver, vehicle);
      && 0 < before.warn <= before.cap <= before.owed
      && before.clearing == before.owed - before.warn
      && after.Ok? && after.value.owed == before.warn
      && (!after.value.blocked <==> before.warn < before.cap)
      && (before.clearing == 0 <==> before.owed == before.warn == before.cap)
      && (before.clearing == 0 ==> RecordHandback(db, driver, before.clearing, key) == db)
  {
    EveryLimitWarnsFirst(limits, overrides, vehicle, driver);
    var before := StandingOf(db.txns, limits, overrides, driver, vehicle).value;
    if before.clearing > 0 {
      HandingBackMovesTheStanding(db, limits, overrides, driver, vehicle, before.clearing, key);
    }
  }

  // --- the rows -----------------------------------------------------------------------------------

  function Upsert(limits: seq<Limit>, l: Limit): (r: seq<Limit>)
    ensures l in r
    ensures forall k :: k in r && !(k.vehicle == l.vehicle && k.version == l.version) ==> k in limits
  {
    if limits == [] then [l]
    else if limits[0].vehicle == l.vehicle && limits[0].version == l.version then [l] + limits[1..]
    else [limits[0]] + Upsert(limits[1..], l)
  }

  predicate OneRowEach(limits: seq<Limit>) {
    forall i, k :: 0 <= i < k < |limits| ==>
      !(limits[i].vehicle == limits[k].vehicle && limits[i].version == limits[k].version)
  }

  /** Setting a limit replaces the row of its vehicle type and version, or adds one, and leaves the others. */
  lemma {:induction false} UpsertReplaces(limits: seq<Limit>, l: Limit)
    requires OneRowEach(limits)
    ensures OneRowEach(Upsert(limits, l))
    ensures forall k :: k in Upsert(limits, l) <==>
              k == l || (k in limits && !(k.vehicle == l.vehicle && k.version == l.version))
  {
    if limits != [] && !(limits[0].vehicle == l.vehicle && limits[0].version == l.version) {
      var rest := Upsert(limits[1..], l);
      UpsertReplaces(limits[1..], l);
      assert limits == [limits[0]] + limits[1..];
      forall k | 0 <= k < |rest|
        ensures !(limits[0].vehicle == rest[k].vehicle && limits[0].version == rest[k].version)
      {
        assert rest[k] in rest;
      }
    }
  }

  class Caps {
    var limits: seq<Limit>
    var overrides: map<Id, int>  // per driver, whatever the column holds

    constructor ()
      ensures limits == [] && overrides == map[]
    {
      limits, overrides := [], map[];
    }

    /** One row per vehicle type and version; a version that is not positive is the first. */
    method SetCreditLimit(vehicle: Id, cap: Amount, warn: Amount, version: int) returns (error: Option<CreditError>)
      modifies this`limits
      ensures error.Some? <==> !(0 < warn <= cap)
      ensures limits == if error.Some? then old(limits)
                        else Upsert(old(limits), LimitRow(vehicle, cap, warn, if version <= 0 then 1 else version))
    {
      if cap <= 0 || warn <= 0 || warn > cap {
        return Some(LimitRefused);
      }
      var v := if version <= 0 then 1 else version;
      limits := Upsert(limits, LimitRow(vehicle, cap, warn, v));
      error := None;
    }

    method FindLimit(vehicle: Id, driver: Id) returns (r: Result<Terms, CreditError>)
      ensures r == LimitFor(limits, overrides, vehicle, driver)
    {
      var best: Option<Limit> := None;
      for i := 0 to |limits|
        invariant best == Latest(limits[..i], vehicle)
      {
        assert limits[..i + 1][..i] == limits[..i];
        if limits[i].vehicle == vehicle && (best.None? || best.value.version < limits[i].version) {
          best := Some(limits[i]);
        }
      }
      assert limits[..|limits|] == limits;
      if best.None? {
        return Err(NoCap);
      }
      var cap, warn := best.value.cap, best.value.warn;
      if driver != "" && driver in overrides && overrides[driver] > 0 {
        WarningStaysBelowTheCap(overrides[driver], warn, cap);
        var override := overrides[driver];
        var scaled := Truncated(Wrap(override * warn), cap);
        if scaled <= 0 {
          scaled := override;
        }
        if !InRange(override) {
          return Err(OutOfSafeRange);
        }
        cap, warn := override, scaled;
      }
      r := Ok(Terms(cap, warn));
    }

    /** May this driver work, and what do they owe. */
    method FindStanding(txns: seq<Txn>, driver: Id, vehicle: Id) returns (r: Result<Standing, CreditError>)
      ensures r == StandingOf(txns, limits, overrides, driver, vehicle)
    {
      var owed := OwedBy(txns, driver);
      if owed.Err? {
        return Err(owed.error);
      }
      var standing := Standing(owed.value, 0, 0, false, false, 0, false);
      var limit := FindLimit(vehicle, driver);
      if limit == Err(NoCap) {
        return Ok(standing);
      }
      if limit.Err? {
        return Err(limit.error);
      }
      EveryLimitWarnsFirst(limits, overrides, vehicle, driver);
      var blocked := owed.value >= limit.value.cap;
      standing := Standing(owed.value, limit.value.cap, limit.value.warn, blocked, owed.value >= limit.value.warn, 0, true);
      if blocked {
        standing := standing.(clearing := owed.value - limit.value.warn);
      }
      r := Ok(standing);
    }
  }
}
