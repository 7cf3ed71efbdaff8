/** A settlement stopped after some of its moves and finished with another bill: the ledger it ends in, when
    that is the ledger the first bill would have left, and what the customer is left owing. */
module SettlementChange {
  import opened Common
  import opened Money
  import opened Ledger
  import opened Books
  import opened BooksInvariant
  import opened BooksSafety
  import opened Settlement
  import opened SettlementRetry

  /** The moves the first bill made at its amounts, then the ones it left at the second bill's. */
  function Mixed(b: Bill, b2: Bill, k: nat): seq<seq<Entry>>
    requires k <= |Moves(b)|
  {
    EntriesOfAll(Moves(b)[..k], b) + EntriesOfAll(Left(Moves(b2), Moves(b)[..k]), b2)
  }

  function TailLeft(b: Bill, made: seq<Move>): seq<Move> {
    (if b.basket.goods > 0 && PayShop !in made then [PayShop] else [])
    + if b.fare > 0 && PayDriver !in made then [PayDriver] else []
  }

  lemma LeftOfTail(b: Bill, made: seq<Move>)
    ensures Left(Tail(b), made) == TailLeft(b, made)
  {
    LeftOfBoth(ShopMoves(b), DriverMoves(b), made);
    LeftStarts(PayShop, [], made);
    LeftStarts(PayDriver, [], made);
    assert [PayShop] + [] == [PayShop] && [PayDriver] + [] == [PayDriver];
  }

  lemma TailLeftIsTail(b: Bill, made: seq<Move>)
    requires Billable(b) && Payable(b)
    ensures IsTail(TailLeft(b, made), b)
    ensures PayShop in TailLeft(b, made) ==> PayShop !in made
    ensures PayDriver in TailLeft(b, made) ==> PayDriver !in made
  {
  }

  lemma TailMadeIsTail(b: Bill, k: nat)
    requires k <= |Moves(b)| && Billable(b) && Payable(b)
    ensures IsTail(TailMade(b, k), b)
  {
  }

  /** Stopped before the cash is all in. */
  lemma StoppedInTheCash(db: Db, b: Bill, b2: Bill, k: nat)
    requires Sound(db) && Fresh(db, b) && SameJob(b, b2) && Billable(b) && Billable(b2) && Payable(b2)
    requires k <= 3 && !OutgrewItsIntent(b, b2, k)
    ensures DoAll(db, Moves(b)[..k], b).error.None?
    ensures var retried := DoAll(DoAll(db, Moves(b)[..k], b).db, Left(Moves(b2), Moves(b)[..k]), b2);
            retried.error.None? && Wrote(retried.db, db, Mixed(b, b2, k))
  {
    MadeInParts(b, b2, k);
    CashIsMixed(db, b, b2, k);
    LeftOfTail(b2, []);
    TailLeftIsTail(b2, []);
    var rest, tail := CashMoves(b2)[k..], TailLeft(b2, []);
    assert Moves(b)[..k] == CashMoves(b)[..k];
    var first := DoAll(db, CashMoves(b)[..k], b).db;
    DoAllSplits(first, rest, tail, b2);
    var held := DoAll(first, rest, b2).db;
    TailWrites(held, tail, b2);
    EntriesOfBoth(rest, tail, b2);
    var cash := EntriesOfAll(CashMoves(b)[..k], b) + EntriesOfAll(rest, b2);
    WroteInTurn(db, held, DoAll(held, tail, b2).db, cash, EntriesOfAll(tail, b2));
    Regroup(EntriesOfAll(CashMoves(b)[..k], b), EntriesOfAll(rest, b2), EntriesOfAll(tail, b2));
  }

  /** All cash in by the first bill: the state its remaining moves start from. */
  lemma CashAllIn(db: Db, b: Bill)
    requires Sound(db) && Fresh(db, b) && WellFormed(b)
    ensures var held := DoAll(db, CashMoves(b), b);
            held.error.None? && Wrote(held.db, db, EntriesOfAll(CashMoves(b), b)) && BothFree(held.db, b)
  {
    CashIsCollected(db, b);
    CashEntries(b);
  }

  /** Stopped after the cash. */
  lemma StoppedAfterTheCash(db: Db, b: Bill, b2: Bill, k: nat)
    requires Sound(db) && Fresh(db, b) && SameJob(b, b2) && Billable(b) && Billable(b2) && Payable(b) && Payable(b2)
    requires 3 < k <= |Moves(b)|
    ensures DoAll(db, Moves(b)[..k], b).error.None?
    ensures var retried := DoAll(DoAll(db, Moves(b)[..k], b).db, Left(Moves(b2), Moves(b)[..k]), b2);
            retried.error.None? && Wrote(retried.db, db, Mixed(b, b2, k))
  {
    var made := TailMade(b, k);
    MadeInParts(b, b2, k);
    CashAllIn(db, b);
    assert CashMoves(b)[..3] == CashMoves(b) && CashMoves(b2)[3..] == [];
    var held := DoAll(db, CashMoves(b), b).db;
    DoAllSplits(db, CashMoves(b), made, b);
    TailMadeIsTail(b, k);
    TailWrites(held, made, b);
    var stopped := DoAll(held, made, b).db;
    EntriesOfBoth(CashMoves(b), made, b);
    WroteInTurn(db, held, stopped, EntriesOfAll(CashMoves(b), b), EntriesOfAll(made, b));
    LeftOfTail(b2, made);
    TailLeftIsTail(b2, made);
    var tail := TailLeft(b2, made);
    assert [] + tail == tail;
    TailWrites(stopped, tail, b2);
    WroteInTurn(db, stopped, DoAll(stopped, tail, b2).db, EntriesOfAll(Moves(b)[..k], b), EntriesOfAll(tail, b2));
  }

  /** A settlement stopped after any number of moves and tried again with another bill writes both parts: the
      moves made at the first bill's amounts and the moves left at the second's. */
  lemma TwoBillsWriteBothParts(db: Db, b: Bill, b2: Bill, k: nat)
    requires Sound(db) && Fresh(db, b) && SameJob(b, b2) && Billable(b) && Billable(b2) && Payable(b) && Payable(b2)
    requires k <= |Moves(b)| && !OutgrewItsIntent(b, b2, k)
    ensures DoAll(db, Moves(b)[..k], b).error.None?
    ensures var retried := DoAll(DoAll(db, Moves(b)[..k], b).db, Moves(b2), b2);
            retried.error.None? && Wrote(retried.db, db, Mixed(b, b2, k))
  {
    if k <= 3 {
      StoppedInTheCash(db, b, b2, k);
    } else {
      StoppedAfterTheCash(db, b, b2, k);
    }
    AnotherBillMakesWhatIsMissing(db, b, b2, k, []);
  }

  /** An order that grew while only the intent was open: its retry is refused at the capture and writes
      nothing. */
  lemma OutgrownIntentIsRefused(db: Db, b: Bill, b2: Bill)
    requires Sound(db) && Fresh(db, b) && SameJob(b, b2) && WellFormed(b) && WellFormed(b2) && b2.total > b.total
    ensures DoAll(db, Moves(b)[..1], b).error.None?
    ensures var stopped := DoAll(db, Moves(b)[..1], b).db;
            DoAll(stopped, Moves(b2), b2) == Outcome(stopped, Some(BadIntent)) && stopped.txns == db.txns
  {
    assert Moves(b)[..1] == CashMoves(b)[..1] == [OpenIntent];
    CashFromTheIntent(db, b, b2, 1);
    DoOne(db, OpenIntent, b);
    OpenedForAnother(db, b, b2);
    var stopped := Do(db, OpenIntent, b).value;
    DoneOnceDone(db, OpenIntent, b);
    CashDoneForAnother(stopped, OpenIntent, b, b2);
    assert CashMoves(b2) == [OpenIntent] + CashMoves(b2)[1..];
    DoneMovesChangeNothing(stopped, [OpenIntent], CashMoves(b2)[1..], b2);
    DoAllSplits(stopped, CashMoves(b2), Tail(b2), b2);
  }

  // --- when it is the same ledger -----------------------------------------------------------------------

  predicate SameGoods(b: Bill, b2: Bill) {
    && (b.basket.goods > 0 <==> b2.basket.goods > 0)
    && (b.basket.goods > 0 ==> b2.basket.goods == b.basket.goods && b2.basket.merchant == b.basket.merchant)
  }

  predicate SameFare(b: Bill, b2: Bill) {
    && (b.fare > 0 <==> b2.fare > 0)
    && (b.fare > 0 ==> b2.fare == b.fare && Kept(b2) == Kept(b))
  }

  /** The bills agree on everything the first had not yet moved. */
  predicate Agrees(b: Bill, b2: Bill, k: nat)
    requires k <= |Moves(b)|
  {
    var made := Moves(b)[..k];
    && (Collect in made || b2.total == b.total)
    && (PayShop in made || SameGoods(b, b2))
    && (PayDriver in made || SameFare(b, b2))
  }

  lemma WroteOnce(after: Db, db: Db, ess: seq<seq<Entry>>, ess2: seq<seq<Entry>>)
    requires Wrote(after, db, ess) && Wrote(after, db, ess2)
    ensures ess == ess2
  {
    forall i | 0 <= i < |ess| ensures ess[i] == ess2[i] {
      assert after.txns[|db.txns| + i].entries == ess[i];
    }
  }

  /** The cash entries still to write after `k` moves. */
  function CashLeft(b: Bill, k: nat): seq<seq<Entry>> {
    if k >= 3 then [] else if k == 2 then [CollectionEntries(b)] else CashWritten(b)
  }

  lemma CashLeftIs(b: Bill, k: nat)
    requires k <= 3
    ensures EntriesOfAll(CashMoves(b)[k..], b) == CashLeft(b, k)
  {
    CashEntries(b);
    assert CashMoves(b)[0..] == CashMoves(b) && CashMoves(b)[1..] == [TakeCash, Collect];
    assert CashMoves(b)[2..] == [Collect] && CashMoves(b)[3..] == [];
  }

  lemma CashLeftAgrees(b: Bill, b2: Bill, k: nat)
    requires SameJob(b, b2)
    ensures |CashLeft(b, k)| == |CashLeft(b2, k)|
    ensures CashLeft(b2, k) == CashLeft(b, k) <==> k >= 3 || b2.total == b.total
  {
    if k < 3 && b2.total != b.total {
      var last := |CashLeft(b, k)| - 1;
      assert CashLeft(b, k)[last] == CollectionEntries(b) && CashLeft(b2, k)[last] == CollectionEntries(b2);
      assert CollectionEntries(b)[0].amount == b.total && CollectionEntries(b2)[0].amount == b2.total;
    }
  }

  function ShopPart(b: Bill, made: seq<Move>): seq<seq<Entry>> {
    if b.basket.goods > 0 && PayShop !in made then [SaleEntries(b)] else []
  }

  function DriverPart(b: Bill, made: seq<Move>): seq<seq<Entry>> {
    if b.fare > 0 && PayDriver !in made then EntriesOf(PayDriver, b) else []
  }

  lemma TailLeftEntries(b: Bill, made: seq<Move>)
    ensures EntriesOfAll(TailLeft(b, made), b) == ShopPart(b, made) + DriverPart(b, made)
  {
    var shop := if b.basket.goods > 0 && PayShop !in made then [PayShop] else [];
    var driver := if b.fare > 0 && PayDriver !in made then [PayDriver] else [];
    EntriesOfBoth(shop, driver, b);
    EntriesOfOne(PayShop, b);
    EntriesOfOne(PayDriver, b);
  }

  lemma LeftEntries(b: Bill, b2: Bill, k: nat)
    requires k <= |Moves(b)|
    ensures EntriesOfAll(Left(Moves(b2), Moves(b)[..k]), b2)
            == CashLeft(b2, k) + (ShopPart(b2, TailMade(b, k)) + DriverPart(b2, TailMade(b, k)))
  {
    MadeInParts(b, b2, k);
    LeftOfTail(b2, TailMade(b, k));
    EntriesOfBoth(CashMoves(b2)[Least(k)..], TailLeft(b2, TailMade(b, k)), b2);
    CashLeftIs(b2, Least(k));
    TailLeftEntries(b2, TailMade(b, k));
  }

  lemma EarningEntries(b: Bill)
    requires b.fare > 0 && Billable(b) && Payable(b)
    ensures var earning := DriverEarning(b.fare, Kept(b), b.driver, b.job);
            && earning.Ok? && EntriesOf(PayDriver, b) == [earning.value.entries]
            && Effect(earning.value.entries, Part(DriverExpense, Driver, b.driver)) == b.fare
            && Effect(earning.value.entries, Part(DriverPayable, Driver, b.driver)) == -(b.fare - Kept(b))
  {
    CommissionStaysWithinTheFare(b.fare, b.rate.value);
    EarningSplitsTheGross(b.fare, Kept(b), b.driver, b.job);
  }

  lemma DriverPartAgrees(b: Bill, b2: Bill, made: seq<Move>)
    requires SameJob(b, b2) && Billable(b) && Billable(b2) && Payable(b) && Payable(b2)
    ensures |DriverPart(b, made)| <= 1
    ensures DriverPart(b2, made) == DriverPart(b, made) <==> PayDriver in made || SameFare(b, b2)
  {
    if b.fare > 0 {
      EarningEntries(b);
    }
    if b2.fare > 0 {
      EarningEntries(b2);
    }
    if PayDriver !in made && b.fare > 0 && b2.fare > 0 && DriverPart(b2, made) == DriverPart(b, made) {
      assert DriverPart(b2, made)[0] == DriverPart(b, made)[0];
    }
  }

  lemma ShopPartAgrees(b: Bill, b2: Bill, made: seq<Move>)
    ensures ShopPart(b2, made) == ShopPart(b, made) <==> PayShop in made || SameGoods(b, b2)
  {
    if PayShop !in made && b.basket.goods > 0 && b2.basket.goods > 0 && ShopPart(b2, made) == ShopPart(b, made) {
      assert SaleEntries(b2) == ShopPart(b2, made)[0] == SaleEntries(b);
      assert SaleEntries(b2)[0] == SaleEntries(b)[0] && SaleEntries(b2)[1] == SaleEntries(b)[1];
    }
  }

  /** A sale is no earning. */
  lemma SaleIsNoEarning(b: Bill, b2: Bill)
    requires b2.fare > 0 && Billable(b2) && Payable(b2)
    ensures EntriesOf(PayDriver, b2) != [SaleEntries(b)]
  {
    EarningEntries(b2);
    SaleComes(b, Part(DriverExpense, Driver, b2.driver));
    assert EntriesOf(PayDriver, b2)[0] != SaleEntries(b);
  }

  lemma TailAgrees(b: Bill, b2: Bill, made: seq<Move>)
    requires SameJob(b, b2) && Billable(b) && Billable(b2) && Payable(b) && Payable(b2)
    ensures ShopPart(b2, made) + DriverPart(b2, made) == ShopPart(b, made) + DriverPart(b, made) <==>
            ShopPart(b2, made) == ShopPart(b, made) && DriverPart(b2, made) == DriverPart(b, made)
  {
    DriverPartAgrees(b, b2, made);
    DriverPartAgrees(b2, b, made);
    var s, s2, d, d2 := ShopPart(b, made), ShopPart(b2, made), DriverPart(b, made), DriverPart(b2, made);
    if b2.fare > 0 {
      SaleIsNoEarning(b, b2);
    }
    if b.fare > 0 {
      SaleIsNoEarning(b2, b);
    }
    ShortPartsAgree(s, d, s2, d2);
  }

  lemma ShortPartsAgree(s: seq<seq<Entry>>, d: seq<seq<Entry>>, s2: seq<seq<Entry>>, d2: seq<seq<Entry>>)
    requires |s| <= 1 && |d| <= 1 && |s2| <= 1 && |d2| <= 1
    requires (|s| == 1 ==> d2 != s) && (|s2| == 1 ==> d != s2)
    ensures s2 + d2 == s + d <==> s2 == s && d2 == d
  {
    assert (s == [] ==> s + d == d) && (s2 == [] ==> s2 + d2 == d2);
    assert (d == [] ==> s + d == s) && (d2 == [] ==> s2 + d2 == s2);
    assert |s| == 1 ==> s == (s + d)[..1];
    assert |s2| == 1 ==> s2 == (s2 + d2)[..1];
    assert |s| == 1 ==> d == (s + d)[1..];
    assert |s2| == 1 ==> d2 == (s2 + d2)[1..];
  }

  lemma TailMadeShows(b: Bill, k: nat)
    requires k <= |Moves(b)|
    ensures PayShop in Moves(b)[..k] <==> PayShop in TailMade(b, k)
    ensures PayDriver in Moves(b)[..k] <==> PayDriver in TailMade(b, k)
    ensures Collect in Moves(b)[..k] <==> k >= 3
  {
    assert Moves(b)[..k] == CashMoves(b)[..Least(k)] + TailMade(b, k);
    assert k >= 3 ==> Moves(b)[..k][2] == Collect;
  }

  lemma MixedAgrees(b: Bill, b2: Bill, k: nat)
    requires k <= |Moves(b)| && SameJob(b, b2) && Billable(b) && Billable(b2) && Payable(b) && Payable(b2)
    ensures Mixed(b, b2, k) == Mixed(b, b, k) <==> Agrees(b, b2, k)
  {
    var made := TailMade(b, k);
    LeftEntries(b, b2, k);
    LeftEntries(b, b, k);
    CashLeftAgrees(b, b2, k);
    ShopPartAgrees(b, b2, made);
    DriverPartAgrees(b, b2, made);
    TailAgrees(b, b2, made);
    TailMadeShows(b, k);
    var begun := EntriesOfAll(Moves(b)[..k], b);
    var tail, tail2 := ShopPart(b, made) + DriverPart(b, made), ShopPart(b2, made) + DriverPart(b2, made);
    PartsAgree(begun, CashLeft(b, k), tail, CashLeft(b2, k), tail2);
  }

  lemma PartsAgree(x: seq<seq<Entry>>, y: seq<seq<Entry>>, z: seq<seq<Entry>>, y2: seq<seq<Entry>>, z2: seq<seq<Entry>>)
    requires |y| == |y2|
    ensures x + (y2 + z2) == x + (y + z) <==> y2 == y && z2 == z
  {
    if x + (y2 + z2) == x + (y + z) {
      assert y2 + z2 == (x + (y2 + z2))[|x|..] == (x + (y + z))[|x|..] == y + z;
      assert y2 == (y2 + z2)[..|y|] && y == (y + z)[..|y|];
      assert z2 == (y2 + z2)[|y|..] && z == (y + z)[|y|..];
    }
  }

  lemma WholeIsMixed(db: Db, b: Bill, k: nat)
    requires Sound(db) && Fresh(db, b) && Billable(b) && Payable(b) && k <= |Moves(b)|
    ensures Mixed(b, b, k) == Written(b)
  {
    TwoBillsWriteBothParts(db, b, b, k);
    RetryFinishesWhatWasStarted(db, b, k, []);
    FreshJobSettlesExactlyWhenPayable(db, b);
    WroteOnce(DoAll(db, Moves(b), b).db, db, Mixed(b, b, k), Written(b));
  }

  /** Stopped after `k` moves and tried again with another bill, a settlement of a fresh job succeeds and
      leaves the entries the first bill would have left if and only if the new rate leaves the driver
      something and the bills agree on everything the first had not yet moved: the total until the cash is
      collected, the goods and the shop until it is credited, the fare and commission until the driver is. */
  lemma SameLedgerExactlyWhenBillsAgree(db: Db, b: Bill, b2: Bill, k: nat)
    requires Sound(db) && Fresh(db, b) && SameJob(b, b2) && Billable(b) && Billable(b2) && Payable(b)
    requires k <= |Moves(b)|
    ensures var retried := DoAll(DoAll(db, Moves(b)[..k], b).db, Moves(b2), b2);
            retried.error.None? && Wrote(retried.db, db, Written(b)) <==> Payable(b2) && Agrees(b, b2, k)
  {
    var stopped := DoAll(db, Moves(b)[..k], b).db;
    var retried := DoAll(stopped, Moves(b2), b2);
    TailMadeShows(b, k);
    if !Payable(b2) {
      UnpayableNeverSettles(stopped, b2);
    } else if OutgrewItsIntent(b, b2, k) {
      OutgrownIntentIsRefused(db, b, b2);
    } else {
      TwoBillsWriteBothParts(db, b, b2, k);
      WholeIsMixed(db, b, k);
      MixedAgrees(b, b2, k);
      if Wrote(retried.db, db, Written(b)) {
        WroteOnce(retried.db, db, Mixed(b, b2, k), Written(b));
      }
    }
  }

  // --- what the customer is left owing ------------------------------------------------------------------

  lemma {:induction false} EffectOfBoth(ess: seq<seq<Entry>>, ess2: seq<seq<Entry>>, q: Query)
    ensures EffectOfAll(ess + ess2, q) == EffectOfAll(ess, q) + EffectOfAll(ess2, q)
    decreases |ess2|
  {
    if ess2 == [] {
      assert ess + ess2 == ess;
    } else {
      var n := |ess2| - 1;
      assert ess + ess2 == (ess + ess2[..n]) + [ess2[n]];
      EffectOfBoth(ess, ess2[..n], q);
      EffectOfAllAppend(ess + ess2[..n], ess2[n], q);
    }
  }

  function Owes(b: Bill): Query {
    Part(CustomerReceivable, Customer, b.requester)
  }

  /** What a move adds to the customer's debt. */
  function DebtOf(m: Move, b: Bill): int {
    match m
    case TakeCash => b.total
    case Collect => -b.total
    case _ => 0
  }

  function DebtOfAll(moves: seq<Move>, b: Bill): int {
    if moves == [] then 0 else DebtOf(moves[0], b) + DebtOfAll(moves[1..], b)
  }

  lemma OneRow(es: seq<Entry>, q: Query)
    ensures EffectOfAll([es], q) == Effect(es, q)
  {
    EffectOfAllAppend([], es, q);
    assert [] + [es] == [es];
  }

  lemma CashMovesDebt(b: Bill)
    ensures EffectOfAll([CaptureEntries(b)], Owes(b)) == b.total
    ensures EffectOfAll([CollectionEntries(b)], Owes(b)) == -b.total
  {
    OneRow(CaptureEntries(b), Owes(b));
    OneRow(CollectionEntries(b), Owes(b));
    TwoEntries(CaptureEntries(b)[0], CaptureEntries(b)[1], Owes(b));
    TwoEntries(CollectionEntries(b)[0], CollectionEntries(b)[1], Owes(b));
  }

  lemma EarningMovesNoDebt(b: Bill)
    requires Billable(b) && Payable(b)
    ensures EffectOfAll(EntriesOf(PayDriver, b), Owes(b)) == 0
  {
    if b.fare > 0 {
      EarningEntries(b);
      EarningComes(b, Owes(b));
      OneRow(DriverEarning(b.fare, Kept(b), b.driver, b.job).value.entries, Owes(b));
    } else {
      EarningSplitsTheGross(b.fare, Kept(b), b.driver, b.job);
    }
  }

  lemma EntriesMoveDebt(m: Move, b: Bill)
    requires Billable(b) && Payable(b)
    ensures EffectOfAll(EntriesOf(m, b), Owes(b)) == DebtOf(m, b)
  {
    CashMovesDebt(b);
    EarningMovesNoDebt(b);
    SaleComes(b, Owes(b));
    OneRow(SaleEntries(b), Owes(b));
  }

  lemma {:induction false} MovesMoveDebt(moves: seq<Move>, b: Bill)
    requires Billable(b) && Payable(b)
    ensures EffectOfAll(EntriesOfAll(moves, b), Owes(b)) == DebtOfAll(moves, b)
  {
    if moves != [] {
      MovesMoveDebt(moves[1..], b);
      EntriesMoveDebt(moves[0], b);
      EffectOfBoth(EntriesOf(moves[0], b), EntriesOfAll(moves[1..], b), Owes(b));
    }
  }

  lemma {:induction false} DebtOfBoth(moves: seq<Move>, rest: seq<Move>, b: Bill)
    ensures DebtOfAll(moves + rest, b) == DebtOfAll(moves, b) + DebtOfAll(rest, b)
  {
    if moves == [] {
      assert moves + rest == rest;
    } else {
      assert (moves + rest)[1..] == moves[1..] + rest;
      DebtOfBoth(moves[1..], rest, b);
    }
  }

  lemma {:induction false} TailMovesNoDebt(moves: seq<Move>, b: Bill)
    requires forall m :: m in moves ==> m.PayShop? || m.PayDriver?
    ensures DebtOfAll(moves, b) == 0
  {
    if moves != [] {
      assert moves[0] in moves && forall m :: m in moves[1..] ==> m in moves;
      TailMovesNoDebt(moves[1..], b);
    }
  }

  lemma CashDebt(b: Bill, k: nat)
    requires k <= 3
    ensures DebtOfAll(CashMoves(b)[..k], b) == if k == 2 then b.total else 0
    ensures DebtOfAll(CashMoves(b)[k..], b) == if k == 2 then -b.total else 0
  {
    assert CashMoves(b)[1..] == [TakeCash, Collect] && [TakeCash, Collect][1..] == [Collect] && [Collect][1..] == [];
    assert DebtOfAll([Collect], b) == -b.total;
    assert DebtOfAll([TakeCash, Collect], b) == b.total + DebtOfAll([Collect], b);
    assert CashMoves(b)[..1] == [OpenIntent] && CashMoves(b)[..2] == [OpenIntent, TakeCash];
    assert [OpenIntent, TakeCash][1..] == [TakeCash] && [TakeCash][1..] == [] && [OpenIntent][1..] == [];
    assert DebtOfAll([TakeCash], b) == b.total;
    assert CashMoves(b)[..3] == CashMoves(b) == CashMoves(b)[0..] && CashMoves(b)[2..] == [Collect] && CashMoves(b)[3..] == [];
  }

  lemma MadeDebt(b: Bill, k: nat)
    requires k <= |Moves(b)|
    ensures DebtOfAll(Moves(b)[..k], b) == if k == 2 then b.total else 0
  {
    MadeInParts(b, b, k);
    DebtOfBoth(CashMoves(b)[..Least(k)], TailMade(b, k), b);
    CashDebt(b, Least(k));
    TailMovesNoDebt(TailMade(b, k), b);
  }

  lemma LeftDebt(b: Bill, b2: Bill, k: nat)
    requires k <= |Moves(b)|
    ensures DebtOfAll(Left(Moves(b2), Moves(b)[..k]), b2) == if k == 2 then -b2.total else 0
  {
    var tail := TailLeft(b2, TailMade(b, k));
    MadeInParts(b, b2, k);
    LeftOfTail(b2, TailMade(b, k));
    DebtOfBoth(CashMoves(b2)[Least(k)..], tail, b2);
    CashDebt(b2, Least(k));
    TailMovesNoDebt(tail, b2);
  }

  /** However it was interrupted and whatever was billed the second time, a settlement that succeeds leaves
      the customer owing nothing new, except when it stopped between capturing the cash and recording its
      collection: then it leaves exactly the difference between the two totals. So the debt nets to nothing
      if and only if it did not stop there or the totals are the same. */
  lemma CustomerOwesExactlyTheDifference(db: Db, b: Bill, b2: Bill, k: nat)
    requires Sound(db) && Fresh(db, b) && SameJob(b, b2) && Billable(b) && Billable(b2) && Payable(b)
    requires k <= |Moves(b)|
    requires DoAll(DoAll(db, Moves(b)[..k], b).db, Moves(b2), b2).error.None?
    ensures var retried := DoAll(DoAll(db, Moves(b)[..k], b).db, Moves(b2), b2).db;
            Holds(retried.txns, Owes(b)) - Holds(db.txns, Owes(b)) == if k == 2 then b.total - b2.total else 0
  {
    var stopped := DoAll(db, Moves(b)[..k], b).db;
    if !Payable(b2) {
      UnpayableNeverSettles(stopped, b2);
    } else if OutgrewItsIntent(b, b2, k) {
      OutgrownIntentIsRefused(db, b, b2);
    } else {
      TwoBillsWriteBothParts(db, b, b2, k);
      WroteMoves(DoAll(stopped, Moves(b2), b2).db, db, Mixed(b, b2, k), Owes(b));
      EffectOfBoth(EntriesOfAll(Moves(b)[..k], b), EntriesOfAll(Left(Moves(b2), Moves(b)[..k]), b2), Owes(b));
      MovesMoveDebt(Moves(b)[..k], b);
      MovesMoveDebt(Left(Moves(b2), Moves(b)[..k]), b2);
      MadeDebt(b, k);
      LeftDebt(b, b2, k);
    }
  }

  /** The failing retry, from every fresh job: the cash captured at one total and its collection recorded at
      another leaves the customer's account off by the difference, and completing the job again finds it
      settled. */
  lemma ChangedOrderLeavesADebt(db: Db, b: Bill, b2: Bill)
    requires Sound(db) && Fresh(db, b) && SameJob(b, b2) && Billable(b) && Billable(b2) && Payable(b) && Payable(b2)
    requires b2.total != b.total
    ensures var retried := DoAll(DoAll(db, Moves(b)[..2], b).db, Moves(b2), b2);
            && retried.error.None?
            && Holds(retried.db.txns, Owes(b)) == Holds(db.txns, Owes(b)) + b.total - b2.total
            && DoAll(retried.db, Moves(b2), b2) == Outcome(retried.db, None)
  {
    TwoBillsWriteBothParts(db, b, b2, 2);
    CustomerOwesExactlyTheDifference(db, b, b2, 2);
    AllDone(db, Moves(b)[..2], b);
    SettledIsSettled(DoAll(db, Moves(b)[..2], b).db, b2, []);
  }

  lemma WroteSince(after: Db, middle: Db, db: Db, first: seq<seq<Entry>>, rest: seq<seq<Entry>>)
    requires Wrote(middle, db, first) && Wrote(after, db, first + rest) && middle.txns <= after.txns
    ensures Wrote(after, middle, rest)
  {
    forall i | 0 <= i < |rest| ensures after.txns[|middle.txns| + i].entries == rest[i] {
      assert (first + rest)[|first| + i] == rest[i];
    }
  }

  lemma InTail(b: Bill)
    ensures PayShop in Tail(b) <==> b.basket.goods > 0
    ensures PayDriver in Tail(b) <==> b.fare > 0
  {
    assert b.basket.goods > 0 ==> ShopMoves(b)[0] == PayShop;
    assert b.fare > 0 ==> DriverMoves(b)[0] == PayDriver;
  }

  lemma WholeMade(b: Bill)
    ensures Moves(b)[..|Moves(b)|] == Moves(b) && TailMade(b, |Moves(b)|) == Tail(b) && |Moves(b)| >= 3
  {
    assert Moves(b) == CashMoves(b) + Tail(b);
    assert Tail(b)[..|Tail(b)|] == Tail(b);
  }

  /** What is left to write after a whole settlement: nothing of its own bill, and of another what it
      lacked. */
  lemma LeftAfterAll(b: Bill, b2: Bill)
    ensures Mixed(b, b2, |Moves(b)|) == EntriesOfAll(Moves(b), b) + (ShopPart(b2, Tail(b)) + DriverPart(b2, Tail(b)))
    ensures Mixed(b, b, |Moves(b)|) == EntriesOfAll(Moves(b), b)
  {
    WholeMade(b);
    InTail(b);
    LeftEntries(b, b2, |Moves(b)|);
    LeftEntries(b, b, |Moves(b)|);
    var rest := ShopPart(b2, Tail(b)) + DriverPart(b2, Tail(b));
    assert [] + rest == rest;
    assert ShopPart(b, Tail(b)) == [] && DriverPart(b, Tail(b)) == [];
  }

  /** A job settled without goods and completed again once a basket is read posts the shop's sale, and
      collects nothing for it. */
  lemma LateBasketIsPaidUncollected(db: Db, b: Bill, b2: Bill)
    requires Sound(db) && Fresh(db, b) && SameJob(b, b2) && Billable(b) && Billable(b2) && Payable(b) && Payable(b2)
    requires b.basket.goods <= 0 < b2.basket.goods
    ensures var settled := DoAll(db, Moves(b), b);
            var again := DoAll(settled.db, Moves(b2), b2);
            && settled.error.None? && again.error.None?
            && Wrote(again.db, settled.db, [SaleEntries(b2)] + DriverPart(b2, Tail(b)))
  {
    var settled := DoAll(db, Moves(b), b).db;
    WholeMade(b);
    InTail(b);
    TwoBillsWriteBothParts(db, b, b2, |Moves(b)|);
    FreshJobSettlesExactlyWhenPayable(db, b);
    WholeIsMixed(db, b, |Moves(b)|);
    LeftAfterAll(b, b2);
    AllDone(db, Moves(b), b);
    DoAllExtends(settled, Moves(b2), b2);
    WroteSince(DoAll(settled, Moves(b2), b2).db, settled, db, Written(b), ShopPart(b2, Tail(b)) + DriverPart(b2, Tail(b)));
  }

  lemma {:induction false} DoAllExtends(db: Db, moves: seq<Move>, b: Bill)
    requires Sound(db)
    ensures Sound(DoAll(db, moves, b).db) && Extends(DoAll(db, moves, b).db, db)
    decreases |moves|
  {
    if moves != [] && Do(db, moves[0], b).Ok? {
      DoKeepsBooks(db, moves[0], b);
      var next := Do(db, moves[0], b).value;
      DoAllExtends(next, moves[1..], b);
      ExtendsTransitively(db, next, DoAll(next, moves[1..], b).db);
    }
  }

  // --- every row that names the cash intent ---------------------------------------------------------------

  /** What all rows naming intent `i` come to in an account, whatever kind of movement they are. */
  function Named(txns: seq<Txn>, i: nat, q: Query): int {
    if txns == [] then 0
    else
      var last := txns[|txns| - 1];
      Named(txns[..|txns| - 1], i, q) + if last.intent == Some(i) then Effect(last.entries, q) else 0
  }

  lemma NamedAppend(txns: seq<Txn>, t: Txn, i: nat, q: Query)
    ensures Named(txns + [t], i, q) == Named(txns, i, q) + if t.intent == Some(i) then Effect(t.entries, q) else 0
  {
  }

  lemma {:induction false} NothingNamesItYet(db: Db, n: nat, i: nat, q: Query)
    requires LedgerSound(db) && n <= |db.txns| && i >= |db.intents|
    ensures Named(db.txns[..n], i, q) == 0
  {
    if n > 0 {
      NothingNamesItYet(db, n - 1, i, q);
      assert db.txns[..n][..n - 1] == db.txns[..n - 1];
      assert RowStored(db, n - 1);
    }
  }

  /** A move that pays the shop or the driver names no intent. */
  lemma TailNamesNothing(db: Db, m: Move, b: Bill, i: nat, q: Query)
    requires (m.PayShop? || m.PayDriver?) && Do(db, m, b).Ok?
    ensures Named(Do(db, m, b).value.txns, i, q) == Named(db.txns, i, q)
    ensures Do(db, m, b).value.intents == db.intents
  {
    var after := Do(db, m, b).value;
    if after != db {
      var t := MovementOf(db, m, b).value;
      assert after.txns == db.txns + [t.(id := Some(|db.txns|))] && t.intent == None;
      NamedAppend(db.txns, t.(id := Some(|db.txns|)), i, q);
    }
  }

  lemma CashNamesIt(db: Db, b: Bill, q: Query)
    requires Sound(db) && Fresh(db, b) && WellFormed(b)
    ensures var held := DoAll(db, CashMoves(b), b).db;
            && IntentOf(held, b) == Some(|db.intents|)
            && Named(held.txns, |db.intents|, q) == Effect(CaptureEntries(b), q) + Effect(CollectionEntries(b), q)
  {
    var i := |db.intents|;
    OpenedForAnother(db, b, b);
    var asked := Do(db, OpenIntent, b).value;
    IntentFoundIs(asked, i, b.requester, "fare:" + b.job);
    var taken := Do(asked, TakeCash, b).value;
    DoKeepsBooks(asked, TakeCash, b);
    IntentStays(asked, taken, b);
    assert taken.txns == db.txns + [taken.txns[|db.txns|]] && taken.txns[|db.txns|].intent == Some(i);
    UnkeyedRowTakesNoKey(db, taken, b);
    Collects(taken, b);
    var held := Do(taken, Collect, b).value;
    DoKeepsBooks(taken, Collect, b);
    IntentStays(taken, held, b);
    assert held.txns[|taken.txns|].intent == Some(i);
    CashMovesInTurn(db, b);
    NothingNamesItYet(db, |db.txns|, i, q);
    assert db.txns[..|db.txns|] == db.txns;
    NamedAppend(db.txns, taken.txns[|db.txns|], i, q);
    NamedAppend(taken.txns, held.txns[|taken.txns|], i, q);
  }

  /** After a fresh settlement the rows naming its cash intent, the collection among them, leave the
      customer owing nothing. */
  lemma CashIntentNetsToNothing(db: Db, b: Bill)
    requires Sound(db) && Fresh(db, b) && Billable(b) && Payable(b)
    ensures var after := DoAll(db, Moves(b), b).db;
            && IntentOf(after, b).Some?
            && Named(after.txns, IntentOf(after, b).value, Owes(b)) == 0
  {
    var i, q := |db.intents|, Owes(b);
    MovesInTurn(db, b);
    CashIsCollected(db, b);
    CashNamesIt(db, b, q);
    TwoEntries(CaptureEntries(b)[0], CaptureEntries(b)[1], q);
    TwoEntries(CollectionEntries(b)[0], CollectionEntries(b)[1], q);
    var held := DoAll(db, CashMoves(b), b).db;
    ShopIsPaid(held, b);
    var sold := DoAll(held, ShopMoves(b), b).db;
    if b.basket.goods > 0 {
      DoOne(held, PayShop, b);
      TailNamesNothing(held, PayShop, b, i, q);
    }
    DriverIsPaid(sold, b);
    if b.fare > 0 {
      DoOne(sold, PayDriver, b);
      TailNamesNothing(sold, PayDriver, b, i, q);
    }
  }
}
