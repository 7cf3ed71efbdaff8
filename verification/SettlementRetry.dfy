/** A settlement tried again works from what it reads then: the basket and the rate may have changed since
    the attempt before it. What a retry with another bill makes, when it still comes to the same ledger, and
    what the customer is left owing. */
module SettlementRetry {
  import opened Common
  import opened Money
  import opened Ledger
  import opened Books
  import opened BooksInvariant
  import opened BooksSafety
  import opened Settlement

  /** Another bill for the same job: its driver and requester never change once it is completed. */
  predicate SameJob(b: Bill, b2: Bill) {
    b2.job == b.job && b2.driver == b.driver && b2.requester == b.requester
  }

  predicate Billable(b: Bill) {
    WellFormed(b) && RateAllowed(b)
  }

  // --- what a retry with another bill makes -----------------------------------------------------------

  lemma CashDoneForAnother(db: Db, m: Move, b: Bill, b2: Bill)
    requires Sound(db) && SameJob(b, b2) && WellFormed(b2) && Done(db, m, b) && m in CashMoves(b)
    ensures Done(db, m, b2)
  {
    var i := IntentOf(db, b).value;
    match m
    case OpenIntent =>
    case TakeCash =>
      if CaptureAnswer(db, i, b.total).None? {
        assert false;
      }
    case Collect =>
      var es := CollectionEntries(b2);
      PairBalances(CashCollected, b2.job, "", None, es[0], es[1]);
      CheckIsExactUpTo2048(es);
  }

  /** A move that posts under a key already used has been made. */
  lemma UsedKeyPaidShop(db: Db, b: Bill)
    requires b.basket.goods > 0 && FindKey(db.txns, "goods:" + b.job).Some?
    ensures Done(db, PayShop, b)
  {
    var es := SaleEntries(b);
    PairBalances(Earning, b.job, b.basket.order, None, es[0], es[1]);
    CheckIsExactUpTo2048(es);
    assert es + [] == es;
  }

  lemma UsedKeyPaidDriver(db: Db, b: Bill)
    requires b.fare > 0 && RateAllowed(b) && Payable(b) && FindKey(db.txns, "earning:" + b.job).Some?
    ensures Done(db, PayDriver, b)
  {
    CommissionStaysWithinTheFare(b.fare, b.rate.value);
    EarningSplitsTheGross(b.fare, Kept(b), b.driver, b.job);
    CheckIsExactUpTo2048(DriverEarning(b.fare, Kept(b), b.driver, b.job).value.entries);
  }

  lemma DoneUsesKey(db: Db, b: Bill)
    ensures Done(db, PayShop, b) ==> FindKey(db.txns, "goods:" + b.job).Some?
    ensures Done(db, PayDriver, b) ==> FindKey(db.txns, "earning:" + b.job).Some?
  {
  }

  lemma DoneForAnother(db: Db, m: Move, b: Bill, b2: Bill)
    requires Sound(db) && SameJob(b, b2) && Billable(b2) && Done(db, m, b)
    requires m in Moves(b2) && (m.PayDriver? ==> Payable(b2))
    ensures Done(db, m, b2)
  {
    DoneUsesKey(db, b);
    if m.PayShop? {
      UsedKeyPaidShop(db, b2);
    } else if m.PayDriver? {
      UsedKeyPaidDriver(db, b2);
    } else {
      CashDoneForAnother(db, m, b, b2);
    }
  }

  /** The moves not among those already made. */
  function Left(moves: seq<Move>, made: seq<Move>): seq<Move> {
    if moves == [] then []
    else if moves[0] in made then Left(moves[1..], made)
    else [moves[0]] + Left(moves[1..], made)
  }

  predicate MadeAreDone(db: Db, moves: seq<Move>, made: seq<Move>, b: Bill) {
    forall m :: m in moves && m in made ==> Done(db, m, b)
  }

  lemma MadeStayDone(db: Db, moves: seq<Move>, made: seq<Move>, b: Bill)
    requires Sound(db) && moves != [] && MadeAreDone(db, moves, made, b) && Do(db, moves[0], b).Ok?
    ensures Sound(Do(db, moves[0], b).value) && MadeAreDone(Do(db, moves[0], b).value, moves[1..], made, b)
  {
    var next := Do(db, moves[0], b).value;
    DoKeepsBooks(db, moves[0], b);
    forall m | m in moves[1..] && m in made ensures Done(next, m, b) {
      assert m in moves;
      DoneStaysDone(db, m, b, next);
    }
  }

  lemma DoneIsSkipped(db: Db, moves: seq<Move>, made: seq<Move>, b: Bill)
    requires moves != [] && moves[0] in made && MadeAreDone(db, moves, made, b)
    ensures DoAll(db, moves, b) == DoAll(db, moves[1..], b)
  {
    assert moves[0] in moves && Done(db, moves[0], b);
  }

  lemma DoAllStarts(db: Db, m: Move, rest: seq<Move>, b: Bill)
    ensures DoAll(db, [m] + rest, b) ==
            if Do(db, m, b).Ok? then DoAll(Do(db, m, b).value, rest, b) else Outcome(db, Some(Do(db, m, b).error))
  {
    assert ([m] + rest)[1..] == rest;
  }

  lemma {:induction false} SkipsTheDone(db: Db, moves: seq<Move>, made: seq<Move>, b: Bill)
    requires Sound(db) && MadeAreDone(db, moves, made, b)
    ensures DoAll(db, moves, b) == DoAll(db, Left(moves, made), b)
    decreases |moves|
  {
    if moves == [] {
    } else if moves[0] in made {
      DoneIsSkipped(db, moves, made, b);
      SkipsTheDone(db, moves[1..], made, b);
    } else {
      DoAllStarts(db, moves[0], moves[1..], b);
      DoAllStarts(db, moves[0], Left(moves[1..], made), b);
      assert [moves[0]] + moves[1..] == moves;
      if Do(db, moves[0], b).Ok? {
        MadeStayDone(db, moves, made, b);
        SkipsTheDone(Do(db, moves[0], b).value, moves[1..], made, b);
      }
    }
  }

  /** A settlement interrupted after any number of moves and tried again from the start with another bill,
      after anything else the books did meanwhile, makes just the moves of the new bill that no earlier move
      stands for, at the new bill's amounts. If the new rate leaves the driver nothing it ends in an error. */
  lemma AnotherBillMakesWhatIsMissing(db: Db, b: Bill, b2: Bill, k: nat, steps: seq<Step>)
    requires Sound(db) && k <= |Moves(b)| && AllAllowed(steps) && SameJob(b, b2) && Billable(b2)
    requires DoAll(db, Moves(b)[..k], b).error.None?
    ensures var resumed := Run(DoAll(db, Moves(b)[..k], b).db, steps);
            && (Payable(b2) ==> DoAll(resumed, Moves(b2), b2) == DoAll(resumed, Left(Moves(b2), Moves(b)[..k]), b2))
            && (!Payable(b2) ==> DoAll(resumed, Moves(b2), b2).error.Some?)
  {
    var made := Moves(b)[..k];
    var interrupted := DoAll(db, made, b).db;
    var resumed := Run(interrupted, steps);
    AllDone(db, made, b);
    RunKeeps(interrupted, steps);
    if Payable(b2) {
      forall m | m in Moves(b2) && m in made ensures Done(resumed, m, b2) {
        DoneStaysDone(interrupted, m, b, resumed);
        DoneForAnother(resumed, m, b, b2);
      }
      SkipsTheDone(resumed, Moves(b2), made, b2);
    } else {
      UnpayableNeverSettles(resumed, b2);
    }
  }

  // --- a settled job, completed again ---------------------------------------------------------------

  predicate ShopDue(db: Db, b: Bill) {
    b.basket.goods > 0 && FindKey(db.txns, "goods:" + b.job).None?
  }

  predicate DriverDue(db: Db, b: Bill) {
    b.fare > 0 && FindKey(db.txns, "earning:" + b.job).None? && Payable(b)
  }

  lemma ShopStage(db: Db, b: Bill)
    ensures DoAll(db, ShopMoves(b), b).error.None?
    ensures ShopDue(db, b) ==> |DoAll(db, ShopMoves(b), b).db.txns| == |db.txns| + 1
    ensures !ShopDue(db, b) ==> DoAll(db, ShopMoves(b), b).db == db
  {
    if b.basket.goods > 0 {
      DoOne(db, PayShop, b);
      if FindKey(db.txns, "goods:" + b.job).None? {
        PaysShop(db, b);
      } else {
        UsedKeyPaidShop(db, b);
      }
    }
  }

  lemma DriverStage(db: Db, b: Bill)
    requires RateAllowed(b)
    ensures DriverDue(db, b) ==> |DoAll(db, DriverMoves(b), b).db.txns| == |db.txns| + 1
    ensures !DriverDue(db, b) ==> DoAll(db, DriverMoves(b), b).db == db
  {
    if b.fare > 0 {
      DoOne(db, PayDriver, b);
      if FindKey(db.txns, "earning:" + b.job).None? {
        PaysDriver(db, b);
      } else if Payable(b) {
        UsedKeyPaidDriver(db, b);
      } else {
        UnpayableIsRefused(db, b);
      }
    }
  }

  lemma UnpayableIsRefused(db: Db, b: Bill)
    requires b.fare > 0 && RateAllowed(b) && !Payable(b)
    ensures Do(db, PayDriver, b).Err?
  {
    if b.rate.Some? && Commission(b.fare, b.rate.value).Ok? {
      CommissionStaysWithinTheFare(b.fare, b.rate.value);
      EarningSplitsTheGross(b.fare, Kept(b), b.driver, b.job);
    }
  }

  /** Completing a settled job again, at any later time and with whatever bill is read then, moves money if
      and only if the new bill has goods or a payable fare whose movement nothing has posted for this job. */
  lemma RepeatMovesMoneyExactlyWhen(db: Db, b: Bill, b2: Bill, steps: seq<Step>)
    requires Sound(db) && AllAllowed(steps) && SameJob(b, b2) && Billable(b2)
    requires DoAll(db, Moves(b), b).error.None?
    ensures var later := Run(DoAll(db, Moves(b), b).db, steps);
            && (DoAll(later, Moves(b2), b2).db != later <==> ShopDue(later, b2) || DriverDue(later, b2))
            && (b.basket.goods > 0 ==> !ShopDue(later, b2))
            && (b.fare > 0 ==> !DriverDue(later, b2))
  {
    var settled := DoAll(db, Moves(b), b).db;
    var later := Run(settled, steps);
    AllDone(db, Moves(b), b);
    RunKeeps(settled, steps);
    forall m | m in Moves(b) ensures Done(later, m, b) {
      DoneStaysDone(settled, m, b, later);
    }
    DoneUsesKey(later, b);
    assert b.basket.goods > 0 ==> PayShop in Moves(b);
    assert b.fare > 0 ==> PayDriver in Moves(b);
    forall m | m in CashMoves(b2) ensures Done(later, m, b2) {
      assert m in Moves(b);
      CashDoneForAnother(later, m, b, b2);
    }
    DoneMovesChangeNothing(later, CashMoves(b2), ShopMoves(b2) + DriverMoves(b2), b2);
    DoAllSplits(later, ShopMoves(b2), DriverMoves(b2), b2);
    ShopStage(later, b2);
    var sold := DoAll(later, ShopMoves(b2), b2).db;
    DriverStage(sold, b2);
    if !ShopDue(later, b2) {
      assert sold == later;
    } else {
      assert |DoAll(sold, DriverMoves(b2), b2).db.txns| >= |sold.txns| > |later.txns|;
    }
  }

  // --- what the two attempts write together ---------------------------------------------------------

  function EntriesOf(m: Move, b: Bill): seq<seq<Entry>> {
    match m
    case OpenIntent => []
    case TakeCash => [CaptureEntries(b)]
    case Collect => [CollectionEntries(b)]
    case PayShop => [SaleEntries(b)]
    case PayDriver =>
      var earning := DriverEarning(b.fare, Kept(b), b.driver, b.job);
      if earning.Ok? then [earning.value.entries] else []
  }

  function EntriesOfAll(moves: seq<Move>, b: Bill): seq<seq<Entry>> {
    if moves == [] then [] else EntriesOf(moves[0], b) + EntriesOfAll(moves[1..], b)
  }

  lemma EntriesStart(m: Move, rest: seq<Move>, b: Bill)
    ensures EntriesOfAll([m] + rest, b) == EntriesOf(m, b) + EntriesOfAll(rest, b)
  {
    assert ([m] + rest)[1..] == rest;
  }

  lemma Regroup(x: seq<seq<Entry>>, y: seq<seq<Entry>>, z: seq<seq<Entry>>)
    ensures x + (y + z) == (x + y) + z
  {
  }

  lemma {:induction false} EntriesOfBoth(moves: seq<Move>, rest: seq<Move>, b: Bill)
    ensures EntriesOfAll(moves + rest, b) == EntriesOfAll(moves, b) + EntriesOfAll(rest, b)
  {
    if moves == [] {
      assert moves + rest == rest;
    } else {
      var m, others := moves[0], moves[1..];
      assert moves + rest == [m] + (others + rest) && moves == [m] + others;
      EntriesOfBoth(others, rest, b);
      EntriesStart(m, others + rest, b);
      EntriesStart(m, others, b);
      Regroup(EntriesOf(m, b), EntriesOfAll(others, b), EntriesOfAll(rest, b));
    }
  }

  lemma EntriesOfOne(m: Move, b: Bill)
    ensures EntriesOfAll([m], b) == EntriesOf(m, b)
  {
    assert [m][1..] == [];
  }

  /** No row is posted for the job's goods or its driver yet. */
  predicate TailFree(db: Db, b: Bill, tail: seq<Move>) {
    && (PayShop in tail ==> FindKey(db.txns, "goods:" + b.job).None?)
    && (PayDriver in tail ==> FindKey(db.txns, "earning:" + b.job).None?)
  }

  predicate IsTail(tail: seq<Move>, b: Bill) {
    && (tail == [] || tail == [PayShop] || tail == [PayDriver] || tail == [PayShop, PayDriver])
    && (PayShop in tail ==> b.basket.goods > 0)
    && (PayDriver in tail ==> b.fare > 0 && RateAllowed(b) && Payable(b))
  }

  lemma ShopWrites(db: Db, b: Bill)
    requires b.basket.goods > 0 && FindKey(db.txns, "goods:" + b.job).None?
    ensures var out := DoAll(db, [PayShop], b);
            && out.error.None? && Wrote(out.db, db, EntriesOfAll([PayShop], b))
            && (FindKey(db.txns, "earning:" + b.job).None? ==> FindKey(out.db.txns, "earning:" + b.job).None?)
  {
    PaysShop(db, b);
    DoOne(db, PayShop, b);
    EntriesOfOne(PayShop, b);
    KeysDiffer(b.job);
    FindKeyAppend(db.txns, Do(db, PayShop, b).value.txns[|db.txns|], "earning:" + b.job);
  }

  lemma DriverWrites(db: Db, b: Bill)
    requires b.fare > 0 && RateAllowed(b) && Payable(b) && FindKey(db.txns, "earning:" + b.job).None?
    ensures var out := DoAll(db, [PayDriver], b);
            && out.error.None? && Wrote(out.db, db, EntriesOfAll([PayDriver], b))
            && (FindKey(db.txns, "goods:" + b.job).None? ==> FindKey(out.db.txns, "goods:" + b.job).None?)
  {
    PaysDriver(db, b);
    DoOne(db, PayDriver, b);
    EntriesOfOne(PayDriver, b);
    KeysDiffer(b.job);
    FindKeyAppend(db.txns, Do(db, PayDriver, b).value.txns[|db.txns|], "goods:" + b.job);
  }

  /** Shop and driver moves whose keys are free all go through, each writing its row. */
  lemma TailWrites(db: Db, tail: seq<Move>, b: Bill)
    requires IsTail(tail, b) && TailFree(db, b, tail)
    ensures var out := DoAll(db, tail, b);
            && out.error.None? && Wrote(out.db, db, EntriesOfAll(tail, b))
            && (PayShop !in tail && FindKey(db.txns, "goods:" + b.job).None? ==> FindKey(out.db.txns, "goods:" + b.job).None?)
            && (PayDriver !in tail && FindKey(db.txns, "earning:" + b.job).None? ==> FindKey(out.db.txns, "earning:" + b.job).None?)
  {
    if tail == [PayShop, PayDriver] {
      ShopWrites(db, b);
      var sold := DoAll(db, [PayShop], b).db;
      assert PayDriver in tail && PayShop in tail;
      DriverWrites(sold, b);
      assert [PayShop] + [PayDriver] == tail;
      DoAllSplits(db, [PayShop], [PayDriver], b);
      EntriesOfBoth([PayShop], [PayDriver], b);
      WroteInTurn(db, sold, DoAll(sold, [PayDriver], b).db, EntriesOfAll([PayShop], b), EntriesOfAll([PayDriver], b));
    } else if tail == [PayShop] {
      ShopWrites(db, b);
    } else if tail == [PayDriver] {
      DriverWrites(db, b);
    }
  }

  // --- an interrupted settlement and its retry --------------------------------------------------------

  predicate BothFree(db: Db, b: Bill) {
    FindKey(db.txns, "goods:" + b.job).None? && FindKey(db.txns, "earning:" + b.job).None?
  }

  /** Stopped before anything, or with only the intent open. */
  lemma OpenedForAnother(db: Db, b: Bill, b2: Bill)
    requires Sound(db) && Fresh(db, b) && SameJob(b, b2) && WellFormed(b) && WellFormed(b2)
    ensures Do(db, OpenIntent, b).Ok?
    ensures
      var asked := Do(db, OpenIntent, b).value;
      && asked.txns == db.txns && Sound(asked)
      && (b2.total > b.total ==> Do(asked, TakeCash, b2) == Err(BadIntent))
      && (b2.total <= b.total ==>
            && Do(asked, TakeCash, b2).Ok?
            && var taken := Do(asked, TakeCash, b2).value;
               && Wrote(taken, db, [CaptureEntries(b2)]) && IntentOf(taken, b2).Some?
               && |taken.txns| == |db.txns| + 1 && taken.txns[|db.txns|].key == "")
  {
    OpensAndTakes(db, b);
    var asked := Do(db, OpenIntent, b).value;
    DoKeepsBooks(db, OpenIntent, b);
    var i := |db.intents|;
    IntentFoundIs(asked, i, b.requester, "fare:" + b.job);
    CaptureTakenExactlyWhenOpen(asked, i, b2.total);
    if b2.total <= b.total {
      DoKeepsBooks(asked, TakeCash, b2);
      IntentStays(asked, Do(asked, TakeCash, b2).value, b2);
    }
  }

  /** A row under no key takes no key. */
  lemma UnkeyedRowTakesNoKey(db: Db, taken: Db, b: Bill)
    requires |taken.txns| == |db.txns| + 1 && db.txns <= taken.txns && taken.txns[|db.txns|].key == ""
    requires FindKey(db.txns, "cod:" + b.job).None? && BothFree(db, b)
    ensures FindKey(taken.txns, "cod:" + b.job).None? && BothFree(taken, b)
  {
    assert taken.txns == db.txns + [taken.txns[|db.txns|]];
    FindKeyAppend(db.txns, taken.txns[|db.txns|], "cod:" + b.job);
    FindKeyAppend(db.txns, taken.txns[|db.txns|], "goods:" + b.job);
    FindKeyAppend(db.txns, taken.txns[|db.txns|], "earning:" + b.job);
  }

  lemma CollectsFree(db: Db, b: Bill)
    requires WellFormed(b) && IntentOf(db, b).Some? && FindKey(db.txns, "cod:" + b.job).None? && BothFree(db, b)
    ensures var out := DoAll(db, [Collect], b);
            out.error.None? && Wrote(out.db, db, [CollectionEntries(b)]) && BothFree(out.db, b)
  {
    Collects(db, b);
    DoOne(db, Collect, b);
    var held := Do(db, Collect, b).value;
    KeysDiffer(b.job);
    FindKeyAppend(db.txns, held.txns[|db.txns|], "goods:" + b.job);
    FindKeyAppend(db.txns, held.txns[|db.txns|], "earning:" + b.job);
  }

  /** The cash moves, the first `k` for one bill and the rest for another. */
  predicate CashTaken(db: Db, b: Bill, b2: Bill, k: nat)
    requires k <= 3
  {
    var first := DoAll(db, CashMoves(b)[..k], b);
    var out := DoAll(first.db, CashMoves(b2)[k..], b2);
    && first.error.None? && out.error.None? && BothFree(out.db, b2)
    && Wrote(out.db, db, EntriesOfAll(CashMoves(b)[..k], b) + EntriesOfAll(CashMoves(b2)[k..], b2))
  }

  lemma CashEntries(b: Bill)
    ensures EntriesOfAll(CashMoves(b), b) == CashWritten(b)
    ensures EntriesOfAll([TakeCash, Collect], b) == CashWritten(b)
    ensures EntriesOfAll([Collect], b) == [CollectionEntries(b)]
    ensures EntriesOfAll([OpenIntent, TakeCash], b) == [CaptureEntries(b)]
    ensures EntriesOfAll([OpenIntent], b) == []
  {
    EntriesOfOne(OpenIntent, b);
    EntriesOfOne(TakeCash, b);
    EntriesOfOne(Collect, b);
    EntriesStart(TakeCash, [Collect], b);
    assert [TakeCash] + [Collect] == [TakeCash, Collect];
    assert [CaptureEntries(b)] + [CollectionEntries(b)] == CashWritten(b);
    EntriesStart(OpenIntent, [TakeCash, Collect], b);
    assert [OpenIntent] + [TakeCash, Collect] == CashMoves(b);
    EntriesStart(OpenIntent, [TakeCash], b);
    assert [OpenIntent] + [TakeCash] == [OpenIntent, TakeCash];
  }

  lemma CashFromTheStart(db: Db, b: Bill, b2: Bill, k: nat)
    requires Sound(db) && Fresh(db, b) && SameJob(b, b2) && WellFormed(b) && WellFormed(b2) && (k == 0 || k == 3)
    ensures CashTaken(db, b, b2, k)
  {
    CashIsCollected(db, b);
    CashIsCollected(db, b2);
    CashEntries(b);
    CashEntries(b2);
    assert CashMoves(b)[..0] == [] && CashMoves(b2)[0..] == CashMoves(b2);
    assert CashMoves(b)[..3] == CashMoves(b) && CashMoves(b2)[3..] == [];
    assert [] + CashWritten(b2) == CashWritten(b2) && CashWritten(b) + [] == CashWritten(b);
  }

  lemma CashFromTheIntent(db: Db, b: Bill, b2: Bill, k: nat)
    requires Sound(db) && Fresh(db, b) && SameJob(b, b2) && WellFormed(b) && WellFormed(b2) && k == 1
    ensures b2.total <= b.total ==> CashTaken(db, b, b2, k)
    ensures b2.total > b.total ==>
      var asked := DoAll(db, CashMoves(b)[..k], b).db;
      DoAll(asked, CashMoves(b2)[k..], b2) == Outcome(asked, Some(BadIntent)) && asked.txns == db.txns
  {
    OpenedForAnother(db, b, b2);
    DoOne(db, OpenIntent, b);
    assert CashMoves(b)[..1] == [OpenIntent] && CashMoves(b2)[1..] == [TakeCash] + [Collect];
    var asked := Do(db, OpenIntent, b).value;
    DoAllStarts(asked, TakeCash, [Collect], b2);
    if b2.total <= b.total {
      var taken := Do(asked, TakeCash, b2).value;
      UnkeyedRowTakesNoKey(db, taken, b2);
      CollectsFree(taken, b2);
      var held := DoAll(taken, [Collect], b2).db;
      WroteInTurn(db, taken, held, [CaptureEntries(b2)], [CollectionEntries(b2)]);
      CashEntries(b);
      CashEntries(b2);
      assert [TakeCash] + [Collect] == [TakeCash, Collect];
      assert [] + CashWritten(b2) == [CaptureEntries(b2)] + [CollectionEntries(b2)];
    }
  }

  lemma CashFromTheCapture(db: Db, b: Bill, b2: Bill, k: nat)
    requires Sound(db) && Fresh(db, b) && SameJob(b, b2) && WellFormed(b) && WellFormed(b2) && k == 2
    ensures CashTaken(db, b, b2, k)
  {
    OpenedForAnother(db, b, b);
    var asked := Do(db, OpenIntent, b).value;
    var taken := Do(asked, TakeCash, b).value;
    assert CashMoves(b)[..2] == [OpenIntent] + [TakeCash] && CashMoves(b2)[2..] == [Collect];
    DoAllStarts(db, OpenIntent, [TakeCash], b);
    DoOne(asked, TakeCash, b);
    UnkeyedRowTakesNoKey(db, taken, b);
    CollectsFree(taken, b2);
    var held := DoAll(taken, [Collect], b2).db;
    WroteInTurn(db, taken, held, [CaptureEntries(b)], [CollectionEntries(b2)]);
    CashEntries(b);
    CashEntries(b2);
    assert [OpenIntent] + [TakeCash] == [OpenIntent, TakeCash];
  }

  /** The intent is open, uncaptured, for less than the retry asks. */
  predicate OutgrewItsIntent(b: Bill, b2: Bill, k: nat) {
    k == 1 && b2.total > b.total
  }

  lemma CashIsMixed(db: Db, b: Bill, b2: Bill, k: nat)
    requires Sound(db) && Fresh(db, b) && SameJob(b, b2) && WellFormed(b) && WellFormed(b2) && k <= 3
    requires !OutgrewItsIntent(b, b2, k)
    ensures CashTaken(db, b, b2, k)
  {
    if k == 1 {
      CashFromTheIntent(db, b, b2, k);
    } else if k == 2 {
      CashFromTheCapture(db, b, b2, k);
    } else {
      CashFromTheStart(db, b, b2, k);
    }
  }

  // --- the moves in two lists ---------------------------------------------------------------------------

  function Tail(b: Bill): seq<Move> {
    ShopMoves(b) + DriverMoves(b)
  }

  /** The shop and driver moves among the first `k`. */
  function TailMade(b: Bill, k: nat): seq<Move>
    requires k <= |Moves(b)|
  {
    if k <= 3 then [] else Tail(b)[..k - 3]
  }

  function Least(k: nat): nat {
    if k <= 3 then k else 3
  }

  lemma MadeInParts(b: Bill, b2: Bill, k: nat)
    requires k <= |Moves(b)|
    ensures Moves(b)[..k] == CashMoves(b)[..Least(k)] + TailMade(b, k)
    ensures Left(Moves(b2), Moves(b)[..k]) == CashMoves(b2)[Least(k)..] + Left(Tail(b2), TailMade(b, k))
  {
    var made := Moves(b)[..k];
    assert made == CashMoves(b)[..Least(k)] + TailMade(b, k);
    LeftOfBoth(CashMoves(b2), Tail(b2), made);
    LeftOfCash(b, b2, k);
    LeftOnlyLooksAt(Tail(b2), made, TailMade(b, k));
  }

  lemma LeftStarts(m: Move, rest: seq<Move>, made: seq<Move>)
    ensures Left([m] + rest, made) == (if m in made then [] else [m]) + Left(rest, made)
  {
    assert ([m] + rest)[1..] == rest;
  }

  lemma {:induction false} LeftOfBoth(moves: seq<Move>, rest: seq<Move>, made: seq<Move>)
    ensures Left(moves + rest, made) == Left(moves, made) + Left(rest, made)
  {
    if moves == [] {
      assert moves + rest == rest;
    } else {
      var m, others := moves[0], moves[1..];
      assert moves + rest == [m] + (others + rest) && moves == [m] + others;
      LeftOfBoth(others, rest, made);
      LeftStarts(m, others + rest, made);
      LeftStarts(m, others, made);
    }
  }

  lemma {:induction false} LeftOnlyLooksAt(moves: seq<Move>, made: seq<Move>, made2: seq<Move>)
    requires forall m :: m in moves ==> (m in made <==> m in made2)
    ensures Left(moves, made) == Left(moves, made2)
  {
    if moves != [] {
      assert moves[0] in moves && forall m :: m in moves[1..] ==> m in moves;
      LeftOnlyLooksAt(moves[1..], made, made2);
    }
  }

  lemma LeftOfCash(b: Bill, b2: Bill, k: nat)
    requires k <= |Moves(b)|
    ensures Left(CashMoves(b2), Moves(b)[..k]) == CashMoves(b2)[Least(k)..]
  {
    var made := Moves(b)[..k];
    var moves := CashMoves(b2);
    assert OpenIntent in made <==> k >= 1 by { if k >= 1 { assert made[0] == OpenIntent; } }
    assert TakeCash in made <==> k >= 2 by { if k >= 2 { assert made[1] == TakeCash; } }
    assert Collect in made <==> k >= 3 by { if k >= 3 { assert made[2] == Collect; } }
    assert moves[1..] == [TakeCash, Collect] && moves[1..][1..] == [Collect] && [Collect][1..] == [];
    assert Left([Collect], made) == if k >= 3 then [] else [Collect];
    assert Left([TakeCash, Collect], made) == (if k >= 2 then [] else [TakeCash]) + Left([Collect], made);
  }
}
