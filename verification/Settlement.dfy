/** Settling a finished job in cash: the customer's debt created and discharged, the shop credited and the
    driver paid, in movements that can be interrupted anywhere and tried again. */
module Settlement {
  import opened Common
  import opened Money
  import opened Ledger
  import opened Books
  import opened BooksInvariant
  import opened BooksSafety

  datatype Job = Job(id: Id, completed: bool, driver: Id, requester: Id)
  datatype Basket = Basket(goods: Amount, merchant: Id, order: Id)
  datatype Breakdown = Breakdown(fare: Amount, goods: Amount, total: Amount, commission: int, net: int)

  /** What one settlement works from: the locked price, the basket behind the delivery and the rate. */
  datatype Bill = Bill(job: Id, driver: Id, requester: Id, fare: Amount, basket: Basket, total: Amount, rate: Option<Rate>)

  const NO_BASKET := Basket(0, "", "")

  datatype Move = OpenIntent | TakeCash | Collect | PayShop | PayDriver

  predicate WellFormed(b: Bill) {
    && b.job != "" && b.driver != "" && b.fare >= 0
    && b.total == b.fare + b.basket.goods && b.total > 0
  }

  function CashMoves(b: Bill): seq<Move> {
    [OpenIntent, TakeCash, Collect]
  }

  function ShopMoves(b: Bill): seq<Move> {
    if b.basket.goods > 0 then [PayShop] else []
  }

  function DriverMoves(b: Bill): seq<Move> {
    if b.fare > 0 then [PayDriver] else []
  }

  function Moves(b: Bill): seq<Move> {
    CashMoves(b) + (ShopMoves(b) + DriverMoves(b))
  }

  function CashIntent(b: Bill): Intent {
    NewIntent(b.job, "", b.requester, b.total, "fare:" + b.job)
  }

  function IntentOf(db: Db, b: Bill): Option<nat> {
    FindIntent(db.intents, b.requester, "fare:" + b.job)
  }

  function Keyed(t: Result<Txn, Error>, key: string, intent: Option<nat>): Result<Txn, Error> {
    match t
    case Err(e) => Err(e)
    case Ok(m) => Ok(m.(key := key, intent := intent))
  }

  /** The keyed movement a move posts. */
  function MovementOf(db: Db, m: Move, b: Bill): Result<Txn, Error>
    requires m in {Collect, PayShop, PayDriver}
  {
    match m
    case Collect =>
      (match IntentOf(db, b)
       case None => Err(NotFound)
       case Some(i) => Keyed(CashCollection(b.total, b.driver, b.requester, b.job), "cod:" + b.job, Some(i)))
    case PayShop =>
      Keyed(MerchantSale(b.basket.goods, 0, b.basket.merchant, b.basket.order, b.job), "goods:" + b.job, None)
    case PayDriver =>
      if b.rate.None? then Err(NoCommission)
      else
        match Commission(b.fare, b.rate.value)
        case Err(_) => Err(TooLarge)
        case Ok(kept) => Keyed(DriverEarning(b.fare, kept, b.driver, b.job), "earning:" + b.job, None)
  }

  /** The operation a move asks of the books, if the move gets that far. */
  function StepOf(db: Db, m: Move, b: Bill): Result<Step, Error> {
    match m
    case OpenIntent => Ok(CreateStep(CashIntent(b)))
    case TakeCash =>
      (match IntentOf(db, b)
       case None => Err(NotFound)
       case Some(i) => Ok(CaptureStep(i, b.total)))
    case _ =>
      match MovementOf(db, m, b)
      case Err(e) => Err(e)
      case Ok(t) => Ok(PostStep(t))
  }

  function Refusal(db: Db, s: Step): Option<Error> {
    match s
    case CreateStep(asked) => (match CreateIntentAnswer(db, asked) case Err(e) => Some(e) case Ok(_) => None)
    case CaptureStep(i, amount) => CaptureAnswer(db, i, amount)
    case PostStep(t) => (match PostAnswer(db, t) case Err(e) => Some(e) case Ok(_) => None)
    case _ => None
  }

  /** One move. An intent already captured is not a failure: an earlier attempt got this far. */
  function Do(db: Db, m: Move, b: Bill): Result<Db, Error> {
    match StepOf(db, m, b)
    case Err(e) => Err(e)
    case Ok(s) =>
      match Refusal(db, s)
      case None => Ok(Apply(db, s))
      case Some(e) => if m.TakeCash? && e.AlreadyCaptured? then Ok(db) else Err(e)
  }

  datatype Outcome = Outcome(db: Db, error: Option<Error>)

  /** Moves in order until one is refused; what was committed before it stays. */
  function DoAll(db: Db, moves: seq<Move>, b: Bill): Outcome
    decreases |moves|
  {
    if moves == [] then Outcome(db, None)
    else
      match Do(db, moves[0], b)
      case Err(e) => Outcome(db, Some(e))
      case Ok(next) => DoAll(next, moves[1..], b)
  }

  lemma DoOne(db: Db, m: Move, b: Bill)
    ensures DoAll(db, [m], b) == match Do(db, m, b) case Ok(next) => Outcome(next, None) case Err(e) => Outcome(db, Some(e))
  {
  }

  /** The three cash moves, one after the other. */
  function CashInTurn(db: Db, b: Bill): Outcome {
    match Do(db, OpenIntent, b)
    case Err(e) => Outcome(db, Some(e))
    case Ok(asked) =>
      match Do(asked, TakeCash, b)
      case Err(e) => Outcome(asked, Some(e))
      case Ok(taken) =>
        match Do(taken, Collect, b)
        case Err(e) => Outcome(taken, Some(e))
        case Ok(held) => Outcome(held, None)
  }

  lemma CashMovesInTurn(db: Db, b: Bill)
    ensures DoAll(db, CashMoves(b), b) == CashInTurn(db, b)
  {
  }

  /** A whole settlement: the cash, then the shop, then the driver, as far as it gets. */
  function InTurn(db: Db, b: Bill): Outcome {
    var cash := DoAll(db, CashMoves(b), b);
    if cash.error.Some? then cash
    else
      var shop := DoAll(cash.db, ShopMoves(b), b);
      if shop.error.Some? then shop else DoAll(shop.db, DriverMoves(b), b)
  }

  lemma MovesInTurn(db: Db, b: Bill)
    ensures DoAll(db, Moves(b), b) == InTurn(db, b)
  {
    DoAllSplits(db, CashMoves(b), ShopMoves(b) + DriverMoves(b), b);
    DoAllSplits(DoAll(db, CashMoves(b), b).db, ShopMoves(b), DriverMoves(b), b);
  }

  // --- a move done stays done ---------------------------------------------------------------------

  /** The move has taken effect: making it again is accepted and changes nothing. */
  predicate Done(db: Db, m: Move, b: Bill) {
    Do(db, m, b) == Ok(db)
  }

  lemma DoKeepsBooks(db: Db, m: Move, b: Bill)
    requires Sound(db) && Do(db, m, b).Ok?
    ensures Sound(Do(db, m, b).value) && Extends(Do(db, m, b).value, db)
  {
    if Refusal(db, StepOf(db, m, b).value).None? {
      StepKeeps(db, StepOf(db, m, b).value);
    }
  }

  lemma IntentFoundIs(db: Db, i: nat, customer: Id, key: string)
    requires IntentsSound(db) && i < |db.intents| && key != ""
    requires db.intents[i].customer == customer && db.intents[i].key == key
    ensures FindIntent(db.intents, customer, key) == Some(i)
  {
  }

  lemma IntentStays(db: Db, after: Db, b: Bill)
    requires IntentsSound(db) && IntentsSound(after) && Extends(after, db) && IntentOf(db, b).Some?
    ensures IntentOf(after, b) == IntentOf(db, b)
  {
  }

  lemma DoneOnceDone(db: Db, m: Move, b: Bill)
    requires Sound(db) && Do(db, m, b).Ok?
    ensures Done(Do(db, m, b).value, m, b)
  {
    var after := Do(db, m, b).value;
    DoKeepsBooks(db, m, b);
    match m
    case OpenIntent =>
      if after != db {
        IntentFoundIs(after, |db.intents|, b.requester, "fare:" + b.job);
      }
    case TakeCash =>
      IntentStays(db, after, b);
    case _ =>
      if after != db {
        if m.Collect? {
          IntentStays(db, after, b);
        }
        var t := MovementOf(db, m, b).value;
        assert after.txns[|db.txns|].key == t.key;
        FindKeyIs(after, |db.txns|);
      }
  }

  lemma DoneStaysDone(db: Db, m: Move, b: Bill, after: Db)
    requires Sound(db) && Sound(after) && Extends(after, db) && Done(db, m, b)
    ensures Done(after, m, b)
  {
    match m
    case OpenIntent =>
      IntentStays(db, after, b);
    case TakeCash =>
      IntentStays(db, after, b);
      var i := IntentOf(db, b).value;
      assert Follows(after.intents[i], db.intents[i]);
      if CaptureAnswer(db, i, b.total).None? {
        assert false;
      }
    case _ =>
      if m.Collect? {
        IntentStays(db, after, b);
      }
      var t := MovementOf(db, m, b).value;
      if !AlreadyPosted(db, t) {
        assert false;
      }
      var r := FindKey(db.txns, t.key).value;
      assert after.txns[r] == db.txns[r];
      FindKeyIs(after, r);
  }

  lemma ExtendsTransitively(a: Db, b: Db, c: Db)
    requires Extends(b, a) && Extends(c, b)
    ensures Extends(c, a)
  {
  }

  /** Every move made without a refusal is done in the state it led to. */
  lemma {:induction false} AllDone(db: Db, moves: seq<Move>, b: Bill)
    requires Sound(db) && DoAll(db, moves, b).error.None?
    ensures var after := DoAll(db, moves, b).db;
            && Sound(after) && Extends(after, db)
            && forall m :: m in moves ==> Done(after, m, b)
    decreases |moves|
  {
    if moves != [] {
      var next := Do(db, moves[0], b).value;
      DoKeepsBooks(db, moves[0], b);
      DoneOnceDone(db, moves[0], b);
      AllDone(next, moves[1..], b);
      var after := DoAll(db, moves, b).db;
      ExtendsTransitively(db, next, after);
      DoneStaysDone(next, moves[0], b, after);
      forall m | m in moves ensures Done(after, m, b) {
        if m != moves[0] {
          assert m in moves[1..];
        }
      }
    }
  }

  lemma {:induction false} DoneMovesChangeNothing(db: Db, moves: seq<Move>, rest: seq<Move>, b: Bill)
    requires forall m :: m in moves ==> Done(db, m, b)
    ensures DoAll(db, moves + rest, b) == DoAll(db, rest, b)
    decreases |moves|
  {
    if moves == [] {
      assert moves + rest == rest;
    } else {
      assert (moves + rest)[1..] == moves[1..] + rest;
      assert forall m :: m in moves[1..] ==> m in moves;
      assert moves[0] in moves && (moves + rest)[0] == moves[0];
      DoneMovesChangeNothing(db, moves[1..], rest, b);
    }
  }

  lemma {:induction false} DoAllSplits(db: Db, moves: seq<Move>, rest: seq<Move>, b: Bill)
    ensures DoAll(db, moves + rest, b) ==
            if DoAll(db, moves, b).error.Some? then DoAll(db, moves, b)
            else DoAll(DoAll(db, moves, b).db, rest, b)
    decreases |moves|
  {
    if moves == [] {
      assert moves + rest == rest;
    } else {
      assert (moves + rest)[1..] == moves[1..] + rest;
      if Do(db, moves[0], b).Ok? {
        DoAllSplits(Do(db, moves[0], b).value, moves[1..], rest, b);
      }
    }
  }

  /** A settlement interrupted after any number of moves and tried again from the start, after anything
      else the books did meanwhile, makes just the moves that were missing. With nothing in between it ends
      in the very ledger an uninterrupted settlement would have left. */
  lemma RetryFinishesWhatWasStarted(db: Db, b: Bill, k: nat, steps: seq<Step>)
    requires Sound(db) && k <= |Moves(b)| && AllAllowed(steps)
    requires DoAll(db, Moves(b)[..k], b).error.None?
    ensures var interrupted := DoAll(db, Moves(b)[..k], b).db;
            var resumed := Run(interrupted, steps);
            && DoAll(resumed, Moves(b), b) == DoAll(resumed, Moves(b)[k..], b)
            && DoAll(interrupted, Moves(b), b) == DoAll(db, Moves(b), b)
  {
    var first, rest := Moves(b)[..k], Moves(b)[k..];
    assert first + rest == Moves(b);
    var interrupted := DoAll(db, first, b).db;
    AllDone(db, first, b);
    RunKeeps(interrupted, steps);
    var resumed := Run(interrupted, steps);
    forall m | m in first ensures Done(resumed, m, b) {
      DoneStaysDone(interrupted, m, b, resumed);
    }
    DoneMovesChangeNothing(resumed, first, rest, b);
    DoneMovesChangeNothing(interrupted, first, rest, b);
    DoAllSplits(db, first, rest, b);
  }

  /** A repeated completion moves no money: whatever happened since, refunds of the same fare included, a
      job settled once is settled for good. */
  lemma SettledIsSettled(db: Db, b: Bill, steps: seq<Step>)
    requires Sound(db) && AllAllowed(steps) && DoAll(db, Moves(b), b).error.None?
    ensures var later := Run(DoAll(db, Moves(b), b).db, steps);
            DoAll(later, Moves(b), b) == Outcome(later, None)
  {
    assert Moves(b)[..|Moves(b)|] == Moves(b) && Moves(b)[|Moves(b)|..] == [];
    RetryFinishesWhatWasStarted(db, b, |Moves(b)|, steps);
  }

  // --- what a settlement moves --------------------------------------------------------------------

  /** Nothing in the books is about this job yet. */
  predicate Fresh(db: Db, b: Bill) {
    && IntentOf(db, b).None?
    && !Clashes(db.intents, CashIntent(b))
    && FindKey(db.txns, "cod:" + b.job).None?
    && FindKey(db.txns, "goods:" + b.job).None?
    && FindKey(db.txns, "earning:" + b.job).None?
  }

  /** What the platform keeps of the fare; nothing when there is no fare. */
  function Kept(b: Bill): int {
    if b.fare > 0 && b.rate.Some? && Commission(b.fare, b.rate.value).Ok? then Commission(b.fare, b.rate.value).value else 0
  }

  /** The driver can be paid: there is no fare, or the rate leaves something of it. */
  predicate Payable(b: Bill) {
    b.fare > 0 ==> b.rate.Some? && Commission(b.fare, b.rate.value).Ok? && Commission(b.fare, b.rate.value).value < b.fare
  }

  predicate RateAllowed(b: Bill) {
    b.rate.Some? ==> 0 <= b.rate.value.bps <= BASIS && b.rate.value.flat >= 0
  }

  lemma KeysDiffer(job: Id)
    ensures "cod:" + job != "goods:" + job
    ensures "cod:" + job != "earning:" + job
    ensures "goods:" + job != "earning:" + job
  {
  }

  lemma FindKeyAppend(txns: seq<Txn>, t: Txn, key: string)
    ensures FindKey(txns + [t], key) == if t.key == key then Some(|txns|) else FindKey(txns, key)
  {
  }

  function CaptureEntries(b: Bill): seq<Entry> {
    [Debit(CustomerReceivable, b.total, Customer, b.requester), Credit(PlatformClearing, b.total, Platform, "")]
  }

  function CollectionEntries(b: Bill): seq<Entry> {
    [Debit(CashInTransit, b.total, Driver, b.driver), Credit(CustomerReceivable, b.total, Customer, b.requester)]
  }

  function SaleEntries(b: Bill): seq<Entry> {
    [Debit(PlatformClearing, b.basket.goods, Platform, ""),
     Credit(MerchantPayable, b.basket.goods, Merchant, b.basket.merchant)]
  }

  /** A row with these entries and key is the only thing a keyed move added. */
  predicate Added(after: Db, db: Db, es: seq<Entry>, key: string) {
    && after.intents == db.intents
    && |after.txns| == |db.txns| + 1
    && after.txns == db.txns + [after.txns[|db.txns|]]
    && after.txns[|db.txns|].entries == es && after.txns[|db.txns|].key == key
  }

  lemma OpensAndTakes(db: Db, b: Bill)
    requires Sound(db) && WellFormed(b) && Fresh(db, b)
    ensures Do(db, OpenIntent, b).Ok?
    ensures var asked := Do(db, OpenIntent, b).value;
            && Do(asked, TakeCash, b).Ok?
            && var taken := Do(asked, TakeCash, b).value;
               && |taken.txns| == |db.txns| + 1 && taken.txns == db.txns + [taken.txns[|db.txns|]]
               && taken.txns[|db.txns|].entries == CaptureEntries(b) && taken.txns[|db.txns|].key == ""
               && IntentOf(taken, b).Some? && IntentOf(taken, b).value < |taken.intents|
               && Sound(taken)
  {
    var asked := Do(db, OpenIntent, b).value;
    DoKeepsBooks(db, OpenIntent, b);
    var i := |db.intents|;
    IntentFoundIs(asked, i, b.requester, "fare:" + b.job);
    CaptureTakenExactlyWhenOpen(asked, i, b.total);
    DoKeepsBooks(asked, TakeCash, b);
    IntentStays(asked, Do(asked, TakeCash, b).value, b);
  }

  lemma Collects(db: Db, b: Bill)
    requires WellFormed(b) && IntentOf(db, b).Some? && FindKey(db.txns, "cod:" + b.job).None?
    ensures Do(db, Collect, b).Ok? && Added(Do(db, Collect, b).value, db, CollectionEntries(b), "cod:" + b.job)
  {
    var es := CollectionEntries(b);
    PairBalances(CashCollected, b.job, "", None, es[0], es[1]);
    CheckIsExactUpTo2048(es);
  }

  lemma PaysShop(db: Db, b: Bill)
    requires b.basket.goods > 0 && FindKey(db.txns, "goods:" + b.job).None?
    ensures Do(db, PayShop, b).Ok? && Added(Do(db, PayShop, b).value, db, SaleEntries(b), "goods:" + b.job)
  {
    var es := SaleEntries(b);
    PairBalances(Earning, b.job, b.basket.order, None, es[0], es[1]);
    CheckIsExactUpTo2048(es);
    assert es + [] == es;
  }

  lemma PaysDriver(db: Db, b: Bill)
    requires b.fare > 0 && FindKey(db.txns, "earning:" + b.job).None? && RateAllowed(b)
    ensures Do(db, PayDriver, b).Ok? <==> Payable(b)
    ensures Payable(b) ==>
      var earning := DriverEarning(b.fare, Kept(b), b.driver, b.job);
      && earning.Ok? && Balanced(earning.value.entries)
      && Added(Do(db, PayDriver, b).value, db, earning.value.entries, "earning:" + b.job)
  {
    if b.rate.Some? && Commission(b.fare, b.rate.value).Ok? {
      CommissionStaysWithinTheFare(b.fare, b.rate.value);
      EarningSplitsTheGross(b.fare, Kept(b), b.driver, b.job);
    }
  }

  function EffectOfAll(ess: seq<seq<Entry>>, q: Query): int {
    if ess == [] then 0 else EffectOfAll(ess[..|ess| - 1], q) + Effect(ess[|ess| - 1], q)
  }

  /** The ledger after a fresh settlement is the ledger before it and these movements. */
  predicate Wrote(after: Db, db: Db, ess: seq<seq<Entry>>) {
    && |after.txns| == |db.txns| + |ess|
    && db.txns <= after.txns
    && forall k :: 0 <= k < |ess| ==> after.txns[|db.txns| + k].entries == ess[k]
  }

  lemma {:induction false} WroteMoves(after: Db, db: Db, ess: seq<seq<Entry>>, q: Query)
    requires Wrote(after, db, ess)
    ensures Holds(after.txns, q) == Holds(db.txns, q) + EffectOfAll(ess, q)
    decreases |ess|
  {
    if ess == [] {
      assert after.txns == db.txns;
    } else {
      var less := after.(txns := after.txns[..|after.txns| - 1]);
      WroteMoves(less, db, ess[..|ess| - 1], q);
      assert after.txns == less.txns + [after.txns[|after.txns| - 1]];
    }
  }

  function CashWritten(b: Bill): seq<seq<Entry>> {
    [CaptureEntries(b), CollectionEntries(b)]
  }

  function ShopWritten(b: Bill): seq<seq<Entry>> {
    if b.basket.goods > 0 then [SaleEntries(b)] else []
  }

  function DriverWritten(b: Bill): seq<seq<Entry>> {
    if b.fare > 0 && DriverEarning(b.fare, Kept(b), b.driver, b.job).Ok?
    then [DriverEarning(b.fare, Kept(b), b.driver, b.job).value.entries]
    else []
  }

  /** The entries a whole settlement writes, in order. */
  function Written(b: Bill): seq<seq<Entry>> {
    CashWritten(b) + ShopWritten(b) + DriverWritten(b)
  }

  /** A fresh job's cash is always collected: the first three moves cannot be refused. */
  lemma CashIsCollected(db: Db, b: Bill)
    requires Sound(db) && WellFormed(b) && Fresh(db, b)
    ensures
      var three := DoAll(db, CashMoves(b), b);
      && three.error.None? && Wrote(three.db, db, CashWritten(b))
      && FindKey(three.db.txns, "goods:" + b.job).None? && FindKey(three.db.txns, "earning:" + b.job).None?
  {
    OpensAndTakes(db, b);
    var asked := Do(db, OpenIntent, b).value;
    var taken := Do(asked, TakeCash, b).value;
    KeysDiffer(b.job);
    FindKeyAppend(db.txns, taken.txns[|db.txns|], "cod:" + b.job);
    FindKeyAppend(db.txns, taken.txns[|db.txns|], "goods:" + b.job);
    FindKeyAppend(db.txns, taken.txns[|db.txns|], "earning:" + b.job);
    Collects(taken, b);
    var held := Do(taken, Collect, b).value;
    FindKeyAppend(taken.txns, held.txns[|taken.txns|], "goods:" + b.job);
    FindKeyAppend(taken.txns, held.txns[|taken.txns|], "earning:" + b.job);
    CashMovesInTurn(db, b);
  }

  lemma ShopIsPaid(db: Db, b: Bill)
    requires FindKey(db.txns, "goods:" + b.job).None? && FindKey(db.txns, "earning:" + b.job).None?
    ensures var paid := DoAll(db, ShopMoves(b), b);
            && paid.error.None? && FindKey(paid.db.txns, "earning:" + b.job).None?
            && Wrote(paid.db, db, ShopWritten(b))
  {
    if b.basket.goods > 0 {
      PaysShop(db, b);
      DoOne(db, PayShop, b);
      KeysDiffer(b.job);
      var paid := Do(db, PayShop, b).value;
      FindKeyAppend(db.txns, paid.txns[|db.txns|], "earning:" + b.job);
    }
  }

  lemma WroteInTurn(a: Db, b: Db, c: Db, first: seq<seq<Entry>>, then_: seq<seq<Entry>>)
    requires Wrote(b, a, first) && Wrote(c, b, then_)
    ensures Wrote(c, a, first + then_)
  {
  }

  lemma DriverIsPaid(db: Db, b: Bill)
    requires b.fare >= 0 && FindKey(db.txns, "earning:" + b.job).None? && RateAllowed(b)
    ensures var paid := DoAll(db, DriverMoves(b), b);
            && (paid.error.None? <==> Payable(b))
            && (Payable(b) ==> Wrote(paid.db, db, DriverWritten(b)))
            && (!Payable(b) ==> paid.db == db)
  {
    if b.fare > 0 {
      PaysDriver(db, b);
      DoOne(db, PayDriver, b);
    }
  }

  /** A fresh settlement succeeds exactly when the rate leaves the driver something of the fare. Either way
      the cash has been collected and the shop credited by then. */
  lemma FreshJobSettlesExactlyWhenPayable(db: Db, b: Bill)
    requires Sound(db) && WellFormed(b) && Fresh(db, b) && RateAllowed(b)
    ensures var out := DoAll(db, Moves(b), b);
            && (out.error.None? <==> Payable(b))
            && Wrote(out.db, db, if Payable(b) then Written(b) else CashWritten(b) + ShopWritten(b))
  {
    MovesInTurn(db, b);
    CashIsCollected(db, b);
    var three := DoAll(db, CashMoves(b), b).db;
    ShopIsPaid(three, b);
    var four := DoAll(three, ShopMoves(b), b).db;
    DriverIsPaid(four, b);
    WroteInTurn(db, three, four, CashWritten(b), ShopWritten(b));
    if Payable(b) {
      WroteInTurn(db, four, DoAll(four, DriverMoves(b), b).db, CashWritten(b) + ShopWritten(b), DriverWritten(b));
    }
  }

  lemma {:induction false} RefusedMoveStopsAll(db: Db, moves: seq<Move>, m: Move, b: Bill)
    requires m in moves && forall any: Db :: Do(any, m, b).Err?
    ensures DoAll(db, moves, b).error.Some?
    decreases |moves|
  {
    if moves[0] != m && Do(db, moves[0], b).Ok? {
      RefusedMoveStopsAll(Do(db, moves[0], b).value, moves[1..], m, b);
    }
  }

  /** When the rate takes the whole fare the job never settles, in any state of the books and however often
      it is tried: the driver keeps holding the cash and is never credited. */
  lemma UnpayableNeverSettles(db: Db, b: Bill)
    requires b.fare > 0 && RateAllowed(b) && !Payable(b)
    ensures DoAll(db, Moves(b), b).error.Some?
  {
    forall any: Db ensures Do(any, PayDriver, b).Err? {
      if b.rate.Some? && Commission(b.fare, b.rate.value).Ok? {
        CommissionStaysWithinTheFare(b.fare, b.rate.value);
        EarningSplitsTheGross(b.fare, Kept(b), b.driver, b.job);
      }
    }
    RefusedMoveStopsAll(db, Moves(b), PayDriver, b);
  }

  // --- what it comes to ---------------------------------------------------------------------------

  /** The cash moves' part of an account. */
  function CashPart(b: Bill, q: Query): int {
    if q == Part(CashInTransit, Driver, b.driver) then b.total
    else if q == Part(PlatformClearing, Platform, "") then -b.total
    else 0
  }

  function SalePart(b: Bill, q: Query): int {
    if q == Part(PlatformClearing, Platform, "") then b.basket.goods
    else if q == Part(MerchantPayable, Merchant, b.basket.merchant) then -b.basket.goods
    else 0
  }

  function EarningPart(b: Bill, q: Query): int {
    if q == Part(DriverExpense, Driver, b.driver) then b.fare
    else if q == Part(DriverPayable, Driver, b.driver) then -(b.fare - Kept(b))
    else if q == Part(PlatformRevenue, Platform, "") then -Kept(b)
    else 0
  }

  /** What a settled cash job leaves in one party's account. */
  function Comes(b: Bill, q: Query): int {
    CashPart(b, q) + (if b.basket.goods > 0 then SalePart(b, q) else 0) + if b.fare > 0 then EarningPart(b, q) else 0
  }

  lemma EarningComes(b: Bill, q: Query)
    requires b.fare > 0 && RateAllowed(b) && Payable(b) && q.Part?
    ensures var t := DriverEarning(b.fare, Kept(b), b.driver, b.job);
            t.Ok? && Effect(t.value.entries, q) == EarningPart(b, q)
  {
    CommissionStaysWithinTheFare(b.fare, b.rate.value);
    EarningSplitsTheGross(b.fare, Kept(b), b.driver, b.job);
    var net: Amount := b.fare - Kept(b);
    var kept: Amount := Kept(b);
    SplitEffect(Debit(DriverExpense, b.fare, Driver, b.driver), Credit(DriverPayable, net, Driver, b.driver),
                Credit(PlatformRevenue, kept, Platform, ""), q);
  }

  lemma EffectOfAllAppend(ess: seq<seq<Entry>>, es: seq<Entry>, q: Query)
    ensures EffectOfAll(ess + [es], q) == EffectOfAll(ess, q) + Effect(es, q)
  {
  }

  lemma CashComes(b: Bill, q: Query)
    requires q.Part?
    ensures EffectOfAll(CashWritten(b), q) == CashPart(b, q)
  {
    TwoEntries(CaptureEntries(b)[0], CaptureEntries(b)[1], q);
    TwoEntries(CollectionEntries(b)[0], CollectionEntries(b)[1], q);
    EffectOfAllAppend([], CaptureEntries(b), q);
    EffectOfAllAppend([CaptureEntries(b)], CollectionEntries(b), q);
    assert [] + [CaptureEntries(b)] == [CaptureEntries(b)];
    assert [CaptureEntries(b)] + [CollectionEntries(b)] == [CaptureEntries(b), CollectionEntries(b)];
  }

  lemma SaleComes(b: Bill, q: Query)
    requires q.Part?
    ensures Effect(SaleEntries(b), q) == SalePart(b, q)
  {
    TwoEntries(SaleEntries(b)[0], SaleEntries(b)[1], q);
  }

  lemma WrittenComes(b: Bill, q: Query)
    requires b.fare > 0 ==> DriverEarning(b.fare, Kept(b), b.driver, b.job).Ok?
    ensures EffectOfAll(Written(b), q) ==
            EffectOfAll(CashWritten(b), q)
            + (if b.basket.goods > 0 then Effect(SaleEntries(b), q) else 0)
            + (if b.fare > 0 then Effect(DriverEarning(b.fare, Kept(b), b.driver, b.job).value.entries, q) else 0)
  {
    var sold := CashWritten(b) + ShopWritten(b);
    if b.basket.goods > 0 {
      EffectOfAllAppend(CashWritten(b), SaleEntries(b), q);
    } else {
      assert sold == CashWritten(b);
    }
    if b.fare > 0 {
      EffectOfAllAppend(sold, DriverEarning(b.fare, Kept(b), b.driver, b.job).value.entries, q);
    } else {
      assert Written(b) == sold;
    }
  }

  lemma WrittenComesTo(b: Bill, q: Query)
    requires WellFormed(b) && RateAllowed(b) && Payable(b) && q.Part? && b.basket.goods >= 0
    ensures EffectOfAll(Written(b), q) == Comes(b, q)
  {
    if b.fare > 0 {
      EarningComes(b, q);
    }
    WrittenComes(b, q);
    CashComes(b, q);
    SaleComes(b, q);
  }

  /** A settled cash job moves exactly these balances and nobody else's. */
  lemma SettlementComesTo(db: Db, b: Bill, q: Query)
    requires Sound(db) && WellFormed(b) && Fresh(db, b) && RateAllowed(b) && Payable(b) && q.Part?
    requires b.basket.goods >= 0
    ensures Holds(DoAll(db, Moves(b), b).db.txns, q) == Holds(db.txns, q) + Comes(b, q)
  {
    FreshJobSettlesExactlyWhenPayable(db, b);
    WroteMoves(DoAll(db, Moves(b), b).db, db, Written(b), q);
    WrittenComesTo(b, q);
  }

  /** It leaves the customer owing nothing, the driver holding all that was paid, the shop owed its goods in
      full, the driver owed the fare less commission and the platform the commission. */
  lemma EveryoneGetsTheirPart(db: Db, b: Bill)
    requires Sound(db) && WellFormed(b) && Fresh(db, b) && RateAllowed(b) && Payable(b) && b.basket.goods >= 0
    ensures var before, after := db.txns, DoAll(db, Moves(b), b).db.txns;
            && Holds(after, Part(CustomerReceivable, Customer, b.requester))
               == Holds(before, Part(CustomerReceivable, Customer, b.requester))
            && Holds(after, DriverCash(b.driver)) == Holds(before, DriverCash(b.driver)) + b.total
            && Holds(after, Part(MerchantPayable, Merchant, b.basket.merchant))
               == Holds(before, Part(MerchantPayable, Merchant, b.basket.merchant)) - b.basket.goods
            && Holds(after, Part(DriverPayable, Driver, b.driver))
               == Holds(before, Part(DriverPayable, Driver, b.driver)) - (b.fare - Kept(b))
            && Holds(after, Part(PlatformRevenue, Platform, ""))
               == Holds(before, Part(PlatformRevenue, Platform, "")) - Kept(b)
  {
    SettlementComesTo(db, b, Part(CustomerReceivable, Customer, b.requester));
    SettlementComesTo(db, b, DriverCash(b.driver));
    SettlementComesTo(db, b, Part(MerchantPayable, Merchant, b.basket.merchant));
    SettlementComesTo(db, b, Part(DriverPayable, Driver, b.driver));
    SettlementComesTo(db, b, Part(PlatformRevenue, Platform, ""));
  }
}
