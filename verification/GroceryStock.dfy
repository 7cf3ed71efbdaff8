/** Stock is conserved: what shelves hold back is exactly what placed orders are waiting for, and what
    leaves a shelf is exactly what orders took. */
module GroceryStock {
  import opened Common
  import opened OrderMachine
  import opened GroceryTables
  import opened GrocerySteps

  // --- one order's lines -----------------------------------------------------------------------

  function ShelvesOf(store: nat, lines: seq<Line>): set<Shelf> {
    set i | 0 <= i < |lines| :: ShelfOf(store, lines[i])
  }

  lemma ShelvesSplit(store: nat, lines: seq<Line>)
    requires |lines| > 0
    ensures ShelvesOf(store, lines)
         == ShelvesOf(store, lines[..|lines| - 1]) + {ShelfOf(store, lines[|lines| - 1])}
  {
  }

  lemma DistinctSplits(store: nat, lines: seq<Line>)
    requires |lines| > 0
    ensures DistinctLines(store, lines) <==>
      && DistinctLines(store, lines[..|lines| - 1])
      && ShelfOf(store, lines[|lines| - 1]) !in ShelvesOf(store, lines[..|lines| - 1])
  {
  }

  lemma {:induction false} ShelvesCount(store: nat, lines: seq<Line>)
    ensures |ShelvesOf(store, lines)| <= |lines|
    ensures |ShelvesOf(store, lines)| == |lines| <==> DistinctLines(store, lines)
  {
    if |lines| > 0 {
      ShelvesSplit(store, lines);
      DistinctSplits(store, lines);
      ShelvesCount(store, lines[..|lines| - 1]);
    }
  }

  lemma SubsetOfSameSize<T>(a: set<T>, b: set<T>)
    requires a <= b && |a| >= |b|
    ensures a == b
  {
    if a != b {
      var x :| x in b && x !in a;
      SubsetSize(a, b - {x});
    }
  }

  lemma {:induction false} SubsetSize<T>(a: set<T>, b: set<T>)
    requires a <= b
    ensures |a| <= |b|
  {
    if a != {} {
      var x :| x in a;
      SubsetSize(a - {x}, b - {x});
    }
  }

  /** The reserving statement counts the rows it updated, and a row is updated once however many lines
      join it. So it succeeds exactly when every line has a shelf of its own that can hold it. */
  lemma ReservingNeedsOwnShelves(inventory: map<Shelf, Stock>, store: nat, lines: seq<Line>)
    ensures CanReserve(inventory, store, lines) <==>
      && DistinctLines(store, lines)
      && forall i :: 0 <= i < |lines| ==>
           var k := ShelfOf(store, lines[i]);
           && k in inventory && inventory[k].available
           && (inventory[k].quantity.None? || inventory[k].reserved + lines[i].quantity <= inventory[k].quantity.value)
  {
    var matched, shelves := Matched(inventory, store, lines), ShelvesOf(store, lines);
    ShelvesCount(store, lines);
    assert matched <= shelves;
    SubsetSize(matched, shelves);
    if CanReserve(inventory, store, lines) {
      SubsetOfSameSize(matched, shelves);
      forall i | 0 <= i < |lines| ensures Joins(inventory, store, lines, i, ShelfOf(store, lines[i])) {
        var k := ShelfOf(store, lines[i]);
        assert k in shelves && k in matched;
        var n :| 0 <= n < |lines| && Joins(inventory, store, lines, n, k);
        assert n == i;
      }
    }
    if DistinctLines(store, lines) && forall i :: 0 <= i < |lines| ==> Joins(inventory, store, lines, i, ShelfOf(store, lines[i])) {
      forall k | k in shelves ensures k in matched {
        var i :| 0 <= i < |lines| && ShelfOf(store, lines[i]) == k;
        assert Joins(inventory, store, lines, i, k);
      }
      assert matched == shelves;
    }
  }

  /** With one line to a shelf, what the database takes from the shelf is what the order wants of it. */
  lemma {:induction false} TakenIsWanted(store: nat, lines: seq<Line>, k: Shelf)
    requires DistinctLines(store, lines)
    ensures TakenFrom(store, lines, k) == QuantityOn(store, lines, k)
    ensures !Wants(store, lines, k) ==> QuantityOn(store, lines, k) == 0
    ensures forall i :: LineOn(store, lines, i, k) ==> QuantityOn(store, lines, k) == lines[i].quantity
  {
    if |lines| > 0 {
      var n := |lines| - 1;
      TakenIsWanted(store, lines[..n], k);
      assert LineOn(store, lines, n, k) <==> ShelfOf(store, lines[n]) == k;
      forall i | 0 <= i < n ensures LineOn(store, lines, i, k) <==> LineOn(store, lines[..n], i, k) {}
      if ShelfOf(store, lines[n]) == k {
        forall i | 0 <= i < n ensures !LineOn(store, lines[..n], i, k) {
          assert lines[..n][i] == lines[i];
        }
        assert !Wants(store, lines[..n], k);
      }
    }
  }

  // --- sums over orders -------------------------------------------------------------------------

  function Part(order: Order, s: StockState, k: Shelf): nat {
    if order.stock == s then QuantityOn(order.store, order.lines, k) else 0
  }

  lemma {:induction false} SumReplaces(orders: seq<Order>, o: OrderId, order: Order, s: StockState, k: Shelf)
    requires o < |orders|
    ensures Sum(orders[o := order], s, k) == Sum(orders, s, k) - Part(orders[o], s, k) + Part(order, s, k)
    ensures Sum(orders, s, k) >= Part(orders[o], s, k)
  {
    var n := |orders| - 1;
    if o < n {
      SumReplaces(orders[..n], o, order, s, k);
      assert orders[o := order][..n] == orders[..n][o := order];
    } else {
      assert orders[o := order][..n] == orders[..n];
    }
  }

  // --- the invariant --------------------------------------------------------------------------------

  predicate RowSound(db: Db, k: Shelf)
    requires k in db.inventory
  {
    && db.inventory[k].reserved == Sum(db.orders, StockReserved, k)
    && (db.inventory[k].quantity.Some? ==> db.inventory[k].reserved <= db.inventory[k].quantity.value)
  }

  /** A reserving order has a shelf to itself for every line. */
  predicate OrderSound(db: Db, order: Order) {
    && (order.stock == StockReserved ==>
          DistinctLines(order.store, order.lines)
          && forall i :: 0 <= i < |order.lines| ==> ShelfOf(order.store, order.lines[i]) in db.inventory)
    && (order.status == Cart ==> order.stock == NoStock)
  }

  predicate StockInv(db: Db) {
    && (forall k :: k in db.inventory ==> RowSound(db, k))
    && forall o :: 0 <= o < |db.orders| ==> OrderSound(db, db.orders[o])
  }

  // --- each transaction keeps it ----------------------------------------------------------------------

  /** Changing an order without touching its lines' quantities or its stock state moves no stock. */
  lemma SameStockKeeps(db: Db, o: OrderId, order: Order)
    requires StockInv(db) && o < |db.orders| && OrderSound(db, order)
    requires forall s, k :: Part(order, s, k) == Part(db.orders[o], s, k)
    ensures StockInv(Put(db, o, order))
    ensures forall s, k :: Sum(Put(db, o, order).orders, s, k) == Sum(db.orders, s, k)
  {
    forall s, k ensures Sum(Put(db, o, order).orders, s, k) == Sum(db.orders, s, k) {
      SumReplaces(db.orders, o, order, s, k);
    }
  }

  predicate SameGoods(a: Order, b: Order) {
    && a.store == b.store && |a.lines| == |b.lines|
    && forall i :: 0 <= i < |a.lines| ==>
         a.lines[i].product == b.lines[i].product && a.lines[i].variant == b.lines[i].variant
         && a.lines[i].quantity == b.lines[i].quantity
  }

  lemma {:induction false} SameGoodsSameQuantities(store: nat, a: seq<Line>, b: seq<Line>, k: Shelf)
    requires |a| == |b|
    requires forall i :: 0 <= i < |a| ==>
               a[i].product == b[i].product && a[i].variant == b[i].variant && a[i].quantity == b[i].quantity
    ensures QuantityOn(store, a, k) == QuantityOn(store, b, k)
  {
    if |a| > 0 {
      SameGoodsSameQuantities(store, a[..|a| - 1], b[..|b| - 1], k);
    }
  }

  lemma SameGoodsKeeps(db: Db, o: OrderId, order: Order)
    requires StockInv(db) && o < |db.orders|
    requires SameGoods(db.orders[o], order) && order.stock == db.orders[o].stock
    requires order.status == Cart ==> db.orders[o].status == Cart
    ensures StockInv(Put(db, o, order))
    ensures forall s, k :: Sum(Put(db, o, order).orders, s, k) == Sum(db.orders, s, k)
  {
    forall s, k ensures Part(order, s, k) == Part(db.orders[o], s, k) {
      SameGoodsSameQuantities(order.store, db.orders[o].lines, order.lines, k);
    }
    assert OrderSound(db, db.orders[o]);
    assert OrderSound(db, order) by {
      if order.stock == StockReserved {
        forall i | 0 <= i < |order.lines| ensures ShelfOf(order.store, order.lines[i]) == ShelfOf(order.store, db.orders[o].lines[i]) {}
      }
    }
    SameStockKeeps(db, o, order);
  }

  lemma PlaceKeeps(db: Db, o: OrderId, destinationValid: bool, window: Option<Time>, clock: Time)
    requires StockInv(db) && PlaceAnswer(db, o, destinationValid, window).None?
    ensures StockInv(Place(db, o, destinationValid, window, clock))
    ensures forall k :: Sum(Place(db, o, destinationValid, window, clock).orders, StockConsumed, k)
                     == Sum(db.orders, StockConsumed, k)
  {
    var before := db.orders[o];
    var after := Place(db, o, destinationValid, window, clock);
    ReservingNeedsOwnShelves(db.inventory, before.store, before.lines);
    assert OrderSound(db, before);
    forall k | k in after.inventory ensures RowSound(after, k) {
      SumReplaces(db.orders, o, after.orders[o], StockReserved, k);
      TakenIsWanted(before.store, before.lines, k);
      assert RowSound(db, k);
      if Wants(before.store, before.lines, k) {
        var i :| 0 <= i < |before.lines| && LineOn(before.store, before.lines, i, k);
        assert Joins(db.inventory, before.store, before.lines, i, k);
        assert k in Matched(db.inventory, before.store, before.lines);
      } else {
        forall i | 0 <= i < |before.lines| ensures !Joins(db.inventory, before.store, before.lines, i, k) {
          assert !LineOn(before.store, before.lines, i, k);
        }
      }
    }
    forall k ensures Sum(after.orders, StockConsumed, k) == Sum(db.orders, StockConsumed, k) {
      SumReplaces(db.orders, o, after.orders[o], StockConsumed, k);
    }
    forall n | 0 <= n < |after.orders| ensures OrderSound(after, after.orders[n]) {
      assert OrderSound(db, db.orders[n]);
      if n == o {
        forall i | 0 <= i < |before.lines| ensures ShelfOf(before.store, before.lines[i]) in after.inventory {
          assert Joins(db.inventory, before.store, before.lines, i, ShelfOf(before.store, before.lines[i]));
        }
      }
    }
  }

  /** Settling a held order: every clamp in the statement is idle, and the shelf changes by exactly what
      the order held. */
  lemma SettleIsExact(db: Db, o: OrderId, to: StockState, k: Shelf)
    requires StockInv(db) && o < |db.orders| && db.orders[o].stock == StockReserved
    requires to == StockReleased || to == StockConsumed
    requires k in db.inventory
    ensures var held := QuantityOn(db.orders[o].store, db.orders[o].lines, k);
      var before, after := db.inventory[k], SettleStock(db, o, to).inventory[k];
      && held <= before.reserved && after.reserved == before.reserved - held
      && after.available == before.available
      && (before.quantity.None? ==> after.quantity.None?)
      && (before.quantity.Some? ==>
            && held <= before.quantity.value
            && after.quantity == Some(if to == StockConsumed then before.quantity.value - held else before.quantity.value))
  {
    var order := db.orders[o];
    assert OrderSound(db, order) && RowSound(db, k);
    SumReplaces(db.orders, o, order, StockReserved, k);
    TakenIsWanted(order.store, order.lines, k);
  }

  lemma SettleKeeps(db: Db, o: OrderId, to: StockState)
    requires StockInv(db) && (to == StockReleased || to == StockConsumed)
    ensures StockInv(SettleStock(db, o, to))
  {
    if o < |db.orders| && db.orders[o].stock == StockReserved {
      var after := SettleStock(db, o, to);
      forall k | k in after.inventory ensures RowSound(after, k) {
        assert RowSound(db, k);
        SettleIsExact(db, o, to, k);
        SumReplaces(db.orders, o, after.orders[o], StockReserved, k);
      }
      forall n | 0 <= n < |after.orders| ensures OrderSound(after, after.orders[n]) {
        assert OrderSound(db, db.orders[n]);
      }
    }
  }

  lemma SetInventoryKeeps(db: Db, k: Shelf, available: bool, quantity: Option<nat>)
    requires StockInv(db)
    ensures StockInv(SetInventory(db, k, available, quantity))
  {
    var after := SetInventory(db, k, available, quantity);
    if k !in db.inventory {
      NobodyHoldsUnknown(db, db.orders, k);
    }
    forall n | n in after.inventory ensures RowSound(after, n) {
      assert n in db.inventory ==> RowSound(db, n);
    }
    forall n | 0 <= n < |after.orders| ensures OrderSound(after, after.orders[n]) {
      assert OrderSound(db, db.orders[n]);
    }
  }

  /** Nothing is held on a shelf the shop has no row for. */
  lemma {:induction false} NobodyHoldsUnknown(db: Db, orders: seq<Order>, k: Shelf)
    requires k !in db.inventory && forall n :: 0 <= n < |orders| ==> OrderSound(db, orders[n])
    ensures Sum(orders, StockReserved, k) == 0
  {
    if |orders| > 0 {
      var last := orders[|orders| - 1];
      NobodyHoldsUnknown(db, orders[..|orders| - 1], k);
      if last.stock == StockReserved {
        TakenIsWanted(last.store, last.lines, k);
        assert OrderSound(db, last);
      }
    }
  }

  lemma AppendKeeps(db: Db, order: Order)
    requires StockInv(db) && order.stock == NoStock
    ensures StockInv(db.(orders := db.orders + [order]))
    ensures forall k :: Sum(db.orders + [order], StockConsumed, k) == Sum(db.orders, StockConsumed, k)
  {
  }

  lemma DeliveriesKeep(db: Db, deliveries: seq<Delivery>)
    requires StockInv(db)
    ensures StockInv(db.(deliveries := deliveries))
  {
  }

  lemma StepKeepsStock(db: Db, s: Step)
    requires StockInv(db) && MayAsk(db, s)
    ensures StockInv(Apply(db, s))
  {
    match s
    case OpenCartStep(customer, store) =>
      if Apply(db, s) != db { AppendKeeps(db, NewCart(customer, store)); }
    case AddItemStep(o, product, variant, price, quantity, preference) =>
      if AddItemAnswer(db, o, quantity).None? {
        assert OrderSound(db, db.orders[o]);
        AddItemHoldsNothing(db, o, product, variant, price, quantity, preference);
      }
    case PlaceStep(o, destinationValid, window, clock) =>
      if PlaceAnswer(db, o, destinationValid, window).None? { PlaceKeeps(db, o, destinationValid, window, clock); }
    case MoveStep(o, from, to) =>
      if TransitionAnswer(db, o, from, to).None? { SameGoodsKeeps(db, o, WithStatus(db.orders[o], to)); }
    case FollowStep(o, from, to, _) =>
      if TransitionAnswer(db, o, from, to).None? { SameGoodsKeeps(db, o, WithStatus(db.orders[o], to)); }
    case ExpireStep(o, now) =>
      if o < |db.orders| && Overdue(db.orders[o], now) { SameGoodsKeeps(db, o, WithStatus(db.orders[o], CancelledOrder)); }
    case ReleaseStockStep(o) => SettleKeeps(db, o, StockReleased);
    case ConsumeStockStep(o) => SettleKeeps(db, o, StockConsumed);
    case CreateDeliveryStep(o) => DeliveriesKeep(db, Apply(db, s).deliveries);
    case AttachStep(o, j) =>
      if AttachAnswer(db, o).None? { SameGoodsKeeps(db, o, db.orders[o].(job := Some(j))); }
    case MoveDeliveryStep(j, to) => DeliveriesKeep(db, Apply(db, s).deliveries);
    case ReportStep(o, i, proposed, price) =>
      if ReportAnswer(db, o, i, proposed, price).None? { SameGoodsKeeps(db, o, Apply(db, s).orders[o]); }
    case DecideStep(o, n, accept) =>
      if DecideAnswer(db, o, n, accept).None? { SameGoodsKeeps(db, o, Apply(db, s).orders[o]); }
    case SetInventoryStep(k, available, count) => SetInventoryKeeps(db, k, available, count);
  }

  lemma AddItemHoldsNothing(
    db: Db, o: OrderId, product: nat, variant: Option<nat>, price: nat, quantity: int, preference: Preference)
    requires StockInv(db) && AddItemAnswer(db, o, quantity).None?
    ensures StockInv(AddItem(db, o, product, variant, price, quantity, preference))
    ensures forall s, k :: s != NoStock ==>
      Sum(AddItem(db, o, product, variant, price, quantity, preference).orders, s, k) == Sum(db.orders, s, k)
  {
    var after := AddItem(db, o, product, variant, price, quantity, preference);
    assert OrderSound(db, db.orders[o]);
    forall s, k | s != NoStock ensures Sum(after.orders, s, k) == Sum(db.orders, s, k) {
      SumReplaces(db.orders, o, after.orders[o], s, k);
    }
    forall k | k in after.inventory ensures RowSound(after, k) {
      assert RowSound(db, k);
    }
    forall n | 0 <= n < |after.orders| ensures OrderSound(after, after.orders[n]) {
      assert OrderSound(db, db.orders[n]);
    }
  }

  /** In every run, every shelf's reserved count is what its reserving orders are waiting for, and never
      more than the shelf holds. */
  lemma {:induction false} RunKeepsStock(db: Db, ss: seq<Step>)
    requires StockInv(db) && MayRun(db, ss)
    ensures StockInv(Run(db, ss))
    decreases |ss|
  {
    if |ss| > 0 {
      StepKeepsStock(db, ss[0]);
      RunKeepsStock(Apply(db, ss[0]), ss[1..]);
    }
  }

  // --- what leaves the shelf -----------------------------------------------------------------------

  /** How a counted shelf's goods are split between still there and gone with orders. */
  predicate Counted(db: Db, k: Shelf, goods: nat) {
    && k in db.inventory && db.inventory[k].quantity.Some?
    && db.inventory[k].quantity.value + Sum(db.orders, StockConsumed, k) == goods
  }

  predicate LeavesCountAlone(s: Step, k: Shelf) {
    !(s.SetInventoryStep? && s.k == k)
  }

  lemma SettleCounts(db: Db, o: OrderId, to: StockState, k: Shelf, goods: nat)
    requires StockInv(db) && Counted(db, k, goods) && (to == StockReleased || to == StockConsumed)
    ensures Counted(SettleStock(db, o, to), k, goods)
  {
    if o < |db.orders| && db.orders[o].stock == StockReserved {
      SettleIsExact(db, o, to, k);
      SumReplaces(db.orders, o, db.orders[o].(stock := to), StockConsumed, k);
    }
  }

  /** Moving, expiring or linking an order holds exactly what it held. */
  lemma MovesHoldTheSame(db: Db, s: Step, k: Shelf)
    requires StockInv(db) && (s.MoveStep? || s.FollowStep? || s.ExpireStep? || s.AttachStep?)
    ensures Apply(db, s).inventory == db.inventory
    ensures Sum(Apply(db, s).orders, StockConsumed, k) == Sum(db.orders, StockConsumed, k)
  {
    match s
    case MoveStep(o, from, to) =>
      if TransitionAnswer(db, o, from, to).None? { SameGoodsKeeps(db, o, WithStatus(db.orders[o], to)); }
    case FollowStep(o, from, to, _) =>
      if TransitionAnswer(db, o, from, to).None? { SameGoodsKeeps(db, o, WithStatus(db.orders[o], to)); }
    case ExpireStep(o, now) =>
      if o < |db.orders| && Overdue(db.orders[o], now) { SameGoodsKeeps(db, o, WithStatus(db.orders[o], CancelledOrder)); }
    case AttachStep(o, j) =>
      if AttachAnswer(db, o).None? { SameGoodsKeeps(db, o, db.orders[o].(job := Some(j))); }
  }

  /** So do reporting and deciding an issue. */
  lemma IssuesHoldTheSame(db: Db, s: Step, k: Shelf)
    requires StockInv(db) && MayAsk(db, s) && (s.ReportStep? || s.DecideStep?)
    ensures Apply(db, s).inventory == db.inventory
    ensures Sum(Apply(db, s).orders, StockConsumed, k) == Sum(db.orders, StockConsumed, k)
  {
    match s
    case ReportStep(o, i, proposed, price) =>
      if ReportAnswer(db, o, i, proposed, price).None? { SameGoodsKeeps(db, o, Apply(db, s).orders[o]); }
    case DecideStep(o, n, accept) =>
      if DecideAnswer(db, o, n, accept).None? { SameGoodsKeeps(db, o, Apply(db, s).orders[o]); }
  }

  lemma StepCounts(db: Db, s: Step, k: Shelf, goods: nat)
    requires StockInv(db) && MayAsk(db, s) && Counted(db, k, goods) && LeavesCountAlone(s, k)
    ensures Counted(Apply(db, s), k, goods)
  {
    match s
    case OpenCartStep(customer, store) =>
      if Apply(db, s) != db { AppendKeeps(db, NewCart(customer, store)); }
    case AddItemStep(o, product, variant, price, quantity, preference) =>
      if AddItemAnswer(db, o, quantity).None? {
        AddItemHoldsNothing(db, o, product, variant, price, quantity, preference);
      }
    case PlaceStep(o, destinationValid, window, clock) =>
      if PlaceAnswer(db, o, destinationValid, window).None? { PlaceKeeps(db, o, destinationValid, window, clock); }
    case ReleaseStockStep(o) => SettleCounts(db, o, StockReleased, k, goods);
    case ConsumeStockStep(o) => SettleCounts(db, o, StockConsumed, k, goods);
    case ReportStep(_, _, _, _) => IssuesHoldTheSame(db, s, k);
    case DecideStep(_, _, _) => IssuesHoldTheSame(db, s, k);
    case SetInventoryStep(_, _, _) =>
    case CreateDeliveryStep(_) =>
    case MoveDeliveryStep(_, _) =>
    case _ => MovesHoldTheSame(db, s, k);
  }

  /** Between stock takes, goods are neither made nor lost: what is on the shelf plus what orders have
      taken from it stays what it was. */
  lemma {:induction false} GoodsAreConserved(db: Db, ss: seq<Step>, k: Shelf, goods: nat)
    requires StockInv(db) && MayRun(db, ss) && Counted(db, k, goods)
    requires forall n :: 0 <= n < |ss| ==> LeavesCountAlone(ss[n], k)
    ensures Counted(Run(db, ss), k, goods)
    decreases |ss|
  {
    if |ss| > 0 {
      StepCounts(db, ss[0], k, goods);
      StepKeepsStock(db, ss[0]);
      GoodsAreConserved(Apply(db, ss[0]), ss[1..], k, goods);
    }
  }

  /** Nothing is sold twice: what orders have taken and what they are promised never exceed the goods. */
  lemma NothingIsOversold(db: Db, ss: seq<Step>, k: Shelf, goods: nat)
    requires StockInv(db) && MayRun(db, ss) && Counted(db, k, goods)
    requires forall n :: 0 <= n < |ss| ==> LeavesCountAlone(ss[n], k)
    ensures Sum(Run(db, ss).orders, StockConsumed, k) + Sum(Run(db, ss).orders, StockReserved, k) <= goods
  {
    GoodsAreConserved(db, ss, k, goods);
    RunKeepsStock(db, ss);
    assert RowSound(Run(db, ss), k);
  }

  // --- settling once ------------------------------------------------------------------------------------

  predicate StockMove(from: StockState, to: StockState) {
    || from == to
    || (from == NoStock && to == StockReserved)
    || (from == StockReserved && (to == StockReleased || to == StockConsumed))
  }

  lemma StepMovesStock(db: Db, s: Step, o: OrderId)
    requires StockInv(db) && o < |db.orders|
    ensures o < |Apply(db, s).orders| && StockMove(db.orders[o].stock, Apply(db, s).orders[o].stock)
  {
    assert OrderSound(db, db.orders[o]);
  }

  /** Once an order's stock has been given back or handed over it stays so: no run settles it again. */
  lemma {:induction false} SettledStaysSettled(db: Db, ss: seq<Step>, o: OrderId)
    requires StockInv(db) && MayRun(db, ss) && o < |db.orders|
    requires db.orders[o].stock == StockReleased || db.orders[o].stock == StockConsumed
    ensures o < |Run(db, ss).orders| && Run(db, ss).orders[o].stock == db.orders[o].stock
    decreases |ss|
  {
    if |ss| > 0 {
      StepMovesStock(db, ss[0], o);
      StepKeepsStock(db, ss[0]);
      SettledStaysSettled(Apply(db, ss[0]), ss[1..], o);
    }
  }
}
