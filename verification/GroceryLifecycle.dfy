/** Two lifecycles, one link: an order's history is a chain, its delivery is its own, and it says it was
    carried only when its driver did carry it. */
module GroceryLifecycle {
  import opened Common
  import opened OrderMachine
  import opened GroceryTables
  import opened GrocerySteps
  import Shelves = GroceryStock
  import Jobs = JobMachine

  /** The driver has, or has had, the goods. */
  predicate Carried(past: set<Jobs.JobStatus>) {
    Jobs.InProgress in past || Jobs.AtDropoff in past || Jobs.Completed in past
  }

  /** A completed delivery stays completed unless it is disputed. */
  predicate DeliverySound(d: Delivery) {
    && d.status in d.past
    && (Jobs.Completed in d.past ==> d.status == Jobs.Completed || d.status == Jobs.Disputed)
  }

  predicate OrderSound(db: Db, o: OrderId)
    requires o < |db.orders|
  {
    var order := db.orders[o];
    && Chain(order.history) && EndOf(order.history) == order.status
    && (order.job.Some? ==>
          order.job.value < |db.deliveries| && db.deliveries[order.job.value].order == o)
    && (Visits(order.history, PickedUp) || Visits(order.history, Delivering) ==>
          order.job.Some? && Carried(db.deliveries[order.job.value].past))
    && (Visits(order.history, Delivered) ==>
          order.job.Some? && Jobs.Completed in db.deliveries[order.job.value].past)
    && (order.stock == StockReserved ==> Visits(order.history, Placed))
    && (order.stock == StockConsumed ==> Visits(order.history, ReadyForPickup))
    && (order.stock == StockReleased ==> order.status == CancelledOrder)
  }

  predicate LifeInv(db: Db) {
    && (forall j :: 0 <= j < |db.deliveries| ==> DeliverySound(db.deliveries[j]))
    && (forall j :: 0 <= j < |db.deliveries| ==>
          db.deliveries[j].order < |db.orders| && Visits(db.orders[db.deliveries[j].order].history, ReadyForPickup))
    && forall o :: 0 <= o < |db.orders| ==> OrderSound(db, o)
  }

  // --- histories ----------------------------------------------------------------------------------

  lemma VisitsGrows(h: seq<Change>, c: Change, s: OrderStatus)
    ensures Visits(h + [c], s) <==> Visits(h, s) || c.to == s
  {
    var grown := h + [c];
    if i :| 0 <= i < |h| && h[i].to == s {
      assert grown[i].to == s;
    }
    if c.to == s {
      assert grown[|h|].to == s;
    }
  }

  /** How one step may change an order: its history grows by at most one edge from where it was. */
  predicate OrderStep(before: Order, after: Order) {
    && ((after.history == before.history && after.status == before.status)
        || (after.history == before.history + [Change(before.status, after.status)]
            && Edge(before.status, after.status)))
    && (before.job.Some? ==> after.job == before.job)
  }

  lemma StepMovesOrders(db: Db, s: Step, o: OrderId)
    requires o < |db.orders|
    ensures o < |Apply(db, s).orders| && OrderStep(db.orders[o], Apply(db, s).orders[o])
  {
  }

  lemma StepMovesDeliveries(db: Db, s: Step, j: nat)
    requires LifeInv(db) && MayAsk(db, s) && j < |db.deliveries|
    ensures j < |Apply(db, s).deliveries|
    ensures var before, after := db.deliveries[j], Apply(db, s).deliveries[j];
      after.order == before.order && before.past <= after.past && DeliverySound(after)
  {
  }

  // --- what each step keeps --------------------------------------------------------------------------

  /** Which step can have extended an order's history, and why it was allowed to. */
  lemma NewStatusIsEarned(db: Db, s: Step, o: OrderId)
    requires LifeInv(db) && MayAsk(db, s) && o < |db.orders|
    requires Apply(db, s).orders[o].status != db.orders[o].status
    ensures var before, after := db.orders[o], Apply(db, s).orders[o];
      && after.job == before.job
      && (after.status in {PickedUp, Delivering, Delivered} ==>
            && before.job.Some? && before.job.value < |db.deliveries|
            && Carried(db.deliveries[before.job.value].past)
            && (after.status == Delivered ==> Jobs.Completed in db.deliveries[before.job.value].past))
      && (after.stock == before.stock || (after.stock == StockReserved && after.status == Placed))
      && Apply(db, s).deliveries == db.deliveries
  {
  }

  /** What a step may do to an order it leaves where it is. */
  lemma SameStatusIsQuiet(db: Db, s: Step, o: OrderId)
    requires LifeInv(db) && MayAsk(db, s) && o < |db.orders|
    requires Apply(db, s).orders[o].status == db.orders[o].status
    ensures var before, after := db.orders[o], Apply(db, s).orders[o];
      && after.history == before.history
      && (after.job == before.job || (after.job.Some? && after.job.value < |db.deliveries|
                                      && db.deliveries[after.job.value].order == o))
      && (after.stock == before.stock
          || (after.stock == StockReleased && after.status == CancelledOrder)
          || (after.stock == StockConsumed && Visits(after.history, ReadyForPickup)))
  {
    StepMovesOrders(db, s, o);
    assert !Edge(db.orders[o].status, db.orders[o].status);
  }

  /** News of a delivery stays true, and stays its own order's. */
  lemma StepKeepsNews(db: Db, s: Step, j: nat)
    requires LifeInv(db) && MayAsk(db, s) && j < |db.deliveries|
    ensures j < |Apply(db, s).deliveries| && Apply(db, s).deliveries[j].order == db.deliveries[j].order
    ensures Carried(db.deliveries[j].past) ==> Carried(Apply(db, s).deliveries[j].past)
    ensures Jobs.Completed in db.deliveries[j].past ==> Jobs.Completed in Apply(db, s).deliveries[j].past
  {
  }

  lemma StepKeepsOrder(db: Db, s: Step, o: OrderId)
    requires LifeInv(db) && MayAsk(db, s) && o < |db.orders|
    ensures o < |Apply(db, s).orders| && OrderSound(Apply(db, s), o)
  {
    StepMovesOrders(db, s, o);
    if Apply(db, s).orders[o].status != db.orders[o].status {
      MovedOrderIsSound(db, s, o);
    } else {
      QuietOrderIsSound(db, s, o);
    }
  }

  lemma QuietOrderIsSound(db: Db, s: Step, o: OrderId)
    requires LifeInv(db) && MayAsk(db, s) && o < |db.orders|
    requires Apply(db, s).orders[o].status == db.orders[o].status
    ensures OrderSound(Apply(db, s), o)
  {
    assert OrderSound(db, o);
    SameStatusIsQuiet(db, s, o);
    StepMovesOrders(db, s, o);
    if Apply(db, s).orders[o].job.Some? {
      StepKeepsNews(db, s, Apply(db, s).orders[o].job.value);
    }
  }

  lemma MovedOrderIsSound(db: Db, s: Step, o: OrderId)
    requires LifeInv(db) && MayAsk(db, s) && o < |db.orders|
    requires Apply(db, s).orders[o].status != db.orders[o].status
    ensures OrderSound(Apply(db, s), o)
  {
    var next := Apply(db, s);
    var before, after := db.orders[o], next.orders[o];
    assert OrderSound(db, o);
    StepMovesOrders(db, s, o);
    NewStatusIsEarned(db, s, o);
    ChainGrows(before.history, after.status);
    VisitsGrows(before.history, Change(before.status, after.status), PickedUp);
    VisitsGrows(before.history, Change(before.status, after.status), Delivering);
    VisitsGrows(before.history, Change(before.status, after.status), Delivered);
    VisitsGrows(before.history, Change(before.status, after.status), Placed);
    VisitsGrows(before.history, Change(before.status, after.status), ReadyForPickup);
  }

  lemma StepKeepsLife(db: Db, s: Step)
    requires LifeInv(db) && MayAsk(db, s)
    ensures LifeInv(Apply(db, s))
  {
    var next := Apply(db, s);
    forall o | 0 <= o < |next.orders| ensures OrderSound(next, o) {
      if o < |db.orders| {
        StepKeepsOrder(db, s, o);
      }
    }
    forall j | 0 <= j < |next.deliveries|
      ensures DeliverySound(next.deliveries[j])
      ensures next.deliveries[j].order < |next.orders|
      ensures Visits(next.orders[next.deliveries[j].order].history, ReadyForPickup)
    {
      if j < |db.deliveries| {
        StepMovesDeliveries(db, s, j);
      }
      var o := next.deliveries[j].order;
      assert o < |db.orders| && Visits(db.orders[o].history, ReadyForPickup);
      StepMovesOrders(db, s, o);
      if next.orders[o].history != db.orders[o].history {
        VisitsGrows(db.orders[o].history, Change(db.orders[o].status, next.orders[o].status), ReadyForPickup);
      }
    }
  }

  lemma {:induction false} RunKeepsLife(db: Db, ss: seq<Step>)
    requires LifeInv(db) && MayRun(db, ss)
    ensures LifeInv(Run(db, ss))
    decreases |ss|
  {
    if |ss| > 0 {
      StepKeepsLife(db, ss[0]);
      RunKeepsLife(Apply(db, ss[0]), ss[1..]);
    }
  }

  // --- what it means ------------------------------------------------------------------------------------

  /** An order is delivered only if its own delivery completed, whatever has been disputed since; and
      everything that had to happen to it on the way is on record. */
  lemma DeliveredOrdersWereDelivered(ss: seq<Step>, o: OrderId)
    requires MayRun(EMPTY, ss) && o < |Run(EMPTY, ss).orders|
    requires Run(EMPTY, ss).orders[o].status == Delivered
    ensures var db := Run(EMPTY, ss);
      var order := db.orders[o];
      && order.job.Some? && order.job.value < |db.deliveries| && db.deliveries[order.job.value].order == o
      && db.deliveries[order.job.value].status in {Jobs.Completed, Jobs.Disputed}
      && Visits(order.history, Preparing) && Visits(order.history, ReadyForPickup)
      && Visits(order.history, PickedUp) && Visits(order.history, Delivering)
  {
    RunKeepsLife(EMPTY, ss);
    var db := Run(EMPTY, ss);
    assert OrderSound(db, o);
    DeliveredTellsItsStory(db.orders[o].history);
    assert DeliverySound(db.deliveries[db.orders[o].job.value]);
  }

  /** No two orders share a delivery, and an order keeps the delivery it has. */
  lemma DeliveriesBelongToOneOrder(db: Db, o1: OrderId, o2: OrderId)
    requires LifeInv(db) && o1 < |db.orders| && o2 < |db.orders|
    requires db.orders[o1].job.Some? && db.orders[o1].job == db.orders[o2].job
    ensures o1 == o2
  {
    assert OrderSound(db, o1) && OrderSound(db, o2);
  }

  predicate IsPrefix<T(==)>(a: seq<T>, b: seq<T>) {
    |a| <= |b| && b[..|a|] == a
  }

  /** Histories only grow, links never move, and a finished order never moves again. */
  lemma {:induction false} OrdersOnlyAdvance(db: Db, ss: seq<Step>, o: OrderId)
    requires o < |db.orders|
    ensures o < |Run(db, ss).orders|
    ensures IsPrefix(db.orders[o].history, Run(db, ss).orders[o].history)
    ensures db.orders[o].job.Some? ==> Run(db, ss).orders[o].job == db.orders[o].job
    ensures Terminal(db.orders[o].status) ==>
      Run(db, ss).orders[o].status == db.orders[o].status && Run(db, ss).orders[o].history == db.orders[o].history
    decreases |ss|
  {
    if |ss| > 0 {
      StepMovesOrders(db, ss[0], o);
      OrdersOnlyAdvance(Apply(db, ss[0]), ss[1..], o);
      var first := db.orders[o].history;
      var last := Run(db, ss).orders[o].history;
      var next := Apply(db, ss[0]).orders[o].history;
      assert last[..|first|] == last[..|next|][..|first|];
    }
  }

  /** Stock is given back only for orders that were called off, and handed over only for orders that
      were packed: never both. */
  lemma StockFollowsTheOrder(ss: seq<Step>, o: OrderId)
    requires MayRun(EMPTY, ss) && o < |Run(EMPTY, ss).orders|
    ensures var order := Run(EMPTY, ss).orders[o];
      && (order.stock == StockReleased ==> order.status == CancelledOrder && !Visits(order.history, ReadyForPickup))
      && (order.stock == StockConsumed ==> Visits(order.history, ReadyForPickup) && order.status != CancelledOrder)
  {
    RunKeepsLife(EMPTY, ss);
    NeverCancelledAfterReady(EMPTY, ss, o);
  }

  /** The buttons that exist call an order off only before it is packed, although the machine would
      allow it later. */
  predicate Unpacked(db: Db) {
    forall o :: 0 <= o < |db.orders| ==> PackedStands(db.orders[o])
  }

  predicate PackedStands(order: Order) {
    Visits(order.history, ReadyForPickup) ==> order.status != CancelledOrder
  }

  lemma CalledOffEarly(db: Db, s: Step, o: OrderId)
    requires MayAsk(db, s) && o < |db.orders|
    requires Apply(db, s).orders[o].status == CancelledOrder && db.orders[o].status != CancelledOrder
    ensures CustomerCancellable(db.orders[o].status)
  {
  }

  lemma PackedKeepsStanding(before: Order, after: Order)
    requires OrderStep(before, after) && PackedStands(before)
    requires Chain(before.history) && EndOf(before.history) == before.status
    requires after.status == CancelledOrder && before.status != CancelledOrder ==> CustomerCancellable(before.status)
    ensures PackedStands(after)
  {
    if after.history != before.history {
      VisitsGrows(before.history, Change(before.status, after.status), ReadyForPickup);
      assert before.status != CancelledOrder;
      if after.status == CancelledOrder && Visits(before.history, ReadyForPickup) {
        CancellableIsUnpicked(before.history);
        ReadyMeansPicked(before.history);
      }
    }
  }

  lemma StepKeepsOneUnpacked(db: Db, s: Step, o: OrderId)
    requires LifeInv(db) && MayAsk(db, s) && o < |db.orders| && PackedStands(db.orders[o])
    ensures o < |Apply(db, s).orders| && PackedStands(Apply(db, s).orders[o])
  {
    StepMovesOrders(db, s, o);
    assert OrderSound(db, o);
    if Apply(db, s).orders[o].status == CancelledOrder && db.orders[o].status != CancelledOrder {
      CalledOffEarly(db, s, o);
    }
    PackedKeepsStanding(db.orders[o], Apply(db, s).orders[o]);
  }

  lemma StepKeepsUnpacked(db: Db, s: Step)
    requires LifeInv(db) && MayAsk(db, s) && Unpacked(db)
    ensures Unpacked(Apply(db, s))
  {
    forall o | 0 <= o < |Apply(db, s).orders| ensures PackedStands(Apply(db, s).orders[o]) {
      if o < |db.orders| {
        StepKeepsOneUnpacked(db, s, o);
      }
    }
  }

  lemma {:induction false} ReadyMeansPicked(h: seq<Change>)
    requires Chain(h) && Visits(h, ReadyForPickup)
    ensures Visits(h, Preparing)
  {
    var i :| 0 <= i < |h| && h[i].to == ReadyForPickup;
    ChainPrefix(h, i + 1);
    HistoriesSkipNothing(h[..i + 1], Preparing);
    var k :| 0 <= k < i + 1 && h[..i + 1][k].to == Preparing;
    assert h[k].to == Preparing;
  }

  lemma {:induction false} ChainPrefix(h: seq<Change>, n: nat)
    requires Chain(h) && n <= |h|
    ensures Chain(h[..n])
  {
    if n < |h| {
      ChainPrefix(h[..|h| - 1], n);
      assert h[..|h| - 1][..n] == h[..n];
    } else {
      assert h[..n] == h;
    }
  }

  lemma {:induction false} NeverCancelledAfterReady(db: Db, ss: seq<Step>, o: OrderId)
    requires LifeInv(db) && Unpacked(db) && MayRun(db, ss) && o < |Run(db, ss).orders|
    ensures Visits(Run(db, ss).orders[o].history, ReadyForPickup) ==> Run(db, ss).orders[o].status != CancelledOrder
    ensures OrderSound(Run(db, ss), o)
    decreases |ss|
  {
    if |ss| > 0 {
      StepKeepsLife(db, ss[0]);
      StepKeepsUnpacked(db, ss[0]);
      NeverCancelledAfterReady(Apply(db, ss[0]), ss[1..], o);
    }
  }

  // --- stock nobody gives back ---------------------------------------------------------------------------

  predicate Abandoned(order: Order) {
    order.status == CancelledOrder && order.stock == StockReserved
  }

  lemma AbandonedStaysUnlessReleased(db: Db, s: Step, o: OrderId)
    requires Unpacked(db) && MayAsk(db, s) && o < |db.orders| && Abandoned(db.orders[o])
    ensures o < |Apply(db, s).orders| && Apply(db, s).orders[o].status == CancelledOrder
    ensures Apply(db, s).orders[o].stock == (if s == ReleaseStockStep(o) then StockReleased else StockReserved)
  {
    assert PackedStands(db.orders[o]);
  }

  /** An order called off before its stock was released, by a sweep that died between its two transactions,
      holds that stock through any run until somebody asks for just that release. Sweeps never do: they
      release only what they expired themselves. */
  lemma {:induction false} AbandonedStockIsHeldUntilReleased(db: Db, ss: seq<Step>, o: OrderId)
    requires LifeInv(db) && Unpacked(db) && Shelves.StockInv(db) && MayRun(db, ss)
    requires o < |db.orders| && Abandoned(db.orders[o])
    ensures o < |Run(db, ss).orders|
    ensures Run(db, ss).orders[o].stock == StockReserved <==>
      forall k :: 0 <= k < |ss| ==> ss[k] != ReleaseStockStep(o)
    decreases |ss|
  {
    if |ss| > 0 {
      var next := Apply(db, ss[0]);
      AbandonedStaysUnlessReleased(db, ss[0], o);
      StepKeepsLife(db, ss[0]);
      StepKeepsUnpacked(db, ss[0]);
      Shelves.StepKeepsStock(db, ss[0]);
      if ss[0] == ReleaseStockStep(o) {
        Shelves.SettledStaysSettled(next, ss[1..], o);
      } else {
        AbandonedStockIsHeldUntilReleased(next, ss[1..], o);
        assert forall k :: 0 < k < |ss| ==> ss[k] == ss[1..][k - 1];
      }
    }
  }
}
