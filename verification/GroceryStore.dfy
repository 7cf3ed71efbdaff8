/** The merchant's store and the services over it as objects, each transaction proved against its step. */
module GroceryStore {
  import opened Common
  import opened OrderMachine
  import opened GroceryTables
  import Steps = GrocerySteps
  import Answers = GroceryAnswers
  import Jobs = JobMachine

  /** The history rows of a walk along the delivery flow, every state on the way included. */
  function FlowRows(from: nat, to: nat): seq<Change>
    requires from <= to < |DELIVERY_FLOW|
  {
    seq(to - from, i requires 0 <= i < to - from => Change(DELIVERY_FLOW[from + i], DELIVERY_FLOW[from + i + 1]))
  }

  /** A picked order packed, its stock handed over, and a delivery made for it. */
  function Handed(db: Db, o: OrderId): Db {
    var packed := Steps.Transition(db, o, Preparing, ReadyForPickup);
    var taken := if o < |db.orders| && db.orders[o].status == Preparing
                 then Steps.SettleStock(packed, o, StockConsumed) else packed;
    Steps.Attach(Steps.CreateDelivery(taken, o), o, |db.deliveries|)
  }

  predicate BehindJob(orders: seq<Order>, o: int, j: nat) {
    0 <= o < |orders| && orders[o].job == Some(j)
  }

  /** Orders cancelled unanswered, one after the other. */
  function CancelAll(db: Db, ids: seq<OrderId>, now: Time): Db {
    if ids == [] then db else Steps.ExpireOne(CancelAll(db, ids[..|ids| - 1], now), ids[|ids| - 1], now)
  }

  /** The stock of orders given back, one after the other. */
  function ReleaseAll(db: Db, ids: seq<OrderId>): Db {
    if ids == [] then db else Steps.SettleStock(ReleaseAll(db, ids[..|ids| - 1]), ids[|ids| - 1], StockReleased)
  }

  lemma ReleaseOneMore(db: Db, ids: seq<OrderId>, n: nat)
    requires n < |ids|
    ensures ReleaseAll(db, ids[..n + 1]) == Steps.SettleStock(ReleaseAll(db, ids[..n]), ids[n], StockReleased)
  {
    assert ids[..n + 1][..n] == ids[..n];
  }

  /** Releasing settles the stock of these orders and leaves the others, and everything but stock, alone. */
  lemma {:induction false} ReleasedAll(db: Db, ids: seq<OrderId>)
    ensures var after := ReleaseAll(db, ids);
      && |after.orders| == |db.orders| && after.deliveries == db.deliveries
      && (forall o :: 0 <= o < |db.orders| ==> after.orders[o] == db.orders[o].(stock := after.orders[o].stock))
      && (forall o :: 0 <= o < |db.orders| && o !in ids ==> after.orders[o] == db.orders[o])
      && (forall o :: 0 <= o < |db.orders| && o in ids ==> after.orders[o].stock != StockReserved)
  {
    if ids != [] {
      var n := |ids| - 1;
      ReleasedAll(db, ids[..n]);
      assert ids == ids[..n] + [ids[n]];
    }
  }

  predicate OverdueAt(orders: seq<Order>, o: int, now: Time) {
    0 <= o < |orders| && Steps.Overdue(orders[o], now)
  }

  /** Still waiting for the shop although its deadline has come. */
  predicate Lapsed(orders: seq<Order>, o: int, now: Time) {
    && 0 <= o < |orders| && orders[o].status == Placed
    && orders[o].deadline.Some? && orders[o].deadline.value <= now
  }

  lemma OverdueIsLapsed(orders: seq<Order>, o: int, now: Time)
    ensures OverdueAt(orders, o, now) <==> Lapsed(orders, o, now)
  {
  }

  /** No overdue order of `orders` was due before this one. */
  ghost predicate NoneEarlier(orders: seq<Order>, deadline: Time, now: Time) {
    forall p :: OverdueAt(orders, p, now) ==> deadline <= orders[p].deadline.value
  }

  class Store {
    var orders: seq<Order>
    var inventory: map<Shelf, Stock>
    var deliveries: seq<Delivery>

    constructor ()
      ensures State() == Steps.EMPTY
    {
      orders, inventory, deliveries := [], map[], [];
    }

    function State(): Db
      reads this
    {
      Db(orders, inventory, deliveries)
    }

    // --- the customer's side ------------------------------------------------------------------

    method OpenCart(customer: nat, store: nat) returns (o: OrderId)
      modifies this
      ensures State() == Steps.OpenCart(old(State()), customer, store)
      ensures Steps.CartAt(orders, o, customer, store)
    {
      if i :| 0 <= i < |orders| && Steps.CartAt(orders, i, customer, store) {
        return i;
      }
      o := |orders|;
      orders := orders + [Steps.NewCart(customer, store)];
    }

    method AddItem(
      o: OrderId, product: nat, variant: Option<nat>, price: nat, quantity: int, preference: Preference)
      returns (answer: Steps.Answer)
      modifies this
      ensures answer == Steps.AddItemAnswer(old(State()), o, quantity)
      ensures State() == Steps.AddItem(old(State()), o, product, variant, price, quantity, preference)
    {
      answer := Steps.AddItemAnswer(State(), o, quantity);
      if answer.Some? {
        return;
      }
      var order := orders[o];
      order := order.(lines := order.lines + [Line(product, variant, price, quantity, preference, Ordered)]);
      order := order.(total := Total(order.lines, order.issues));
      orders := orders[o := order];
    }

    /** Reserve first, then compare how many rows that touched, then move the order: the whole of it is
        undone when the shelves cannot hold every line. */
    method Place(o: OrderId, destinationValid: bool, window: Option<Time>, clock: Time)
      returns (answer: Steps.Answer)
      modifies this
      ensures answer == Steps.PlaceAnswer(old(State()), o, destinationValid, window)
      ensures State() == Steps.Place(old(State()), o, destinationValid, window, clock)
    {
      answer := None;
      if !destinationValid {
        return Some(Steps.NoDestination);
      }
      if o >= |orders| {
        return Some(Steps.NoSuchRow);
      }
      var order := orders[o];
      if order.status != Cart {
        return Some(Steps.NotACart);
      }
      if |order.lines| == 0 {
        return Some(Steps.EmptyCart);
      }
      if window.None? {
        return Some(Steps.TimeoutUnset);
      }
      var undo := inventory;
      var affected := |Steps.Matched(inventory, order.store, order.lines)|;
      inventory := Steps.ReserveLines(inventory, order.store, order.lines);
      if affected != |order.lines| {
        inventory := undo;
        return Some(Steps.OutOfStock);
      }
      order := order.(status := Placed, deadline := Some(clock + window.value), stock := StockReserved);
      order := order.(history := order.history + [Change(Cart, Placed)]);
      orders := orders[o := order];
    }

    /** The customer's answer, once: the line, then the total read afresh from lines and issues. */
    method DecideIssue(o: OrderId, n: nat, accept: bool) returns (answer: Steps.Answer)
      modifies this
      ensures answer == Steps.DecideAnswer(old(State()), o, n, accept)
      ensures State() == Steps.DecideIssue(old(State()), o, n, accept)
    {
      answer := None;
      if o >= |orders| {
        return Some(Steps.NoSuchRow);
      }
      var order := orders[o];
      if n >= |order.issues| || order.issues[n].resolution != Pending {
        return Some(Steps.IssueSettled);
      }
      var i := order.issues[n].line;
      if i >= |order.lines| {
        return Some(Steps.NoSuchRow);
      }
      order := order.(issues := order.issues[n := order.issues[n].(
        resolution := if accept then CustomerAccepted else CustomerDeclined)]);
      order := order.(lines := order.lines[i := order.lines[i].(status := if accept then Substituted else Removed)]);
      order := order.(total := Total(order.lines, order.issues));
      if order.total < 0 {
        return Some(Steps.NegativeTotal);
      }
      orders := orders[o := order];
    }

    // --- moving and calling off ------------------------------------------------------------------

    method Transition(o: OrderId, from: OrderStatus, to: OrderStatus) returns (answer: Steps.Answer)
      modifies this
      ensures answer == Steps.TransitionAnswer(old(State()), o, from, to)
      ensures State() == Steps.Transition(old(State()), o, from, to)
    {
      answer := Steps.TransitionAnswer(State(), o, from, to);
      if answer.None? {
        var order := orders[o].(status := to);
        order := order.(history := order.history + [Change(from, to)]);
        orders := orders[o := order];
      }
    }

    /** Gives held stock back or hands it over, at most once for an order. */
    method SettleOrderStock(o: OrderId, to: StockState)
      requires to == StockReleased || to == StockConsumed
      modifies this
      ensures State() == Steps.SettleStock(old(State()), o, to)
    {
      if o >= |orders| || orders[o].stock != StockReserved {
        return;
      }
      orders := orders[o := orders[o].(stock := to)];
      inventory := Steps.SettleLines(inventory, orders[o].store, orders[o].lines, to);
    }

    /** Both rejections: the shop's and the customer's differ in which states they are allowed from. */
    method CallOff(o: OrderId, byCustomer: bool) returns (answer: Steps.Answer)
      modifies this
      ensures answer.None? <==>
        o < |old(orders)| &&
        (if byCustomer then old(orders)[o].status in {Cart, Placed, PaymentPending, Confirmed}
         else old(orders)[o].status in {Placed, PaymentPending, Confirmed})
      ensures answer.Some? ==> State() == old(State())
      ensures answer.None? ==>
        State() == Steps.SettleStock(
          Steps.Transition(old(State()), o, old(orders)[o].status, CancelledOrder), o, StockReleased)
        && orders[o].status == CancelledOrder && orders[o].stock != StockReserved
    {
      if o >= |orders| {
        return Some(Steps.NoSuchRow);
      }
      var from := orders[o].status;
      if if byCustomer then !CustomerCancellable(from) else !MerchantCancellable(from) {
        return Some(Steps.NotCancellable);
      }
      answer := Transition(o, from, CancelledOrder);
      SettleOrderStock(o, StockReleased);
    }

    /** The overdue order that has waited longest, if any is overdue. */
    method EarliestOverdue(now: Time) returns (found: Option<OrderId>)
      ensures found.None? ==> forall p :: !OverdueAt(orders, p, now)
      ensures found.Some? ==>
        OverdueAt(orders, found.value, now) && NoneEarlier(orders, orders[found.value].deadline.value, now)
    {
      found := None;
      for o := 0 to |orders|
        invariant found.None? ==> forall p :: 0 <= p < o ==> !OverdueAt(orders, p, now)
        invariant found.Some? ==> found.value < o && OverdueAt(orders, found.value, now)
        invariant found.Some? ==> forall p :: 0 <= p < o && OverdueAt(orders, p, now) ==>
          orders[found.value].deadline.value <= orders[p].deadline.value
      {
        if Steps.Overdue(orders[o], now)
           && (found.None? || orders[o].deadline.value < orders[found.value].deadline.value) {
          found := Some(o);
        }
      }
    }

    /** Cancels up to `limit` orders nobody answered in time, longest overdue first, and only those; all of
        them when the limit allows. Their stock is still held: the sweeper releases it next. */
    method ExpireOverdue(now: Time, limit: int) returns (expired: seq<OrderId>)
      modifies this
      ensures State() == CancelAll(old(State()), expired, now)
      ensures |orders| == |old(orders)| && inventory == old(inventory) && deliveries == old(deliveries)
      ensures forall o :: o in expired ==> o < |orders| && Steps.Overdue(old(orders)[o], now)
      ensures forall o :: 0 <= o < |orders| ==>
        orders[o] == if o in expired then Steps.WithStatus(old(orders)[o], CancelledOrder) else old(orders)[o]
      ensures |expired| <= if limit <= 0 then 100 else limit
      ensures |expired| < (if limit <= 0 then 100 else limit) ==> forall o :: !OverdueAt(orders, o, now)
      ensures forall o :: o in expired ==>
        OverdueAt(old(orders), o, now) && NoneEarlier(orders, old(orders)[o].deadline.value, now)
      ensures forall o :: o in expired ==> Lapsed(old(orders), o, now) && orders[o].status == CancelledOrder
      ensures |expired| < (if limit <= 0 then 100 else limit) ==> forall o :: !Lapsed(orders, o, now)
    {
      var bound := if limit <= 0 then 100 else limit;
      expired := [];
      while |expired| < bound
        invariant |expired| <= bound
        invariant |orders| == |old(orders)| && inventory == old(inventory) && deliveries == old(deliveries)
        invariant State() == CancelAll(old(State()), expired, now)
        invariant forall o :: o in expired ==> OverdueAt(old(orders), o, now)
        invariant forall o :: 0 <= o < |orders| ==>
          orders[o] == if o in expired then Steps.WithStatus(old(orders)[o], CancelledOrder) else old(orders)[o]
        invariant forall o :: o in expired ==> NoneEarlier(orders, old(orders)[o].deadline.value, now)
        decreases bound - |expired|
      {
        var next := EarliestOverdue(now);
        if next.None? {
          forall p ensures !Lapsed(orders, p, now) {
            OverdueIsLapsed(orders, p, now);
          }
          return;
        }
        var o := next.value;
        ghost var before := orders;
        orders := orders[o := Steps.WithStatus(orders[o], CancelledOrder)];
        expired := expired + [o];
        assert forall p :: OverdueAt(orders, p, now) ==> OverdueAt(before, p, now) && orders[p] == before[p];
      }
    }

    /** The sweeper's pass: expire, then release what each expired order held. */
    method SweepOverdue(now: Time, limit: int) returns (expired: seq<OrderId>)
      modifies this
      ensures State() == ReleaseAll(CancelAll(old(State()), expired, now), expired)
      ensures |orders| == |old(orders)| && deliveries == old(deliveries)
      ensures forall o :: o in expired ==>
        o < |orders| && Steps.Overdue(old(orders)[o], now)
        && orders[o].status == CancelledOrder && orders[o].stock != StockReserved
      ensures forall o :: 0 <= o < |orders| && o !in expired ==> orders[o] == old(orders)[o]
    {
      expired := ExpireOverdue(now, limit);
      ReleasedAll(State(), expired);
      ReleaseEach(expired);
    }

    method ReleaseEach(ids: seq<OrderId>)
      modifies this
      ensures State() == ReleaseAll(old(State()), ids)
    {
      for n := 0 to |ids|
        invariant State() == ReleaseAll(old(State()), ids[..n])
      {
        ReleaseOneMore(old(State()), ids, n);
        SettleOrderStock(ids[n], StockReleased);
      }
      assert ids[..|ids|] == ids;
    }

    // --- picking -----------------------------------------------------------------------------------

    /** Only an order being picked has problems. A substitute needs a price before it can be charged. */
    method ReportIssue(o: OrderId, i: nat, proposed: IssueAction, price: Option<int>) returns (answer: Steps.Answer)
      modifies this
      ensures answer.None? <==>
        o < |old(orders)| && old(orders)[o].status == Preparing
        && Steps.ReportAnswer(old(State()), o, i, proposed, price).None?
      ensures State() == if answer.Some? then old(State()) else Steps.ReportIssue(old(State()), o, i, proposed, price)
    {
      if o >= |orders| || orders[o].status != Preparing {
        return Some(Steps.BadAction);
      }
      if i >= |orders[o].lines| {
        return Some(Steps.NoSuchRow);
      }
      var order := orders[o];
      var line := order.lines[i];
      var action := Steps.ResolveIssue(line.preference, proposed);
      if action == Substitute && price.None? {
        return Some(Steps.SubstituteIncomplete);
      }
      var issue, status := Issue(i, action, None, None, AutoApplied), None;
      match action {
        case Substitute =>
          issue := issue.(price := price,
                          difference := Some(Steps.PriceDifference(line.price, price.value, line.quantity)));
          status := Some(Substituted);
        case Remove =>
          status := Some(Removed);
        case Ask =>
          issue := issue.(price := price, resolution := Pending);
          if price.Some? {
            issue := issue.(difference := Some(Steps.PriceDifference(line.price, price.value, line.quantity)));
          }
      }
      order := order.(issues := order.issues + [issue]);
      if status.Some? {
        order := order.(lines := order.lines[i := line.(status := status.value)]);
        order := order.(total := Total(order.lines, order.issues));
      }
      assert order.lines == orders[o].lines[i := Steps.LineAfter(line, action)];
      if order.total < 0 {
        return Some(Steps.NegativeTotal);
      }
      orders := orders[o := order];
      answer := None;
    }

    // --- the link to a delivery -------------------------------------------------------------------

    method AttachJob(o: OrderId, j: nat) returns (answer: Steps.Answer)
      modifies this
      ensures answer == Steps.AttachAnswer(old(State()), o)
      ensures State() == Steps.Attach(old(State()), o, j)
    {
      answer := Steps.AttachAnswer(State(), o);
      if answer.None? {
        orders := orders[o := orders[o].(job := Some(j))];
      }
    }

    /** Hands a picked order to a driver; asking again answers the same delivery, and a delivery that was
        never linked is made good. */
    method MarkReady(o: OrderId, routable: bool) returns (job: Option<nat>)
      modifies this
      ensures
        if o >= |old(orders)| || old(orders)[o].status !in {ReadyForPickup, Preparing} then
          job == None && State() == old(State())
        else if old(orders)[o].status == ReadyForPickup && old(orders)[o].job.Some? then
          job == old(orders)[o].job && State() == old(State())
        else if !routable then
          job == None && State() == old(State())
        else
          && State() == Handed(old(State()), o)
          && job == if old(orders)[o].job.None? then Some(|old(deliveries)|) else None
    {
      if o >= |orders| {
        return None;
      }
      if orders[o].status == ReadyForPickup {
        if orders[o].job.Some? {
          return orders[o].job;
        }
      } else if orders[o].status != Preparing {
        return None;
      }
      if !routable {
        return None;
      }
      if orders[o].status == Preparing {
        var _ := Transition(o, Preparing, ReadyForPickup);
        SettleOrderStock(o, StockConsumed);
      }
      var j := |deliveries|;
      deliveries := deliveries + [Delivery(o, Jobs.Requested, {Jobs.Requested})];
      var answer := AttachJob(o, j);
      if answer.Some? {
        return None;
      }
      job := Some(j);
    }

    /** Moves the order behind a delivery to wherever the delivery has got to, one recorded state at a
        time; news it has already acted on, or gone past, changes nothing. */
    method FollowDelivery(j: nat, news: Jobs.JobStatus) returns (found: Option<OrderId>)
      modifies this
      ensures inventory == old(inventory) && deliveries == old(deliveries) && |orders| == |old(orders)|
      ensures found.Some? ==> BehindJob(old(orders), found.value, j)
      ensures found.None? ==>
        orders == old(orders)
        && (news !in {Jobs.InProgress, Jobs.AtDropoff, Jobs.Completed, Jobs.Cancelled, Jobs.Expired, Jobs.Failed}
            || forall o :: !BehindJob(old(orders), o, j))
      ensures found.Some? ==>
        var o, before := found.value, old(orders)[found.value];
        && orders == old(orders)[o := orders[o]]
        && orders[o] == before.(status := orders[o].status, history := orders[o].history)
        && Answers.PutWhereItBelongs(before.status, news, orders[o].status)
        && Answers.RecordsTheWalk(before, orders[o])
    {
      var progress := Steps.DeliveryProgress(news);
      if progress.None? {
        return None;
      }
      if o :| 0 <= o < |orders| && BehindJob(orders, o, j) {
        found := Some(o);
        MoveAlong(o, progress.value);
        NewsComesTo(old(orders)[o], news, orders[o]);
      } else {
        found := None;
      }
    }

    /** To failure in one step, or along the delivery flow one recorded state at a time. */
    method MoveAlong(o: OrderId, target: OrderStatus)
      requires o < |orders| && (target == FailedOrder || FlowIndex(target) >= 0)
      modifies this
      ensures inventory == old(inventory) && deliveries == old(deliveries) && |orders| == |old(orders)|
      ensures orders == old(orders)[o := orders[o]]
      ensures MovedAlong(old(orders)[o], target, orders[o])
    {
      var status := orders[o].status;
      if target == FailedOrder {
        if !Terminal(status) {
          var _ := Transition(o, status, FailedOrder);
        }
        return;
      }
      var from, to := FlowIndex(status), FlowIndex(target);
      if from < 0 || to <= from {
        return;
      }
      ghost var before := orders[o];
      for i := from to to
        invariant |orders| == |old(orders)| && orders == old(orders)[o := orders[o]]
        invariant orders[o].status == DELIVERY_FLOW[i]
        invariant orders[o].history == before.history + FlowRows(from, i)
        invariant orders[o] == before.(status := orders[o].status, history := orders[o].history)
        invariant inventory == old(inventory) && deliveries == old(deliveries)
      {
        var answer := Transition(o, DELIVERY_FLOW[i], DELIVERY_FLOW[i + 1]);
        assert FlowRows(from, i + 1) == FlowRows(from, i) + [Change(DELIVERY_FLOW[i], DELIVERY_FLOW[i + 1])];
      }
    }
  }

  predicate MovedAlong(before: Order, target: OrderStatus, after: Order) {
    && after == before.(status := after.status, history := after.history)
    && if target == FailedOrder then
         after == if Edge(before.status, FailedOrder) then Steps.WithStatus(before, FailedOrder) else before
       else if 0 <= FlowIndex(before.status) < FlowIndex(target) then
         && after.status == target
         && after.history == before.history + FlowRows(FlowIndex(before.status), FlowIndex(target))
       else after == before
  }

  lemma FlowRowsAre(from: nat, to: nat)
    requires from <= to < |DELIVERY_FLOW|
    ensures FlowRows(from, to) ==
      [Change(ReadyForPickup, PickedUp), Change(PickedUp, Delivering), Change(Delivering, Delivered)][from..to]
  {
  }

  /** Told in the order's own states, for each piece of news. */
  lemma NewsComesTo(before: Order, news: Jobs.JobStatus, after: Order)
    requires Steps.DeliveryProgress(news).Some? && MovedAlong(before, Steps.DeliveryProgress(news).value, after)
    ensures Answers.PutWhereItBelongs(before.status, news, after.status) && Answers.RecordsTheWalk(before, after)
  {
    var target := Steps.DeliveryProgress(news).value;
    if 0 <= FlowIndex(before.status) < FlowIndex(target) {
      FlowRowsAre(FlowIndex(before.status), FlowIndex(target));
    }
  }

  /** Packing an order hands its stock over, makes one delivery for it and links the two. */
  lemma HandingOverLeaves(db: Db, o: OrderId)
    requires o < |db.orders| && db.orders[o].status == Preparing && db.orders[o].job.None?
    ensures var before, after := db.orders[o], Handed(db, o);
      && |after.orders| == |db.orders|
      && after.orders[o].status == ReadyForPickup && after.orders[o].job == Some(|db.deliveries|)
      && after.orders[o].history == before.history + [Change(Preparing, ReadyForPickup)]
      && after.orders[o].stock == (if before.stock == StockReserved then StockConsumed else before.stock)
      && after.inventory == (if before.stock == StockReserved
                             then Steps.SettleLines(db.inventory, before.store, before.lines, StockConsumed)
                             else db.inventory)
      && after.deliveries == db.deliveries + [Delivery(o, Jobs.Requested, {Jobs.Requested})]
  {
  }
}
