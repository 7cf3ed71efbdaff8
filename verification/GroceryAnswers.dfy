/** What grocery operations answer and leave, told in the rows themselves: what a line adds, when an order
    lapses, what a reported problem does to the total, and what news of a delivery does to its order. */
module GroceryAnswers {
  import opened Common
  import opened OrderMachine
  import opened GroceryTables
  import opened GrocerySteps
  import opened GroceryTotal
  import Jobs = JobMachine

  // --- the total, one line at a time -----------------------------------------------------------------

  /** When only one line's charge differs, the totals differ by that. */
  lemma {:induction false} TotalsDifferByOneCharge(
    a: seq<Line>, ai: seq<Issue>, b: seq<Line>, bi: seq<Issue>, i: nat, n: nat)
    requires i < |a| == |b| && n <= |a|
    requires forall k :: 0 <= k < |a| && k != i ==> Charge(b, bi, k) == Charge(a, ai, k)
    ensures TotalOf(b, bi, n) == TotalOf(a, ai, n) + if i < n then Charge(b, bi, i) - Charge(a, ai, i) else 0
  {
    if n > 0 {
      TotalsDifferByOneCharge(a, ai, b, bi, i, n - 1);
    }
  }

  lemma {:induction false} NothingSettledBeyond(lines: seq<Line>, issues: seq<Issue>, i: nat)
    requires i >= |lines| && forall m :: 0 <= m < |issues| ==> IssueSound(lines, issues[m])
    ensures LatestSettled(issues, i).None?
  {
    if |issues| > 0 {
      NothingSettledBeyond(lines, issues[..|issues| - 1], i);
    }
  }

  lemma {:induction false} OneLineMore(lines: seq<Line>, issues: seq<Issue>, line: Line, n: nat)
    requires n <= |lines|
    ensures TotalOf(lines + [line], issues, n) == TotalOf(lines, issues, n)
  {
    if n > 0 {
      OneLineMore(lines, issues, line, n - 1);
    }
  }

  /** A line is added if and only if the order is still a cart and the quantity lies between 1 and 100, and
      it adds its price times its quantity to the total. */
  lemma AddingChargesTheLine(
    db: Db, o: OrderId, product: nat, variant: Option<nat>, price: nat, quantity: int, preference: Preference)
    requires TotalInv(db)
    ensures AddItemAnswer(db, o, quantity).None? <==>
      1 <= quantity <= 100 && o < |db.orders| && db.orders[o].status == Cart
    ensures AddItemAnswer(db, o, quantity).None? ==>
      var before, after := db.orders[o], AddItem(db, o, product, variant, price, quantity, preference).orders[o];
      && after.total == before.total + price * quantity
      && after.lines == before.lines + [Line(product, variant, price, quantity, preference, Ordered)]
  {
    if AddItemAnswer(db, o, quantity).None? {
      var before, after := db.orders[o], AddItem(db, o, product, variant, price, quantity, preference).orders[o];
      assert TotalSound(before);
      NothingSettledBeyond(before.lines, before.issues, |before.lines|);
      OneLineMore(before.lines, before.issues, after.lines[|before.lines|], |before.lines|);
    }
  }

  // --- the shelves ---------------------------------------------------------------------------------------

  /** A stock take is refused exactly when it counts fewer than are already promised; otherwise it writes what
      was counted and keeps the promises. */
  lemma CountRefusedExactlyWhenOversold(db: Db, k: Shelf, available: bool, quantity: Option<nat>)
    ensures var after, held := SetInventory(db, k, available, quantity), if k in db.inventory then db.inventory[k].reserved else 0;
      && (SetInventoryAnswer(db, k, quantity).Some? <==> quantity.Some? && quantity.value < held)
      && (SetInventoryAnswer(db, k, quantity).Some? ==> after == db)
      && (SetInventoryAnswer(db, k, quantity).None? ==>
            after == db.(inventory := db.inventory[k := Stock(available, quantity, held)]))
  {
  }

  // --- one cart each -----------------------------------------------------------------------------------

  /** No customer has two open carts at one shop. */
  predicate OneCartEach(orders: seq<Order>) {
    forall i, k :: 0 <= i < k < |orders| && orders[i].status == Cart && orders[k].status == Cart ==>
      !(orders[i].customer == orders[k].customer && orders[i].store == orders[k].store)
  }

  /** No order becomes a cart, and every new one is the customer's only cart there. */
  lemma OnlyOpeningMakesCarts(db: Db, s: Step, o: OrderId)
    requires !s.OpenCartStep? && o < |Apply(db, s).orders| && Apply(db, s).orders[o].status == Cart
    ensures o < |db.orders| && db.orders[o].status == Cart
    ensures Apply(db, s).orders[o].customer == db.orders[o].customer && Apply(db, s).orders[o].store == db.orders[o].store
  {
  }

  lemma OpeningKeepsOneCart(db: Db, customer: nat, store: nat)
    requires OneCartEach(db.orders)
    ensures OneCartEach(OpenCart(db, customer, store).orders)
  {
    var after := OpenCart(db, customer, store).orders;
    forall i, k | 0 <= i < k < |after| && after[i].status == Cart && after[k].status == Cart
      ensures !(after[i].customer == after[k].customer && after[i].store == after[k].store)
    {
      if k == |db.orders| {
        assert !CartAt(db.orders, i, customer, store);
      }
    }
  }

  lemma StepKeepsOneCart(db: Db, s: Step)
    requires OneCartEach(db.orders)
    ensures OneCartEach(Apply(db, s).orders)
  {
    if s.OpenCartStep? {
      OpeningKeepsOneCart(db, s.customer, s.store);
    } else {
      var after := Apply(db, s).orders;
      forall o | 0 <= o < |after| && after[o].status == Cart
        ensures o < |db.orders| && db.orders[o].status == Cart
        ensures after[o].customer == db.orders[o].customer && after[o].store == db.orders[o].store
      {
        OnlyOpeningMakesCarts(db, s, o);
      }
    }
  }

  /** In every run: asking for a cart twice answers the one there is, never a second. */
  lemma {:induction false} EveryoneHasOneCart(db: Db, ss: seq<Step>)
    requires OneCartEach(db.orders)
    ensures OneCartEach(Run(db, ss).orders)
    decreases |ss|
  {
    if |ss| > 0 {
      StepKeepsOneCart(db, ss[0]);
      EveryoneHasOneCart(Apply(db, ss[0]), ss[1..]);
    }
  }

  // --- placing and lapsing ---------------------------------------------------------------------------

  /** A cart with something in it is placed if and only if it has somewhere to go, a window to wait and shelves
      that can hold it. Then it waits for the shop until one window after that moment, with its stock held and
      one row recorded. */
  lemma PlacedOrderWaits(db: Db, o: OrderId, destinationValid: bool, window: Option<Time>, clock: Time)
    ensures PlaceAnswer(db, o, destinationValid, window).None? <==>
      && destinationValid && window.Some? && o < |db.orders|
      && db.orders[o].status == Cart && db.orders[o].lines != []
      && CanReserve(db.inventory, db.orders[o].store, db.orders[o].lines)
    ensures PlaceAnswer(db, o, destinationValid, window).None? ==>
      var order, after := db.orders[o], Place(db, o, destinationValid, window, clock).orders[o];
      && after == order.(status := Placed, deadline := Some(clock + window.value), stock := StockReserved,
                         history := order.history + [Change(Cart, Placed)])
  {
  }

  /** An order lapses at a moment if and only if it is still PLACED and its deadline has come. */
  lemma LapsesExactlyWhenOverdue(db: Db, o: OrderId, now: Time)
    requires o < |db.orders|
    ensures var before, after := db.orders[o], ExpireOne(db, o, now).orders[o];
      && (after != before <==>
            before.status == Placed && before.deadline.Some? && before.deadline.value <= now)
      && (after != before ==>
            after == before.(status := CancelledOrder, history := before.history + [Change(Placed, CancelledOrder)]))
  {
  }

  // --- a reported problem ------------------------------------------------------------------------------

  /** The line goes: the shop says so, or proposes a substitute the customer does not allow. */
  predicate TakenOff(preference: Preference, proposed: IssueAction) {
    proposed == Remove || (proposed == Substitute && preference == DoNotAllow)
  }

  /** The customer is asked: the shop does, or proposes a substitute to a customer who wants to be. */
  predicate AskedAbout(preference: Preference, proposed: IssueAction) {
    proposed == Ask || (proposed == Substitute && preference == AskMe)
  }

  /** Only one line's charge may have changed by a report. */
  lemma ReportTouchesOneCharge(db: Db, o: OrderId, i: nat, proposed: IssueAction, price: Option<int>)
    requires TotalInv(db) && ReportAnswer(db, o, i, proposed, price).None?
    ensures var before, after := db.orders[o], ReportIssue(db, o, i, proposed, price).orders[o];
      && |after.lines| == |before.lines| && |after.issues| == |before.issues| + 1
      && after.total == before.total + Charge(after.lines, after.issues, i) - Charge(before.lines, before.issues, i)
  {
    var before, after := db.orders[o], ReportIssue(db, o, i, proposed, price).orders[o];
    assert TotalSound(before);
    ReportKeeps(db, o, i, proposed, price);
    assert TotalSound(after);
    assert after.issues[..|before.issues|] == before.issues;
    TotalsDifferByOneCharge(before.lines, before.issues, after.lines, after.issues, i, |before.lines|);
  }

  /** What each report comes to. A substitute a customer does not allow, like a removal, takes the line's
      charge off the total; a substitute the customer allows replaces it by the substitute's price; a
      question leaves lines and total as they are and waits. */
  lemma ReportComesTo(db: Db, o: OrderId, i: nat, proposed: IssueAction, price: Option<int>)
    requires TotalInv(db) && ReportAnswer(db, o, i, proposed, price).None?
    ensures var before, after := db.orders[o], ReportIssue(db, o, i, proposed, price).orders[o];
      var preference, charge := before.lines[i].preference, Charge(before.lines, before.issues, i);
      && |after.issues| == |before.issues| + 1
      && (TakenOff(preference, proposed) ==>
            after.total == before.total - charge && after.lines == before.lines[i := before.lines[i].(status := Removed)])
      && (AskedAbout(preference, proposed) ==>
            && after.total == before.total && after.lines == before.lines
            && after.issues[|before.issues|].resolution == Pending && after.issues[|before.issues|].line == i)
      && (proposed == Substitute && preference == Allow ==>
            && price.Some?
            && after.total == before.total - charge + price.value * before.lines[i].quantity
            && after.lines == before.lines[i := before.lines[i].(status := Substituted)])
  {
    ReportTouchesOneCharge(db, o, i, proposed, price);
    var before, after := db.orders[o], ReportIssue(db, o, i, proposed, price).orders[o];
    assert after.issues[..|before.issues|] == before.issues;
  }

  /** A decision is taken once, while its question is pending; yes marks the line SUBSTITUTED, no marks it
      REMOVED, and the answer is recorded. */
  lemma DecisionIsRecorded(db: Db, o: OrderId, n: nat, accept: bool)
    requires TotalInv(db) && o < |db.orders| && n < |db.orders[o].issues|
    ensures var before, after := db.orders[o], DecideIssue(db, o, n, accept).orders[o];
      var i := before.issues[n].line;
      && (DecideAnswer(db, o, n, accept).None? ==>
            && before.issues[n].resolution == Pending
            && after.issues == before.issues[n := before.issues[n].(
                 resolution := if accept then CustomerAccepted else CustomerDeclined)]
            && after.lines == before.lines[i := before.lines[i].(status := if accept then Substituted else Removed)]
            && DecideAnswer(DecideIssue(db, o, n, accept), o, n, !accept) == Some(IssueSettled)
            && DecideAnswer(DecideIssue(db, o, n, accept), o, n, accept) == Some(IssueSettled))
      && (DecideAnswer(db, o, n, accept).Some? ==>
            DecideAnswer(db, o, n, accept) == Some(NegativeTotal) || before.issues[n].resolution != Pending)
  {
    assert TotalSound(db.orders[o]) && IssueSound(db.orders[o].lines, db.orders[o].issues[n]);
  }

  // --- handing over and following ----------------------------------------------------------------------

  /** The single moves of an order that each piece of news may ask for, in any state. */
  lemma NewsMovesExactly(news: Jobs.JobStatus, from: OrderStatus, to: OrderStatus)
    ensures Follows(news, from, to) <==>
      || (&& news in {Jobs.InProgress, Jobs.AtDropoff}
          && ((from == ReadyForPickup && to == PickedUp) || (from == PickedUp && to == Delivering)))
      || (&& news == Jobs.Completed
          && (|| (from == ReadyForPickup && to == PickedUp) || (from == PickedUp && to == Delivering)
              || (from == Delivering && to == Delivered)))
      || (&& news in {Jobs.Cancelled, Jobs.Expired, Jobs.Failed}
          && to == FailedOrder && from !in {Delivered, CancelledOrder, FailedOrder})
  {
  }

  /** Where news of its delivery puts an order. */
  ghost predicate PutWhereItBelongs(before: OrderStatus, news: Jobs.JobStatus, after: OrderStatus) {
    && (news == Jobs.Completed && before in {ReadyForPickup, PickedUp, Delivering} ==> after == Delivered)
    && (news in {Jobs.InProgress, Jobs.AtDropoff} && before in {ReadyForPickup, PickedUp} ==> after == Delivering)
    && (news in {Jobs.Cancelled, Jobs.Expired, Jobs.Failed} && FailedOrder in Next(before) ==> after == FailedOrder)
    && (news == Jobs.Completed && before !in {ReadyForPickup, PickedUp, Delivering} ==> after == before)
    && (news in {Jobs.InProgress, Jobs.AtDropoff} && before !in {ReadyForPickup, PickedUp} ==> after == before)
    && (news in {Jobs.Cancelled, Jobs.Expired, Jobs.Failed} && FailedOrder !in Next(before) ==> after == before)
    && (news !in {Jobs.InProgress, Jobs.AtDropoff, Jobs.Completed, Jobs.Cancelled, Jobs.Expired, Jobs.Failed} ==>
          after == before)
  }

  /** The changes a walk from one place on the delivery flow to another records. */
  ghost predicate RecordsTheWalk(before: Order, after: Order) {
    var all := [Change(ReadyForPickup, PickedUp), Change(PickedUp, Delivering), Change(Delivering, Delivered)];
    && (before.status == after.status ==> after.history == before.history)
    && (after.status == FailedOrder != before.status ==>
          after.history == before.history + [Change(before.status, FailedOrder)])
    && (before.status == ReadyForPickup && after.status == Delivering ==> after.history == before.history + all[..2])
    && (before.status == ReadyForPickup && after.status == Delivered ==> after.history == before.history + all)
    && (before.status == PickedUp && after.status == Delivering ==> after.history == before.history + all[1..2])
    && (before.status == PickedUp && after.status == Delivered ==> after.history == before.history + all[1..])
    && (before.status == Delivering && after.status == Delivered ==> after.history == before.history + all[2..])
  }
}
