/** The order lifecycle and the histories it permits. */
module OrderMachine {

  datatype OrderStatus =
    | Cart | Placed | PaymentPending | Confirmed | Preparing | ReadyForPickup
    | PickedUp | Delivering | Delivered | CancelledOrder | FailedOrder

  function Next(from: OrderStatus): set<OrderStatus> {
    match from
    case Cart => {Placed, CancelledOrder}
    case Placed => {PaymentPending, Confirmed, CancelledOrder, FailedOrder}
    case PaymentPending => {Confirmed, CancelledOrder, FailedOrder}
    case Confirmed => {Preparing, CancelledOrder}
    case Preparing => {ReadyForPickup, CancelledOrder, FailedOrder}
    case ReadyForPickup => {PickedUp, CancelledOrder, FailedOrder}
    case PickedUp => {Delivering, FailedOrder}
    case Delivering => {Delivered, FailedOrder}
    case _ => {}
  }

  predicate Edge(from: OrderStatus, to: OrderStatus) {
    to in Next(from)
  }

  predicate Terminal(s: OrderStatus) {
    s in {Delivered, CancelledOrder, FailedOrder}
  }

  predicate MerchantCancellable(s: OrderStatus) {
    s in {Placed, PaymentPending, Confirmed}
  }

  predicate CustomerCancellable(s: OrderStatus) {
    s in {Cart, Placed, PaymentPending, Confirmed}
  }

  /** One recorded transition. */
  datatype Change = Change(from: OrderStatus, to: OrderStatus)

  /** The status a history leads to; an order begins as a cart and nothing is recorded for that. */
  function EndOf(h: seq<Change>): OrderStatus {
    if |h| == 0 then Cart else h[|h| - 1].to
  }

  /** Every change is an edge and starts where the one before it ended. */
  predicate Chain(h: seq<Change>) {
    |h| == 0 ||
    (&& Chain(h[..|h| - 1])
     && h[|h| - 1].from == EndOf(h[..|h| - 1])
     && Edge(h[|h| - 1].from, h[|h| - 1].to))
  }

  predicate Visits(h: seq<Change>, s: OrderStatus) {
    exists i :: 0 <= i < |h| && h[i].to == s
  }

  lemma ChainGrows(h: seq<Change>, to: OrderStatus)
    requires Chain(h) && Edge(EndOf(h), to)
    ensures Chain(h + [Change(EndOf(h), to)]) && EndOf(h + [Change(EndOf(h), to)]) == to
  {
  }

  /** The statuses every history must already have been through to be at `s`. */
  function Before(s: OrderStatus): set<OrderStatus> {
    match s
    case Preparing => {Placed, Confirmed}
    case ReadyForPickup => {Placed, Confirmed, Preparing}
    case PickedUp => {Placed, Confirmed, Preparing, ReadyForPickup}
    case Delivering => {Placed, Confirmed, Preparing, ReadyForPickup, PickedUp}
    case Delivered => {Placed, Confirmed, Preparing, ReadyForPickup, PickedUp, Delivering}
    case Confirmed => {Placed}
    case PaymentPending => {Placed}
    case _ => {}
  }

  /** No history skips a stage: each is a connected chain from the cart. */
  lemma {:induction false} HistoriesSkipNothing(h: seq<Change>, s: OrderStatus)
    requires Chain(h) && s in Before(EndOf(h))
    ensures Visits(h, s)
  {
    if |h| > 0 {
      var n := |h| - 1;
      var from := h[n].from;
      assert EndOf(h[..n]) == from && Edge(from, EndOf(h));
      if from == s {
        assert n > 0 && h[n - 1] == h[..n][n - 1];
      } else {
        HistoriesSkipNothing(h[..n], s);
        var i :| 0 <= i < n && h[..n][i].to == s;
        assert h[i].to == s;
      }
    }
  }

  /** A delivered order was picked, made ready, collected and carried, and every one of those is on record. */
  lemma DeliveredTellsItsStory(h: seq<Change>)
    requires Chain(h) && EndOf(h) == Delivered
    ensures Visits(h, Preparing) && Visits(h, ReadyForPickup) && Visits(h, PickedUp) && Visits(h, Delivering)
  {
    HistoriesSkipNothing(h, Preparing);
    HistoriesSkipNothing(h, ReadyForPickup);
    HistoriesSkipNothing(h, PickedUp);
    HistoriesSkipNothing(h, Delivering);
  }

  /** A merchant or customer may call an order off only before anybody has begun picking it. */
  lemma {:induction false} CancellableIsUnpicked(h: seq<Change>)
    requires Chain(h) && CustomerCancellable(EndOf(h))
    ensures !Visits(h, Preparing)
  {
    if |h| > 0 {
      var n := |h| - 1;
      assert Edge(h[n].from, h[n].to) && h[n].from == EndOf(h[..n]);
      CancellableIsUnpicked(h[..n]);
      forall i | 0 <= i < |h| ensures h[i].to != Preparing {
        assert i < n ==> h[i] == h[..n][i];
      }
    }
  }

  // --- the delivery's part of the flow ------------------------------------------------------

  const DELIVERY_FLOW: seq<OrderStatus> := [ReadyForPickup, PickedUp, Delivering, Delivered]

  /** Position on the delivery flow, or -1 off it. */
  function FlowIndex(s: OrderStatus): int {
    match s
    case ReadyForPickup => 0 case PickedUp => 1 case Delivering => 2 case Delivered => 3
    case _ => -1
  }
}
