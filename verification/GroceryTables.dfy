/** Orders, their lines and item problems, the shelves they are picked from, and the deliveries they
    become. */
module GroceryTables {
  import opened Common
  import opened OrderMachine
  import Jobs = JobMachine

  type OrderId = nat
  type Time = int

  datatype Preference = Allow | DoNotAllow | AskMe

  datatype LineStatus = Ordered | Picked | Substituted | Removed | Unavailable

  /** The price is a snapshot taken when the line was added. */
  datatype Line = Line(
    product: nat, variant: Option<nat>, price: nat, quantity: nat, preference: Preference, status: LineStatus)

  datatype IssueAction = Substitute | Remove | Ask

  datatype Resolution = Pending | CustomerAccepted | CustomerDeclined | AutoApplied

  datatype Issue = Issue(
    line: nat, action: IssueAction, price: Option<int>, difference: Option<int>, resolution: Resolution)

  datatype StockState = NoStock | StockReserved | StockReleased | StockConsumed

  datatype Order = Order(
    customer: nat,
    store: nat,
    status: OrderStatus,
    job: Option<nat>,
    total: int,
    lines: seq<Line>,
    issues: seq<Issue>,
    stock: StockState,
    deadline: Option<Time>,
    history: seq<Change>)

  /** One row of inventory: a product, or one variant of it, at one store. */
  datatype Shelf = Shelf(store: nat, product: nat, variant: Option<nat>)

  /** A shop that tracks availability but not counts has no quantity. */
  datatype Stock = Stock(available: bool, quantity: Option<nat>, reserved: nat)

  /** A delivery job, as far as an order can see it: which order it was made for, where it is, and
      everywhere it has been. */
  datatype Delivery = Delivery(order: OrderId, status: Jobs.JobStatus, past: set<Jobs.JobStatus>)

  /** Orders and deliveries are only ever appended, so a row's position is its id. */
  datatype Db = Db(orders: seq<Order>, inventory: map<Shelf, Stock>, deliveries: seq<Delivery>)

  function ShelfOf(store: nat, line: Line): Shelf {
    Shelf(store, line.product, line.variant)
  }

  // --- what an order costs ------------------------------------------------------------------

  predicate Survives(line: Line) {
    line.status != Removed && line.status != Unavailable
  }

  /** A settled substitution of line `i`, with a price to charge. */
  predicate Settles(issue: Issue, i: nat) {
    && issue.line == i && issue.action == Substitute && issue.price.Some?
    && (issue.resolution == CustomerAccepted || issue.resolution == AutoApplied)
  }

  /** The latest settled substitution of line `i`. */
  function LatestSettled(issues: seq<Issue>, i: nat): Option<Issue> {
    if |issues| == 0 then None
    else if Settles(issues[|issues| - 1], i) then Some(issues[|issues| - 1])
    else LatestSettled(issues[..|issues| - 1], i)
  }

  function UnitPrice(lines: seq<Line>, issues: seq<Issue>, i: nat): int
    requires i < |lines|
  {
    var settled := LatestSettled(issues, i);
    if settled.Some? then settled.value.price.GetOr(0) else lines[i].price
  }

  /** What the customer pays for line `i`. */
  function Charge(lines: seq<Line>, issues: seq<Issue>, i: nat): int
    requires i < |lines|
  {
    if Survives(lines[i]) then UnitPrice(lines, issues, i) * lines[i].quantity else 0
  }

  /** What the database sums into the order: the first `n` lines. */
  function TotalOf(lines: seq<Line>, issues: seq<Issue>, n: nat): int
    requires n <= |lines|
  {
    if n == 0 then 0 else TotalOf(lines, issues, n - 1) + Charge(lines, issues, n - 1)
  }

  function Total(lines: seq<Line>, issues: seq<Issue>): int {
    TotalOf(lines, issues, |lines|)
  }

  // --- what an order holds --------------------------------------------------------------------

  /** Quantity the order's lines take from one shelf. */
  function QuantityOn(store: nat, lines: seq<Line>, k: Shelf): nat {
    if |lines| == 0 then 0
    else
      var last := lines[|lines| - 1];
      QuantityOn(store, lines[..|lines| - 1], k) + if ShelfOf(store, last) == k then last.quantity else 0
  }

  /** Quantity on one shelf summed over the orders whose stock is in the given state. */
  function Sum(orders: seq<Order>, s: StockState, k: Shelf): nat {
    if |orders| == 0 then 0
    else
      var last := orders[|orders| - 1];
      Sum(orders[..|orders| - 1], s, k) + if last.stock == s then QuantityOn(last.store, last.lines, k) else 0
  }

  predicate LineOn(store: nat, lines: seq<Line>, i: int, k: Shelf) {
    0 <= i < |lines| && ShelfOf(store, lines[i]) == k
  }

  predicate Wants(store: nat, lines: seq<Line>, k: Shelf) {
    exists i :: 0 <= i < |lines| && LineOn(store, lines, i, k)
  }

  /** No two lines come off the same shelf. */
  predicate DistinctLines(store: nat, lines: seq<Line>) {
    forall i, k :: 0 <= i < k < |lines| ==> ShelfOf(store, lines[i]) != ShelfOf(store, lines[k])
  }
}
