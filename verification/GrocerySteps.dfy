/** One committed grocery transaction at a time, and the runs they make up. */
module GrocerySteps {
  import opened Common
  import opened OrderMachine
  import opened GroceryTables
  import Jobs = JobMachine

  datatype Error =
    | NoSuchRow | NotACart | BadQuantity | NoDestination | EmptyCart | TimeoutUnset | OutOfStock
    | StaleOrder | IllegalMove | NotCancellable | JobAlreadyAttached | IssueSettled | BadAction
    | SubstituteIncomplete | NegativeTotal | Oversold

  type Answer = Option<Error>  // None is success

  const MAX_LINE_QUANTITY := 100

  function Put(db: Db, o: OrderId, order: Order): Db
    requires o < |db.orders|
  {
    db.(orders := db.orders[o := order])
  }

  function Recomputed(order: Order): Order {
    order.(total := Total(order.lines, order.issues))
  }

  // --- the cart ---------------------------------------------------------------------------

  function NewCart(customer: nat, store: nat): Order {
    Order(customer, store, Cart, None, 0, [], [], NoStock, None, [])
  }

  predicate CartAt(orders: seq<Order>, i: int, customer: nat, store: nat) {
    0 <= i < |orders| && orders[i].customer == customer && orders[i].store == store && orders[i].status == Cart
  }

  /** One open cart per customer and store: asking again finds the one there is. */
  function OpenCart(db: Db, customer: nat, store: nat): Db {
    if exists i :: 0 <= i < |db.orders| && CartAt(db.orders, i, customer, store) then db
    else db.(orders := db.orders + [NewCart(customer, store)])
  }

  function AddItemAnswer(db: Db, o: OrderId, quantity: int): Answer {
    if quantity <= 0 || quantity > MAX_LINE_QUANTITY then Some(BadQuantity)
    else if o >= |db.orders| then Some(NoSuchRow)
    else if db.orders[o].status != Cart then Some(NotACart)
    else None
  }

  /** `price` is what the catalogue asks at this moment. */
  function AddItem(
    db: Db, o: OrderId, product: nat, variant: Option<nat>, price: nat, quantity: int, preference: Preference): Db
  {
    if AddItemAnswer(db, o, quantity).Some? then db
    else
      var order := db.orders[o];
      var line := Line(product, variant, price, quantity, preference, Ordered);
      Put(db, o, Recomputed(order.(lines := order.lines + [line])))
  }

  // --- placing: holding stock ------------------------------------------------------------------

  predicate FitsOn(stock: Stock, quantity: nat) {
    stock.available && (stock.quantity.None? || stock.reserved + quantity <= stock.quantity.value)
  }

  /** Line `i` joins inventory row `k` and the row can hold it. */
  predicate Joins(inventory: map<Shelf, Stock>, store: nat, lines: seq<Line>, i: int, k: Shelf) {
    LineOn(store, lines, i, k) && k in inventory && FitsOn(inventory[k], lines[i].quantity)
  }

  /** The inventory rows the reserving statement updates: each at most once, however many lines join it. */
  function Matched(inventory: map<Shelf, Stock>, store: nat, lines: seq<Line>): set<Shelf> {
    set k | k in inventory && exists i :: 0 <= i < |lines| && Joins(inventory, store, lines, i, k)
  }

  /** The quantity some line takes from `k`: the database may pick any line that joins the row. */
  function TakenFrom(store: nat, lines: seq<Line>, k: Shelf): nat {
    if |lines| == 0 then 0
    else if ShelfOf(store, lines[|lines| - 1]) == k then lines[|lines| - 1].quantity
    else TakenFrom(store, lines[..|lines| - 1], k)
  }

  predicate CanReserve(inventory: map<Shelf, Stock>, store: nat, lines: seq<Line>) {
    |Matched(inventory, store, lines)| == |lines|
  }

  function ReserveLines(inventory: map<Shelf, Stock>, store: nat, lines: seq<Line>): map<Shelf, Stock> {
    map k | k in inventory ::
      if k in Matched(inventory, store, lines)
      then inventory[k].(reserved := inventory[k].reserved + TakenFrom(store, lines, k)) else inventory[k]
  }

  /** `window` is the merchant's acceptance window, or the platform's; unset when neither exists. */
  function PlaceAnswer(db: Db, o: OrderId, destinationValid: bool, window: Option<Time>): Answer {
    if !destinationValid then Some(NoDestination)
    else if o >= |db.orders| then Some(NoSuchRow)
    else if db.orders[o].status != Cart then Some(NotACart)
    else if |db.orders[o].lines| == 0 then Some(EmptyCart)
    else if window.None? then Some(TimeoutUnset)
    else if !CanReserve(db.inventory, db.orders[o].store, db.orders[o].lines) then Some(OutOfStock)
    else None
  }

  function WithStatus(order: Order, to: OrderStatus): Order {
    order.(status := to, history := order.history + [Change(order.status, to)])
  }

  function Place(db: Db, o: OrderId, destinationValid: bool, window: Option<Time>, clock: Time): Db {
    if PlaceAnswer(db, o, destinationValid, window).Some? then db
    else
      var order := db.orders[o];
      Put(db, o, WithStatus(order.(stock := StockReserved, deadline := Some(clock + window.value)), Placed))
        .(inventory := ReserveLines(db.inventory, order.store, order.lines))
  }

  // --- settling: giving stock back, or handing it over ---------------------------------------------

  function Max0(n: int): nat {
    if n < 0 then 0 else n
  }

  function ReleasedRow(stock: Stock, quantity: nat): Stock {
    stock.(reserved := Max0(stock.reserved - quantity))
  }

  function ConsumedRow(stock: Stock, quantity: nat): Stock {
    stock.(reserved := Max0(stock.reserved - quantity),
           quantity := if stock.quantity.None? then None else Some(Max0(stock.quantity.value - quantity)))
  }

  function SettleLines(inventory: map<Shelf, Stock>, store: nat, lines: seq<Line>, to: StockState): map<Shelf, Stock> {
    map k | k in inventory ::
      if !Wants(store, lines, k) then inventory[k]
      else if to == StockConsumed then ConsumedRow(inventory[k], TakenFrom(store, lines, k))
      else ReleasedRow(inventory[k], TakenFrom(store, lines, k))
  }

  /** Compare-and-set on the order's stock state; settling twice, or nothing, is not an error. */
  function SettleStock(db: Db, o: OrderId, to: StockState): Db {
    if o >= |db.orders| || db.orders[o].stock != StockReserved then db
    else
      var order := db.orders[o];
      Put(db, o, order.(stock := to)).(inventory := SettleLines(db.inventory, order.store, order.lines, to))
  }

  /** The table refuses a count below what is already held. */
  function SetInventoryAnswer(db: Db, k: Shelf, quantity: Option<nat>): Answer {
    if k in db.inventory && quantity.Some? && db.inventory[k].reserved > quantity.value then Some(Oversold) else None
  }

  function SetInventory(db: Db, k: Shelf, available: bool, quantity: Option<nat>): Db {
    if SetInventoryAnswer(db, k, quantity).Some? then db
    else
      var reserved := if k in db.inventory then db.inventory[k].reserved else 0;
      db.(inventory := db.inventory[k := Stock(available, quantity, reserved)])
  }

  // --- moving ----------------------------------------------------------------------------------

  function TransitionAnswer(db: Db, o: OrderId, from: OrderStatus, to: OrderStatus): Answer {
    if !Edge(from, to) then Some(IllegalMove)
    else if o >= |db.orders| || db.orders[o].status != from then Some(StaleOrder)
    else None
  }

  function Transition(db: Db, o: OrderId, from: OrderStatus, to: OrderStatus): Db {
    if TransitionAnswer(db, o, from, to).Some? then db else Put(db, o, WithStatus(db.orders[o], to))
  }

  predicate Overdue(order: Order, now: Time) {
    order.status == Placed && order.deadline.Some? && order.deadline.value <= now
  }

  /** Only the status and its record change: the stock is released by a later transaction. */
  function ExpireOne(db: Db, o: OrderId, now: Time): Db {
    if o >= |db.orders| || !Overdue(db.orders[o], now) then db
    else Put(db, o, WithStatus(db.orders[o], CancelledOrder))
  }

  // --- the delivery ---------------------------------------------------------------------------

  function CreateDelivery(db: Db, o: OrderId): Db {
    db.(deliveries := db.deliveries + [Delivery(o, Jobs.Requested, {Jobs.Requested})])
  }

  function AttachAnswer(db: Db, o: OrderId): Answer {
    if o >= |db.orders| || db.orders[o].job.Some? then Some(JobAlreadyAttached) else None
  }

  function Attach(db: Db, o: OrderId, j: nat): Db {
    if AttachAnswer(db, o).Some? then db else Put(db, o, db.orders[o].(job := Some(j)))
  }

  function MoveDelivery(db: Db, j: nat, to: Jobs.JobStatus): Db {
    if j >= |db.deliveries| then db
    else
      var delivery := db.deliveries[j];
      db.(deliveries := db.deliveries[j := delivery.(status := to, past := delivery.past + {to})])
  }

  /** Where a delivery in the given status puts its order, if anywhere. */
  function DeliveryProgress(s: Jobs.JobStatus): Option<OrderStatus> {
    match s
    case InProgress => Some(Delivering)
    case AtDropoff => Some(Delivering)
    case Completed => Some(Delivered)
    case Cancelled => Some(FailedOrder)
    case Expired => Some(FailedOrder)
    case Failed => Some(FailedOrder)
    case _ => None
  }

  /** A single transition following the news `s` may ask for. */
  predicate Follows(s: Jobs.JobStatus, from: OrderStatus, to: OrderStatus) {
    var target := DeliveryProgress(s);
    && target.Some?
    && if target.value == FailedOrder then to == FailedOrder && !Terminal(from)
       else 0 <= FlowIndex(from) && FlowIndex(to) == FlowIndex(from) + 1 && FlowIndex(to) <= FlowIndex(target.value)
  }

  // --- item problems -----------------------------------------------------------------------------

  /** The customer's standing instruction decides, not the merchant's proposal. */
  function ResolveIssue(preference: Preference, proposed: IssueAction): IssueAction {
    match preference
    case DoNotAllow => if proposed == Substitute then Remove else proposed
    case Allow => proposed
    case AskMe => if proposed == Substitute then Ask else proposed
  }

  /** Positive when the substitute costs more. */
  function PriceDifference(original: int, substitute: int, quantity: nat): int {
    (substitute - original) * quantity
  }

  function IssueFor(line: Line, i: nat, proposed: IssueAction, price: Option<int>): Issue {
    var difference := if price.Some? then Some(PriceDifference(line.price, price.value, line.quantity)) else None;
    match ResolveIssue(line.preference, proposed)
    case Substitute => Issue(i, Substitute, price, difference, AutoApplied)
    case Remove => Issue(i, Remove, None, None, AutoApplied)
    case Ask => Issue(i, Ask, price, difference, Pending)
  }

  /** Recording a question leaves the line as it is. */
  function LineAfter(line: Line, action: IssueAction): Line {
    match action
    case Substitute => line.(status := Substituted)
    case Remove => line.(status := Removed)
    case Ask => line
  }

  function WithIssue(order: Order, i: nat, issue: Issue): Order
    requires i < |order.lines|
  {
    var noted := order.(issues := order.issues + [issue],
                        lines := order.lines[i := LineAfter(order.lines[i], issue.action)]);
    if issue.action == Ask then noted else Recomputed(noted)
  }

  function ReportAnswer(db: Db, o: OrderId, i: nat, proposed: IssueAction, price: Option<int>): Answer {
    if o >= |db.orders| || i >= |db.orders[o].lines| then Some(NoSuchRow)
    else
      var line := db.orders[o].lines[i];
      if ResolveIssue(line.preference, proposed) == Substitute && price.None? then Some(SubstituteIncomplete)
      else if WithIssue(db.orders[o], i, IssueFor(line, i, proposed, price)).total < 0 then Some(NegativeTotal)
      else None
  }

  function ReportIssue(db: Db, o: OrderId, i: nat, proposed: IssueAction, price: Option<int>): Db {
    if ReportAnswer(db, o, i, proposed, price).Some? then db
    else Put(db, o, WithIssue(db.orders[o], i, IssueFor(db.orders[o].lines[i], i, proposed, price)))
  }

  function Decided(order: Order, n: nat, accept: bool): Order
    requires n < |order.issues| && order.issues[n].line < |order.lines|
  {
    var issue := order.issues[n].(resolution := if accept then CustomerAccepted else CustomerDeclined);
    var line := order.lines[issue.line].(status := if accept then Substituted else Removed);
    Recomputed(order.(issues := order.issues[n := issue], lines := order.lines[issue.line := line]))
  }

  /** Compare-and-set on PENDING. */
  function DecideAnswer(db: Db, o: OrderId, n: nat, accept: bool): Answer {
    if o >= |db.orders| then Some(NoSuchRow)
    else if n >= |db.orders[o].issues| || db.orders[o].issues[n].resolution != Pending then Some(IssueSettled)
    else if db.orders[o].issues[n].line >= |db.orders[o].lines| then Some(NoSuchRow)
    else if Decided(db.orders[o], n, accept).total < 0 then Some(NegativeTotal)
    else None
  }

  function DecideIssue(db: Db, o: OrderId, n: nat, accept: bool): Db {
    if DecideAnswer(db, o, n, accept).Some? then db else Put(db, o, Decided(db.orders[o], n, accept))
  }

  // --- runs ------------------------------------------------------------------------------------

  datatype Step =
    | OpenCartStep(customer: nat, store: nat)
    | AddItemStep(o: OrderId, product: nat, variant: Option<nat>, price: nat, quantity: int, preference: Preference)
    | PlaceStep(o: OrderId, destinationValid: bool, window: Option<Time>, clock: Time)
    | MoveStep(o: OrderId, from: OrderStatus, to: OrderStatus)
    | FollowStep(o: OrderId, from: OrderStatus, to: OrderStatus, news: Jobs.JobStatus)
    | ExpireStep(o: OrderId, now: Time)
    | ReleaseStockStep(o: OrderId)
    | ConsumeStockStep(o: OrderId)
    | CreateDeliveryStep(o: OrderId)
    | AttachStep(o: OrderId, j: nat)
    | MoveDeliveryStep(j: nat, next: Jobs.JobStatus)
    | ReportStep(o: OrderId, i: nat, proposed: IssueAction, substitute: Option<int>)
    | DecideStep(o: OrderId, n: nat, accept: bool)
    | SetInventoryStep(k: Shelf, available: bool, count: Option<nat>)

  function Apply(db: Db, s: Step): Db {
    match s
    case OpenCartStep(customer, store) => OpenCart(db, customer, store)
    case AddItemStep(o, product, variant, price, quantity, preference) =>
      AddItem(db, o, product, variant, price, quantity, preference)
    case PlaceStep(o, destinationValid, window, clock) => Place(db, o, destinationValid, window, clock)
    case MoveStep(o, from, to) => Transition(db, o, from, to)
    case FollowStep(o, from, to, _) => Transition(db, o, from, to)
    case ExpireStep(o, now) => ExpireOne(db, o, now)
    case ReleaseStockStep(o) => SettleStock(db, o, StockReleased)
    case ConsumeStockStep(o) => SettleStock(db, o, StockConsumed)
    case CreateDeliveryStep(o) => CreateDelivery(db, o)
    case AttachStep(o, j) => Attach(db, o, j)
    case MoveDeliveryStep(j, to) => MoveDelivery(db, j, to)
    case ReportStep(o, i, proposed, substitute) => ReportIssue(db, o, i, proposed, substitute)
    case DecideStep(o, n, accept) => DecideIssue(db, o, n, accept)
    case SetInventoryStep(k, available, count) => SetInventory(db, k, available, count)
  }

  /** The moves the merchant's and the customer's own buttons ask for. */
  predicate ButtonMove(from: OrderStatus, to: OrderStatus) {
    || (from == Placed && to == Confirmed)
    || (from == Confirmed && to == Preparing)
    || (from == Preparing && to == ReadyForPickup)
    || (to == CancelledOrder && (MerchantCancellable(from) || CustomerCancellable(from)))
  }

  /** A delivery moves along the job machine, or from SEARCHING straight to ACCEPTED. */
  predicate DeliveryMove(from: Jobs.JobStatus, to: Jobs.JobStatus) {
    Jobs.Edge(from, to) || (from == Jobs.Searching && to == Jobs.Accepted)
  }

  /** What some caller may ask for next. Each service call is a run of these, so a call interrupted or
      raced between its transactions is covered; only adding a line is taken as one with the check that
      the order is still a cart. */
  predicate MayAsk(db: Db, s: Step) {
    match s
    case MoveStep(_, from, to) => ButtonMove(from, to)
    case FollowStep(o, from, to, news) =>
      // the news is a status the order's own delivery has really been in
      && o < |db.orders| && db.orders[o].job.Some? && db.orders[o].job.value < |db.deliveries|
      && news in db.deliveries[db.orders[o].job.value].past
      && Follows(news, from, to)
    case ReleaseStockStep(o) => o < |db.orders| && db.orders[o].status == CancelledOrder
    case ConsumeStockStep(o) => o < |db.orders| && Visits(db.orders[o].history, ReadyForPickup)
    case CreateDeliveryStep(o) => o < |db.orders| && Visits(db.orders[o].history, ReadyForPickup)
    case AttachStep(o, j) => j < |db.deliveries| && db.deliveries[j].order == o
    case MoveDeliveryStep(j, to) => j < |db.deliveries| && DeliveryMove(db.deliveries[j].status, to)
    case _ => true
  }

  function Run(db: Db, ss: seq<Step>): Db
    decreases |ss|
  {
    if |ss| == 0 then db else Run(Apply(db, ss[0]), ss[1..])
  }

  predicate MayRun(db: Db, ss: seq<Step>)
    decreases |ss|
  {
    |ss| == 0 || (MayAsk(db, ss[0]) && MayRun(Apply(db, ss[0]), ss[1..]))
  }

  const EMPTY := Db([], map[], [])
}
