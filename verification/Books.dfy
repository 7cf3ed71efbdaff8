/** The ledger, payment intent and hand-back tables, and what each committed operation does to them. */
module Books {
  import opened Common
  import opened Money
  import opened Ledger

  datatype IntentStatus =
    | RequiresPayment | Processing | Authorized | Captured
    | PartiallyRefunded | Refunded | Failed | Cancelled | Expired

  const CAPTURABLE := {RequiresPayment, Processing, Authorized}
  const LIVE := {RequiresPayment, Processing, Authorized, Captured}
  const REFUNDABLE := {Captured, PartiallyRefunded}

  datatype Intent = Intent(
    job: Id, order: Id, customer: Id, amount: Amount, key: string,
    status: IntentStatus, captured: Amount, refunded: Amount)

  /** Cash a driver brought back, and the ledger row it produced. */
  datatype Handback = Handback(driver: Id, amount: Amount, txn: nat, key: string)

  datatype Db = Db(txns: seq<Txn>, intents: seq<Intent>, handbacks: seq<Handback>)

  const EMPTY := Db([], [], [])

  // --- posting ------------------------------------------------------------------------------------

  function FindKey(txns: seq<Txn>, key: string): (row: Option<nat>)
    ensures row.Some? ==> row.value < |txns| && txns[row.value].key == key
    ensures row.None? ==> forall r :: 0 <= r < |txns| ==> txns[r].key != key
  {
    if txns == [] then None
    else if txns[|txns| - 1].key == key then Some(|txns| - 1)
    else FindKey(txns[..|txns| - 1], key)
  }

  /** What a keyed lookup reads back: not the order, not what was reversed, not the key itself. */
  function Recalled(row: Txn): Txn {
    row.(order := "", reverses := None, key := "")
  }

  predicate ReferencesExist(db: Db, t: Txn) {
    && (t.intent.Some? ==> t.intent.value < |db.intents|)
    && (t.reverses.Some? ==> t.reverses.value < |db.txns|)
  }

  predicate AlreadyPosted(db: Db, t: Txn) {
    t.key != "" && FindKey(db.txns, t.key).Some?
  }

  /** The check before the write adds in 64 bits; the one after it adds exactly. */
  function PostAnswer(db: Db, t: Txn): Result<Txn, Error> {
    if BalanceError(t.entries).Some? then Err(BalanceError(t.entries).value)
    else if AlreadyPosted(db, t) then Ok(Recalled(db.txns[FindKey(db.txns, t.key).value]))
    else if !ReferencesExist(db, t) then Err(BadReference)
    else if Sum(t.entries) != 0 then Err(Unbalanced)
    else Ok(t.(id := Some(|db.txns|)))
  }

  function Post(db: Db, t: Txn): Db {
    if PostAnswer(db, t).Err? || AlreadyPosted(db, t) then db
    else db.(txns := db.txns + [t.(id := Some(|db.txns|))])
  }

  /** The row written inside another operation's transaction keeps the kind, job and intent only. */
  function RowWithin(db: Db, t: Txn): Txn {
    t.(id := Some(|db.txns|), order := "", reverses := None, key := "")
  }

  // --- intents ------------------------------------------------------------------------------------

  function FindIntent(intents: seq<Intent>, customer: Id, key: string): (row: Option<nat>)
    ensures row.Some? ==>
      row.value < |intents| && intents[row.value].customer == customer && intents[row.value].key == key
    ensures row.None? ==> forall i :: 0 <= i < |intents| ==> !(intents[i].customer == customer && intents[i].key == key)
  {
    if intents == [] then None
    else
      var last := intents[|intents| - 1];
      if last.customer == customer && last.key == key then Some(|intents| - 1)
      else FindIntent(intents[..|intents| - 1], customer, key)
  }

  predicate LiveFor(i: Intent, job: Id, order: Id) {
    i.status in LIVE && ((job != "" && i.job == job) || (order != "" && i.order == order))
  }

  predicate Clashes(intents: seq<Intent>, asked: Intent) {
    || (asked.key != "" && FindIntent(intents, asked.customer, asked.key).Some?)
    || exists i :: 0 <= i < |intents| && LiveFor(intents[i], asked.job, asked.order)
  }

  function NewIntent(job: Id, order: Id, customer: Id, amount: Amount, key: string): Intent {
    Intent(job, order, customer, amount, key, RequiresPayment, 0, 0)
  }

  /** The constraints every row must meet whatever wrote it. */
  predicate RowAllowed(i: Intent) {
    && i.amount > 0
    && 0 <= i.captured <= i.amount
    && 0 <= i.refunded <= i.captured
    && (i.job == "") != (i.order == "")
  }

  function CreateIntentAnswer(db: Db, asked: Intent): Result<nat, Error> {
    if !RowAllowed(asked) then Err(BadIntent)
    else if !Clashes(db.intents, asked) then Ok(|db.intents|)
    else if asked.key == "" then Err(AlreadyCaptured)
    else
      match FindIntent(db.intents, asked.customer, asked.key)
      case None => Err(NotFound)
      case Some(row) => Ok(row)
  }

  function CreateIntent(db: Db, asked: Intent): Db {
    if RowAllowed(asked) && !Clashes(db.intents, asked) then db.(intents := db.intents + [asked]) else db
  }

  function CapturedBy(i: Intent, amount: Amount): Intent {
    i.(captured := amount, status := Captured)
  }

  function CaptureAnswer(db: Db, i: nat, amount: Amount): Option<Error> {
    if i >= |db.intents| || db.intents[i].status !in CAPTURABLE then Some(AlreadyCaptured)
    else if !RowAllowed(CapturedBy(db.intents[i], amount)) then Some(BadIntent)
    else
      match CustomerPayment(amount, db.intents[i].customer, db.intents[i].job, i)
      case Err(e) => Some(e)
      case Ok(_) => None
  }

  function Capture(db: Db, i: nat, amount: Amount): Db {
    if CaptureAnswer(db, i, amount).Some? then db
    else
      var movement := CustomerPayment(amount, db.intents[i].customer, db.intents[i].job, i).value;
      db.(intents := db.intents[i := CapturedBy(db.intents[i], amount)], txns := db.txns + [RowWithin(db, movement)])
  }

  function RefundedBy(i: Intent, amount: Amount): Intent
    requires InRange(i.refunded + amount)
  {
    i.(refunded := i.refunded + amount,
       status := if i.refunded + amount >= i.captured then Refunded else PartiallyRefunded)
  }

  function RefundAnswer(db: Db, i: nat, amount: Amount): Option<Error> {
    if i >= |db.intents| || db.intents[i].status !in REFUNDABLE
       || db.intents[i].refunded + amount > db.intents[i].captured then Some(RefundExceeds)
    else if db.intents[i].refunded + amount < 0 || !RowAllowed(RefundedBy(db.intents[i], amount)) then Some(BadIntent)
    else
      match Refund(amount, db.intents[i].customer, db.intents[i].job, i)
      case Err(e) => Some(e)
      case Ok(_) => None
  }

  function RefundIntent(db: Db, i: nat, amount: Amount): Db {
    if RefundAnswer(db, i, amount).Some? then db
    else
      var movement := Refund(amount, db.intents[i].customer, db.intents[i].job, i).value;
      db.(intents := db.intents[i := RefundedBy(db.intents[i], amount)], txns := db.txns + [RowWithin(db, movement)])
  }

  // --- cash handed back ---------------------------------------------------------------------------

  predicate KeyTaken(handbacks: seq<Handback>, key: string) {
    key != "" && exists h :: 0 <= h < |handbacks| && handbacks[h].key == key
  }

  predicate HandbackRefused(driver: Id, amount: Amount) {
    driver == "" || amount <= 0
  }

  /** The movement is posted whether or not the hand-back's key was seen before. */
  function RecordHandback(db: Db, driver: Id, amount: Amount, key: string): Db {
    if HandbackRefused(driver, amount) || DriverRemittance(amount, driver).Err? then db
    else
      var row := RowWithin(db, DriverRemittance(amount, driver).value);
      db.(txns := db.txns + [row],
          handbacks := if KeyTaken(db.handbacks, key) then db.handbacks
                       else db.handbacks + [Handback(driver, amount, |db.txns|, key)])
  }

  // --- runs ---------------------------------------------------------------------------------------

  datatype Step =
    | PostStep(t: Txn)
    | CreateStep(asked: Intent)
    | CaptureStep(i: nat, amount: Amount)
    | RefundStep(i: nat, amount: Amount)
    | HandbackStep(driver: Id, amount: Amount, key: string)

  /** An intent is opened unpaid; the two kinds of movement that belong to intents are posted by capturing
      and refunding, never on their own. */
  predicate Allowed(s: Step) {
    && (s.CreateStep? ==> s.asked == NewIntent(s.asked.job, s.asked.order, s.asked.customer, s.asked.amount, s.asked.key))
    && (s.PostStep? ==> s.t.kind !in {Capturing, Refunding})
  }

  function Apply(db: Db, s: Step): Db {
    match s
    case PostStep(t) => Post(db, t)
    case CreateStep(asked) => CreateIntent(db, asked)
    case CaptureStep(i, amount) => Capture(db, i, amount)
    case RefundStep(i, amount) => RefundIntent(db, i, amount)
    case HandbackStep(driver, amount, key) => RecordHandback(db, driver, amount, key)
  }

  function Run(db: Db, steps: seq<Step>): Db
    decreases |steps|
  {
    if steps == [] then db else Run(Apply(db, steps[0]), steps[1..])
  }

  predicate AllAllowed(steps: seq<Step>) {
    forall k :: 0 <= k < |steps| ==> Allowed(steps[k])
  }
}
