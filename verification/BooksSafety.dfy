/** What the books promise over every run: they balance, a key posts once, a reversal undoes exactly what
    it reverses, and a payment is captured once and never refunded past what was captured. */
module BooksSafety {
  import opened Common
  import opened Money
  import opened Ledger
  import opened Books
  import opened BooksInvariant

  lemma {:induction false} BalancedRowsSumToZero(db: Db, n: nat)
    requires LedgerSound(db) && n <= |db.txns|
    ensures Holds(db.txns[..n], Everything) == 0
  {
    if n > 0 {
      BalancedRowsSumToZero(db, n - 1);
      assert db.txns[..n][..n - 1] == db.txns[..n - 1];
      assert RowStored(db, n - 1);
    }
  }

  /** Whatever is posted, captured, refunded or handed back, the ledger sums to zero, as a whole and in
      each of its transactions, and no earlier row ever changes. */
  lemma BooksAlwaysBalance(before: seq<Step>, steps: seq<Step>)
    requires AllAllowed(before) && AllAllowed(steps)
    ensures var db := Run(EMPTY, before); var after := Run(db, steps);
            && Holds(after.txns, Everything) == 0
            && (forall r :: 0 <= r < |after.txns| ==> |after.txns[r].entries| >= 2 && Sum(after.txns[r].entries) == 0)
            && db.txns <= after.txns
  {
    var db := Run(EMPTY, before);
    RunKeeps(EMPTY, before);
    RunKeeps(db, steps);
    var after := Run(db, steps);
    BalancedRowsSumToZero(after, |after.txns|);
    assert after.txns[..|after.txns|] == after.txns;
    forall r | 0 <= r < |after.txns| ensures |after.txns[r].entries| >= 2 && Sum(after.txns[r].entries) == 0 {
      assert RowStored(after, r);
    }
  }

  // --- one posting per key ----------------------------------------------------------------------------

  lemma FindKeyIs(db: Db, r: nat)
    requires LedgerSound(db) && r < |db.txns| && db.txns[r].key != ""
    ensures FindKey(db.txns, db.txns[r].key) == Some(r)
  {
  }

  /** The row a keyed posting leaves behind: the one it wrote, or the one it found. */
  function KeyedRow(db: Db, t: Txn): nat {
    if AlreadyPosted(db, t) then FindKey(db.txns, t.key).value else |db.txns|
  }

  lemma PostingLeavesItsRow(db: Db, t: Txn)
    requires t.key != "" && PostAnswer(db, t).Ok?
    ensures KeyedRow(db, t) < |Post(db, t).txns| && Post(db, t).txns[KeyedRow(db, t)].key == t.key
    ensures !AlreadyPosted(db, t) ==> Post(db, t).txns[KeyedRow(db, t)] == t.(id := Some(KeyedRow(db, t)))
  {
  }

  /** Once a keyed movement is in, every later posting under its key, in whatever state and whatever it
      asks for, answers the original row and changes nothing. */
  lemma KeyPostsOnce(db: Db, t: Txn, steps: seq<Step>, again: Txn)
    requires Sound(db) && AllAllowed(steps) && Allowed(PostStep(t))
    requires t.key != "" && PostAnswer(db, t).Ok?
    requires again.key == t.key && BalanceError(again.entries).None?
    ensures var after := Run(Post(db, t), steps); var r := KeyedRow(db, t);
            && r < |after.txns| && after.txns[r].key == t.key
            && (!AlreadyPosted(db, t) ==> after.txns[r] == t.(id := Some(r)))
            && PostAnswer(after, again) == Ok(Recalled(after.txns[r]))
            && Post(after, again) == after
  {
    StepKeeps(db, PostStep(t));
    RunKeeps(Post(db, t), steps);
    PostingLeavesItsRow(db, t);
    var after := Run(Post(db, t), steps);
    assert after.txns[KeyedRow(db, t)] == Post(db, t).txns[KeyedRow(db, t)];
    FindKeyIs(after, KeyedRow(db, t));
  }

  /** A movement is posted if and only if the check of its entries passes and either its key was used before or
      the intent and the transaction it names exist and its entries sum to nothing; then it is written once,
      under the next number, unless its key was used. */
  lemma PostTakenExactlyWhen(db: Db, t: Txn)
    ensures var used := t.key != "" && exists r :: 0 <= r < |db.txns| && db.txns[r].key == t.key;
            && (PostAnswer(db, t).Ok? <==>
                  && BalanceError(t.entries).None?
                  && (used || (&& (t.intent.Some? ==> t.intent.value < |db.intents|)
                               && (t.reverses.Some? ==> t.reverses.value < |db.txns|)
                               && Sum(t.entries) == 0)))
            && (PostAnswer(db, t).Ok? && !used ==>
                  Post(db, t) == db.(txns := db.txns + [t.(id := Some(|db.txns|))]))
            && (PostAnswer(db, t).Err? || used ==> Post(db, t) == db)
  {
  }

  // --- reversals --------------------------------------------------------------------------------------

  function Without(txns: seq<Txn>, r: nat): seq<Txn>
    requires r < |txns|
  {
    txns[..r] + txns[r + 1..]
  }

  lemma {:induction false} HoldsWithout(txns: seq<Txn>, r: nat, q: Query)
    requires r < |txns|
    ensures Holds(txns, q) == Holds(Without(txns, r), q) + Effect(txns[r].entries, q)
    decreases |txns|
  {
    var last := |txns| - 1;
    if r == last {
      assert Without(txns, r) == txns[..last];
    } else {
      HoldsWithout(txns[..last], r, q);
      assert txns[..last][..r] == txns[..r];
      assert Without(txns, r) == Without(txns[..last], r) + [txns[last]];
    }
  }

  /** A stored movement can be reversed at any later time, whatever else was posted meanwhile, and then
      every balance is what it would be had the movement never been made. */
  lemma ReversalUndoesExactly(db: Db, r: nat, steps: seq<Step>, q: Query)
    requires Sound(db) && AllAllowed(steps) && r < |db.txns|
    ensures var later := Run(db, steps);
            && r < |later.txns| && later.txns[r] == db.txns[r]
            && Reverse(later.txns[r]).Ok?
            && PostAnswer(later, Reverse(later.txns[r]).value).Ok?
            && Holds(Post(later, Reverse(later.txns[r]).value).txns, q) == Holds(Without(later.txns, r), q)
  {
    RunKeeps(db, steps);
    var later := Run(db, steps);
    assert RowStored(later, r);
    ReversingTwiceRestores(later.txns[r], 0);
    var reversal := Reverse(later.txns[r]).value;
    NegatedBalances(later.txns[r].entries);
    NegatedEffect(later.txns[r].entries, q);
    HoldsWithout(later.txns, r, q);
  }

  // --- payments ---------------------------------------------------------------------------------------

  /** In every run: at most one capture per intent, refunds never pass it, REFUNDED says exactly that all of
      it went back, and the customer's side of the ledger is what was captured less what was refunded. */
  lemma PaymentsAgreeWithTheLedger(steps: seq<Step>, i: nat)
    requires AllAllowed(steps) && i < |Run(EMPTY, steps).intents|
    ensures var db := Run(EMPTY, steps); var n := db.intents[i];
            && 0 <= n.refunded <= n.captured <= n.amount
            && (n.status == Refunded <==> n.captured > 0 && n.refunded == n.captured)
            && CaptureCount(db.txns, i) == (if n.captured > 0 then 1 else 0)
            && Net(db.txns, i) == n.captured - n.refunded
  {
    RunKeeps(EMPTY, steps);
    assert IntentSound(Run(EMPTY, steps), i);
  }

  /** A replayed capture is refused for ever: a provider's webhook delivered twice moves money once. */
  lemma CaptureHappensOnce(db: Db, i: nat, amount: Amount, steps: seq<Step>, again: Amount)
    requires Sound(db) && AllAllowed(steps) && CaptureAnswer(db, i, amount).None?
    ensures var after := Run(Capture(db, i, amount), steps);
            && CaptureAnswer(after, i, again) == Some(AlreadyCaptured)
            && Capture(after, i, again) == after
            && i < |after.intents| && after.intents[i].captured == amount
  {
    StepKeeps(db, CaptureStep(i, amount));
    RunKeeps(Capture(db, i, amount), steps);
    assert Follows(Run(Capture(db, i, amount), steps).intents[i], Capture(db, i, amount).intents[i]);
  }

  /** Everything captured can be given back, in any number of pieces, and not a unit more: a refund of a
      positive amount is taken exactly when that much is left. */
  lemma RefundTakenExactlyWhenLeft(db: Db, i: nat, amount: Amount)
    requires Sound(db) && i < |db.intents| && amount > 0
    ensures RefundAnswer(db, i, amount).None? <==> amount <= db.intents[i].captured - db.intents[i].refunded
  {
    var n := db.intents[i];
    assert IntentSound(db, i);
    PairBalances(Refunding, n.job, "", Some(i),
                 Debit(RefundLiability, amount, Platform, ""), Credit(CustomerReceivable, amount, Customer, n.customer));
  }

  /** An intent is refused as malformed exactly when it is for nothing or does not belong to one job or one order.
      A key its customer used before answers that intent. Otherwise it is opened if and only if its job or order
      has none unpaid or captured. */
  lemma IntentOpenedExactlyWhen(db: Db, job: Id, order: Id, customer: Id, amount: Amount, key: string)
    ensures var asked := NewIntent(job, order, customer, amount, key);
            var answer, after := CreateIntentAnswer(db, asked), CreateIntent(db, asked);
            var formed := amount > 0 && ((job == "" && order != "") || (job != "" && order == ""));
            var used := key != "" && exists i :: 0 <= i < |db.intents| && db.intents[i].customer == customer && db.intents[i].key == key;
            var taken := exists i :: 0 <= i < |db.intents| && Standing(db.intents[i]) && SameSubject(asked, db.intents[i]);
            && (answer == Err(BadIntent) <==> !formed)
            && (formed && used ==>
                  && answer.Ok? && answer.value < |db.intents| && after == db
                  && db.intents[answer.value].customer == customer && db.intents[answer.value].key == key)
            && (formed && !used && !taken ==> answer == Ok(|db.intents|) && after.intents == db.intents + [asked])
            && (formed && !used && taken ==> answer.Err? && after == db)
  {
    var asked := NewIntent(job, order, customer, amount, key);
    if i :| 0 <= i < |db.intents| && Standing(db.intents[i]) && SameSubject(asked, db.intents[i]) {
      assert LiveFor(db.intents[i], job, order);
    }
    if i :| 0 <= i < |db.intents| && LiveFor(db.intents[i], job, order) {
      assert Standing(db.intents[i]) && SameSubject(asked, db.intents[i]);
    }
  }

  /** A capture is taken exactly once, for something between nothing and the intended amount. */
  lemma CaptureTakenExactlyWhenOpen(db: Db, i: nat, amount: Amount)
    requires Sound(db) && i < |db.intents|
    ensures CaptureAnswer(db, i, amount).None? <==> db.intents[i].captured == 0 && 0 < amount <= db.intents[i].amount
  {
    var n := db.intents[i];
    assert IntentSound(db, i);
    PairBalances(Capturing, n.job, "", Some(i),
                 Debit(CustomerReceivable, amount, Customer, n.customer), Credit(PlatformClearing, amount, Platform, ""));
  }

  // --- one live intent --------------------------------------------------------------------------------

  predicate SameSubject(a: Intent, b: Intent) {
    (a.job != "" && a.job == b.job) || (a.order != "" && a.order == b.order)
  }

  /** No job and no order has two intents waiting to be paid, or paid and not refunded. */
  predicate OneLiveEach(intents: seq<Intent>) {
    forall i, k :: 0 <= i < k < |intents| && Standing(intents[i]) && Standing(intents[k]) ==>
      !SameSubject(intents[i], intents[k])
  }

  predicate Standing(n: Intent) {
    n.status in {RequiresPayment, Processing, Authorized, Captured}
  }

  lemma CreatingKeepsOneLive(db: Db, asked: Intent)
    requires OneLiveEach(db.intents)
    ensures OneLiveEach(CreateIntent(db, asked).intents)
  {
    var after := CreateIntent(db, asked).intents;
    forall i, k | 0 <= i < k < |after| && Standing(after[i]) && Standing(after[k])
      ensures !SameSubject(after[i], after[k])
    {
      if k == |db.intents| {
        assert !LiveFor(db.intents[i], asked.job, asked.order);
      }
    }
  }

  lemma StepKeepsOneLive(db: Db, s: Step)
    requires OneLiveEach(db.intents)
    ensures OneLiveEach(Apply(db, s).intents)
  {
    if s.CreateStep? {
      CreatingKeepsOneLive(db, s.asked);
    }
  }

  /** In every run: two captures of one ride, or of one order, never stand beside each other. */
  lemma {:induction false} NobodyPaysTwiceAtOnce(db: Db, steps: seq<Step>)
    requires OneLiveEach(db.intents)
    ensures OneLiveEach(Run(db, steps).intents)
    decreases |steps|
  {
    if steps != [] {
      StepKeepsOneLive(db, steps[0]);
      NobodyPaysTwiceAtOnce(Apply(db, steps[0]), steps[1..]);
    }
  }

  // --- cash handed back -------------------------------------------------------------------------------

  function DriverCash(driver: Id): Query {
    Part(CashInTransit, Driver, driver)
  }

  lemma HandbackMoves(db: Db, driver: Id, amount: Amount, key: string)
    ensures var after := RecordHandback(db, driver, amount, key);
            if HandbackRefused(driver, amount) then after == db
            else
              && Holds(after.txns, DriverCash(driver)) == Holds(db.txns, DriverCash(driver)) - amount
              && |after.txns| == |db.txns| + 1
              && (KeyTaken(db.handbacks, key) ==> after.handbacks == db.handbacks)
              && (!KeyTaken(db.handbacks, key) ==>
                    after.handbacks == db.handbacks + [Handback(driver, amount, |db.txns|, key)])
  {
    if !HandbackRefused(driver, amount) {
      var a, b := Debit(PlatformClearing, amount, Platform, ""), Credit(CashInTransit, amount, Driver, driver);
      PairBalances(Settling, "", "", None, a, b);
      TwoEntries(a, b, DriverCash(driver));
    }
  }

  /** Recording a hand-back twice under one key is not recording it once: the hand-back row is kept to one,
      but the driver's balance moves twice. It is harmless only when the hand-back was refused. */
  lemma HandbackReplayMovesTwice(db: Db, driver: Id, amount: Amount, key: string)
    requires key != ""
    ensures var once := RecordHandback(db, driver, amount, key);
            var twice := RecordHandback(once, driver, amount, key);
            && twice.handbacks == once.handbacks
            && (twice.txns == once.txns <==> HandbackRefused(driver, amount))
            && (!HandbackRefused(driver, amount) ==>
                  Holds(twice.txns, DriverCash(driver)) == Holds(db.txns, DriverCash(driver)) - 2 * amount)
  {
    var once := RecordHandback(db, driver, amount, key);
    HandbackMoves(db, driver, amount, key);
    HandbackMoves(once, driver, amount, key);
    if !HandbackRefused(driver, amount) && !KeyTaken(db.handbacks, key) {
      assert once.handbacks[|db.handbacks|].key == key;
    }
  }

  /** A remittance has a hand-back row to account for it. */
  predicate AccountedFor(db: Db, row: nat) {
    exists h :: 0 <= h < |db.handbacks| && db.handbacks[h].txn == row
  }

  /** "Both or neither" holds exactly for keys not seen before: otherwise the ledger row stands alone. */
  lemma HandbackAccountedExactlyWhenKeyIsFresh(db: Db, driver: Id, amount: Amount, key: string)
    requires !HandbackRefused(driver, amount)
    requires forall h :: 0 <= h < |db.handbacks| ==> db.handbacks[h].txn < |db.txns|
    ensures AccountedFor(RecordHandback(db, driver, amount, key), |db.txns|) <==> !KeyTaken(db.handbacks, key)
  {
    HandbackMoves(db, driver, amount, key);
    var after := RecordHandback(db, driver, amount, key);
    if !KeyTaken(db.handbacks, key) {
      assert after.handbacks[|db.handbacks|].txn == |db.txns|;
    }
  }
}
