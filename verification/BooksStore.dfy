/** The finance store: rows changed in place, each method one committed transaction. */
module BooksStore {
  import opened Common
  import opened Money
  import opened Ledger
  import opened Books
  import opened BooksSafety

  class Store {
    var txns: seq<Txn>
    var intents: seq<Intent>
    var handbacks: seq<Handback>

    ghost function State(): Db
      reads this
    {
      Db(txns, intents, handbacks)
    }

    constructor ()
      ensures State() == EMPTY
    {
      txns, intents, handbacks := [], [], [];
    }

    // --- the ledger ---------------------------------------------------------------------------------

    /** Checks the balance, inserts the row and its entries, sums what was written and commits; a key
        already used answers the row that used it. */
    method Post(t: Txn) returns (r: Result<Txn, Error>)
      modifies this`txns
      ensures r == PostAnswer(old(State()), t)
      ensures State() == Books.Post(old(State()), t)
    {
      var error := Balance(t.entries);
      if error.Some? {
        return Err(error.value);
      }
      if t.key != "" {
        var row := FindKey(txns, t.key);
        if row.Some? {
          var found := TransactionByKey(t.key);
          return Ok(found.value);
        }
      }
      if t.intent.Some? && t.intent.value >= |intents| {
        return Err(BadReference);
      }
      if t.reverses.Some? && t.reverses.value >= |txns| {
        return Err(BadReference);
      }
      var stored := t.(id := Some(|txns|), entries := []);
      var written := 0;
      for i := 0 to |t.entries|
        invariant stored == t.(id := Some(|txns|), entries := t.entries[..i])
        invariant written == Sum(stored.entries)
        invariant State() == old(State())
      {
        EffectAppend(stored.entries, t.entries[i], Everything);
        stored := stored.(entries := stored.entries + [t.entries[i]]);
        written := written + t.entries[i].amount;
      }
      assert t.entries[..|t.entries|] == t.entries;
      assert stored == t.(id := Some(|txns|)) && !AlreadyPosted(State(), t) && ReferencesExist(State(), t);
      if written != 0 {
        return Err(Unbalanced);
      }
      txns := txns + [stored];
      return Ok(stored);
    }

    method TransactionByKey(key: string) returns (found: Option<Txn>)
      ensures found == match FindKey(txns, key) case None => None case Some(row) => Some(Recalled(txns[row]))
    {
      var row := FindKey(txns, key);
      if row.None? {
        return None;
      }
      var t := txns[row.value];
      return Some(Txn(t.id, t.kind, t.job, "", t.intent, None, "", t.entries));
    }

    /** A movement written inside the caller's transaction. */
    method PostWithin(t: Txn) returns (error: Option<Error>)
      modifies this`txns
      ensures error == BalanceError(t.entries)
      ensures txns == if error.Some? then old(txns) else old(txns) + [RowWithin(old(State()), t)]
    {
      error := Balance(t.entries);
      if error.Some? {
        return;
      }
      var stored := Txn(Some(|txns|), t.kind, t.job, "", t.intent, None, "", []);
      for i := 0 to |t.entries|
        invariant stored == RowWithin(State(), t).(entries := t.entries[..i])
        invariant State() == old(State())
      {
        stored := stored.(entries := stored.entries + [t.entries[i]]);
      }
      assert t.entries[..|t.entries|] == t.entries;
      txns := txns + [stored];
    }

    /** A balance is derived from the entries; one too large to carry is an error. */
    method BalanceOf(account: Account, subject: SubjectType, who: Id) returns (r: Result<Amount, MoneyError>)
      ensures r == New(Holds(txns, if who == "" then Whole(account) else Part(account, subject, who)))
    {
      var q := if who == "" then Whole(account) else Part(account, subject, who);
      var minor := Total(q);
      return New(minor);
    }

    method Total(q: Query) returns (sum: int)
      ensures sum == Holds(txns, q)
    {
      sum := 0;
      for r := 0 to |txns|
        invariant sum == Holds(txns[..r], q)
      {
        assert txns[..r + 1] == txns[..r] + [txns[r]];
        for e := 0 to |txns[r].entries|
          invariant sum == Holds(txns[..r], q) + Effect(txns[r].entries[..e], q)
        {
          var entry := txns[r].entries[e];
          assert txns[r].entries[..e + 1] == txns[r].entries[..e] + [entry];
          EffectAppend(txns[r].entries[..e], entry, q);
          if Asks(q, entry) {
            sum := sum + entry.amount;
          }
        }
        assert txns[r].entries[..|txns[r].entries|] == txns[r].entries;
      }
      assert txns[..|txns|] == txns;
    }

    method LedgerBalances() returns (balanced: bool, total: int)
      ensures total == Holds(txns, Everything) && balanced == (total == 0)
    {
      total := Total(Everything);
      balanced := total == 0;
    }

    // --- payment intents ------------------------------------------------------------------------------

    method CreateIntent(job: Id, order: Id, customer: Id, amount: Amount, key: string) returns (r: Result<nat, Error>)
      modifies this`intents
      ensures r == CreateIntentAnswer(old(State()), NewIntent(job, order, customer, amount, key))
      ensures State() == Books.CreateIntent(old(State()), NewIntent(job, order, customer, amount, key))
    {
      if amount <= 0 || (job == "") == (order == "") {
        return Err(BadIntent);
      }
      var live := false;
      for i := 0 to |intents|
        invariant live <==> exists k :: 0 <= k < i && LiveFor(intents[k], job, order)
      {
        if intents[i].status in LIVE && ((job != "" && intents[i].job == job) || (order != "" && intents[i].order == order)) {
          live := true;
        }
      }
      if key != "" {
        var row := FindIntent(intents, customer, key);
        if row.Some? {
          return Ok(row.value);
        }
        if live {
          return Err(NotFound);
        }
      } else if live {
        return Err(AlreadyCaptured);
      }
      r := Ok(|intents|);
      intents := intents + [NewIntent(job, order, customer, amount, key)];
    }

    /** The status change and its movement commit together or not at all. */
    method Capture(i: nat, amount: Amount) returns (error: Option<Error>)
      modifies this
      ensures error == CaptureAnswer(old(State()), i, amount)
      ensures State() == Books.Capture(old(State()), i, amount)
    {
      if i >= |intents| || intents[i].status !in CAPTURABLE {
        return Some(AlreadyCaptured);
      }
      var intent := intents[i].(captured := amount, status := Captured);
      if !RowAllowed(intent) {
        return Some(BadIntent);
      }
      var movement := CustomerPayment(amount, intent.customer, intent.job, i);
      if movement.Err? {
        return Some(movement.error);
      }
      error := PostWithin(movement.value);
      if error.None? {
        intents := intents[i := intent];
      }
    }

    /** The bound is part of the update, so it holds however many refunds arrive. */
    method Refund(i: nat, amount: Amount) returns (error: Option<Error>)
      modifies this
      ensures error == RefundAnswer(old(State()), i, amount)
      ensures State() == RefundIntent(old(State()), i, amount)
    {
      if i >= |intents| || intents[i].status !in REFUNDABLE {
        return Some(RefundExceeds);
      }
      var intent := intents[i];
      var refunded := intent.refunded + amount;
      if refunded > intent.captured {
        return Some(RefundExceeds);
      }
      if refunded < 0 {
        return Some(BadIntent);
      }
      intent := intent.(refunded := refunded, status := if refunded >= intent.captured then Refunded else PartiallyRefunded);
      if !RowAllowed(intent) {
        return Some(BadIntent);
      }
      var movement := Ledger.Refund(amount, intent.customer, intent.job, i);
      if movement.Err? {
        return Some(movement.error);
      }
      error := PostWithin(movement.value);
      if error.None? {
        intents := intents[i := intent];
      }
    }

    // --- cash handed back -----------------------------------------------------------------------------

    /** The movement and the row that says how it arrived. */
    method RecordSettlement(driver: Id, amount: Amount, key: string) returns (error: Option<Error>)
      modifies this
      ensures error.Some? <==> HandbackRefused(driver, amount)
      ensures State() == RecordHandback(old(State()), driver, amount, key)
    {
      HandbackMoves(State(), driver, amount, key);
      if driver == "" || amount <= 0 {
        return Some(BadSettlement);
      }
      // A positive amount always makes a movement.
      var movement := DriverRemittance(amount, driver);
      var row := |txns|;
      error := PostWithin(movement.value.(key := key));
      if error.Some? {
        return;
      }
      if key != "" {
        for h := 0 to |handbacks|
          invariant forall k :: 0 <= k < h ==> handbacks[k].key != key
        {
          if handbacks[h].key == key {
            return;
          }
        }
      }
      handbacks := handbacks + [Handback(driver, amount, row, key)];
    }
  }
}
