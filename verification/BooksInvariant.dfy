/** What every operation keeps: a balanced, append-only ledger with one row per key, and intents that
    agree with it. */
module BooksInvariant {
  import opened Common
  import opened Money
  import opened Ledger
  import opened Books

  predicate RowStored(db: Db, r: nat)
    requires r < |db.txns|
  {
    && db.txns[r].id == Some(r)
    && Balanced(db.txns[r].entries)
    && ReferencesExist(db, db.txns[r])
  }

  predicate LedgerSound(db: Db) {
    && (forall r :: 0 <= r < |db.txns| ==> RowStored(db, r))
    && (forall r, s :: 0 <= r < s < |db.txns| && db.txns[r].key != "" ==> db.txns[r].key != db.txns[s].key)
  }

  predicate Captures(t: Txn, i: nat) {
    t.kind == Capturing && t.intent == Some(i)
  }

  predicate PaysFor(t: Txn, i: nat) {
    t.kind in {Capturing, Refunding} && t.intent == Some(i)
  }

  function CaptureCount(txns: seq<Txn>, i: nat): nat {
    if txns == [] then 0
    else CaptureCount(txns[..|txns| - 1], i) + if Captures(txns[|txns| - 1], i) then 1 else 0
  }

  /** What an intent's own captures and refunds left the customer owing. */
  function Net(txns: seq<Txn>, i: nat): int {
    if txns == [] then 0
    else
      var last := txns[|txns| - 1];
      Net(txns[..|txns| - 1], i) + if PaysFor(last, i) then Effect(last.entries, Whole(CustomerReceivable)) else 0
  }

  predicate IntentSound(db: Db, i: nat)
    requires i < |db.intents|
  {
    var n := db.intents[i];
    && RowAllowed(n)
    && n.status in {RequiresPayment, Captured, PartiallyRefunded, Refunded}
    && (n.status == RequiresPayment <==> n.captured == 0)
    && (n.status == Captured ==> n.refunded == 0)
    && (n.status == Refunded <==> n.captured > 0 && n.refunded == n.captured)
    && CaptureCount(db.txns, i) == (if n.captured > 0 then 1 else 0)
    && Net(db.txns, i) == n.captured - n.refunded
  }

  predicate IntentsSound(db: Db) {
    && (forall i :: 0 <= i < |db.intents| ==> IntentSound(db, i))
    && (forall i, j :: 0 <= i < j < |db.intents| && db.intents[i].key != "" && db.intents[i].customer == db.intents[j].customer
                       ==> db.intents[i].key != db.intents[j].key)
  }

  predicate Sound(db: Db) {
    LedgerSound(db) && IntentsSound(db)
  }

  // --- the ledger grows by whole balanced rows ------------------------------------------------------

  /** An intent keeps what it is for, stays out of the capturable states once it has left them, and keeps
      the amount it captured. */
  predicate Follows(after: Intent, before: Intent) {
    && after == before.(status := after.status, captured := after.captured, refunded := after.refunded)
    && (before.status !in CAPTURABLE ==> after.status !in CAPTURABLE && after.captured == before.captured)
  }

  predicate Extends(after: Db, before: Db) {
    && before.txns <= after.txns
    && |before.intents| <= |after.intents|
    && forall i :: 0 <= i < |before.intents| ==> Follows(after.intents[i], before.intents[i])
  }

  lemma AppendKeepsLedger(db: Db, t: Txn, after: Db)
    requires LedgerSound(db)
    requires after.txns == db.txns + [t] && |after.intents| >= |db.intents|
    requires t.id == Some(|db.txns|) && Balanced(t.entries) && ReferencesExist(db, t)
    requires t.key != "" ==> FindKey(db.txns, t.key).None?
    ensures LedgerSound(after)
  {
    forall r | 0 <= r < |after.txns| ensures RowStored(after, r) {
      if r < |db.txns| {
        assert RowStored(db, r) && after.txns[r] == db.txns[r];
      }
    }
  }

  lemma StepKeepsLedger(db: Db, s: Step)
    requires LedgerSound(db)
    ensures LedgerSound(Apply(db, s))
  {
    var after := Apply(db, s);
    if after.txns == db.txns {
      assert forall r :: 0 <= r < |db.txns| && RowStored(db, r) ==> RowStored(after, r);
    } else {
      var t := after.txns[|db.txns|];
      if !s.PostStep? {
        CheckIsExactUpTo2048(t.entries);
      }
      AppendKeepsLedger(db, t, after);
    }
  }

  lemma StepExtends(db: Db, s: Step)
    ensures Extends(Apply(db, s), db)
  {
    var after := Apply(db, s);
    forall i | 0 <= i < |db.intents| ensures Follows(after.intents[i], db.intents[i]) {}
  }

  // --- intents agree with the ledger -----------------------------------------------------------------

  lemma NothingPaysForNewIntents(txns: seq<Txn>, i: nat)
    requires forall r :: 0 <= r < |txns| ==> txns[r].intent != Some(i)
    ensures CaptureCount(txns, i) == 0 && Net(txns, i) == 0
  {
  }

  lemma CreateKeepsIntents(db: Db, asked: Intent)
    requires Sound(db) && Allowed(CreateStep(asked))
    ensures IntentsSound(CreateIntent(db, asked))
  {
    var after := CreateIntent(db, asked);
    if after != db {
      var n := |db.intents|;
      forall r | 0 <= r < |db.txns| ensures db.txns[r].intent != Some(n) {
        assert RowStored(db, r);
      }
      NothingPaysForNewIntents(db.txns, n);
      forall i | 0 <= i < |after.intents| ensures IntentSound(after, i) {
        if i < n {
          assert IntentSound(db, i) && after.intents[i] == db.intents[i];
        }
      }
    }
  }

  lemma CaptureKeepsIntents(db: Db, i: nat, amount: Amount)
    requires Sound(db)
    ensures IntentsSound(Capture(db, i, amount))
  {
    var after := Capture(db, i, amount);
    if CaptureAnswer(db, i, amount).None? {
      var t := after.txns[|db.txns|];
      assert IntentSound(db, i);
      PairBalances(Capturing, db.intents[i].job, "", Some(i),
                   Debit(CustomerReceivable, amount, Customer, db.intents[i].customer), Credit(PlatformClearing, amount, Platform, ""));
      TwoEntries(t.entries[0], t.entries[1], Whole(CustomerReceivable));
      forall k | 0 <= k < |after.intents| ensures IntentSound(after, k) {
        if k != i {
          assert IntentSound(db, k);
        }
      }
    }
  }

  lemma RefundKeepsIntents(db: Db, i: nat, amount: Amount)
    requires Sound(db)
    ensures IntentsSound(RefundIntent(db, i, amount))
  {
    var after := RefundIntent(db, i, amount);
    if RefundAnswer(db, i, amount).None? {
      var t := after.txns[|db.txns|];
      assert IntentSound(db, i);
      TwoEntries(t.entries[0], t.entries[1], Whole(CustomerReceivable));
      forall k | 0 <= k < |after.intents| ensures IntentSound(after, k) {
        if k != i {
          assert IntentSound(db, k);
        }
      }
    }
  }

  lemma OtherStepKeepsIntents(db: Db, s: Step)
    requires Sound(db) && Allowed(s) && (s.PostStep? || s.HandbackStep?)
    ensures IntentsSound(Apply(db, s))
  {
    var after := Apply(db, s);
    forall i | 0 <= i < |after.intents| ensures IntentSound(after, i) {
      assert IntentSound(db, i);
    }
  }

  lemma StepKeeps(db: Db, s: Step)
    requires Sound(db) && Allowed(s)
    ensures Sound(Apply(db, s)) && Extends(Apply(db, s), db)
  {
    StepKeepsLedger(db, s);
    StepExtends(db, s);
    match s
    case CreateStep(asked) => CreateKeepsIntents(db, asked);
    case CaptureStep(i, amount) => CaptureKeepsIntents(db, i, amount);
    case RefundStep(i, amount) => RefundKeepsIntents(db, i, amount);
    case PostStep(_) => OtherStepKeepsIntents(db, s);
    case HandbackStep(_, _, _) => OtherStepKeepsIntents(db, s);
  }

  /** Over any run the books stay sound and only grow. */
  lemma {:induction false} RunKeeps(db: Db, steps: seq<Step>)
    requires Sound(db) && AllAllowed(steps)
    ensures Sound(Run(db, steps)) && Extends(Run(db, steps), db)
    decreases |steps|
  {
    if steps != [] {
      assert Allowed(steps[0]);
      StepKeeps(db, steps[0]);
      RunKeeps(Apply(db, steps[0]), steps[1..]);
    }
  }
}
