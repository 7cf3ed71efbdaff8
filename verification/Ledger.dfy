/** The double-entry ledger: balanced movements, the accounts they add up to, and their reversals. */
module Ledger {
  import opened Common
  import opened Money

  /** An identifier; the empty one stands for none. */
  type Id = string

  datatype Account =
    | CustomerReceivable | CustomerWallet | PlatformClearing | PlatformRevenue | DriverExpense
    | DriverPayable | MerchantPayable | TaxPayable | RefundLiability | CashInTransit

  datatype SubjectType = Customer | Driver | Merchant | Platform

  datatype Kind =
    | Payment | Capturing | Refunding | Earning | CommissionKept | PayingOut
    | Settling | Adjustment | Reversal | CashCollected

  /** One side of a movement: a debit is positive, a credit negative. */
  datatype Entry = Entry(account: Account, amount: Amount, subject: SubjectType, who: Id)

  datatype Txn = Txn(
    id: Option<nat>,        // its row, once stored
    kind: Kind,
    job: Id,
    order: Id,
    intent: Option<nat>,
    reverses: Option<nat>,
    key: string,
    entries: seq<Entry>)

  datatype Error =
    | NoEntries | ZeroEntry | Unbalanced | BadReference | TooLarge
    | CommissionExceeds | Unsaved
    | BadIntent | NotFound | AlreadyCaptured | RefundExceeds | BadSettlement
    | NoCommission | NotComplete | NoDriver | NegativePrice

  function Debit(account: Account, amount: Amount, subject: SubjectType, who: Id): Entry {
    Entry(account, amount, subject, who)
  }

  function Credit(account: Account, amount: Amount, subject: SubjectType, who: Id): Entry {
    Entry(account, -amount, subject, who)
  }

  // --- what entries add up to ---------------------------------------------------------------------

  /** Which entries a question is about: all of them, an account, or one party's part of an account. */
  datatype Query = Everything | Whole(account: Account) | Part(account: Account, subject: SubjectType, who: Id)

  predicate Asks(q: Query, e: Entry) {
    match q
    case Everything => true
    case Whole(a) => e.account == a
    case Part(a, s, w) => e.account == a && e.subject == s && e.who == w
  }

  function Effect(es: seq<Entry>, q: Query): int {
    if es == [] then 0
    else
      var last := es[|es| - 1];
      Effect(es[..|es| - 1], q) + if Asks(q, last) then last.amount else 0
  }

  function Sum(es: seq<Entry>): int {
    Effect(es, Everything)
  }

  function Holds(txns: seq<Txn>, q: Query): int {
    if txns == [] then 0
    else Holds(txns[..|txns| - 1], q) + Effect(txns[|txns| - 1].entries, q)
  }

  lemma EffectAppend(es: seq<Entry>, e: Entry, q: Query)
    ensures Effect(es + [e], q) == Effect(es, q) + if Asks(q, e) then e.amount else 0
  {
  }

  // --- balancing ----------------------------------------------------------------------------------

  predicate NoneIsZero(es: seq<Entry>) {
    forall i :: 0 <= i < |es| ==> es[i].amount != 0
  }

  predicate Balanced(es: seq<Entry>) {
    |es| >= 2 && NoneIsZero(es) && Sum(es) == 0
  }

  /** What the check before the write answers. It adds in 64 bits. */
  function BalanceError(es: seq<Entry>): Option<Error> {
    if |es| < 2 then Some(NoEntries)
    else if !NoneIsZero(es) then Some(ZeroEntry)
    else if Wrap(Sum(es)) != 0 then Some(Unbalanced)
    else None
  }

  method Balance(es: seq<Entry>) returns (error: Option<Error>)
    ensures error == BalanceError(es)
  {
    if |es| < 2 {
      return Some(NoEntries);
    }
    var sum := 0;
    for i := 0 to |es|
      invariant NoneIsZero(es[..i])
      invariant sum == Wrap(Sum(es[..i]))
    {
      if es[i].amount == 0 {
        return Some(ZeroEntry);
      }
      assert es[..i + 1] == es[..i] + [es[i]];
      EffectAppend(es[..i], es[i], Everything);
      sum := Wrap(sum + es[i].amount);
    }
    assert es[..|es|] == es;
    return if sum != 0 then Some(Unbalanced) else None;
  }

  lemma {:induction false} SumIsBounded(es: seq<Entry>)
    ensures -(|es| * MAX_SAFE) <= Sum(es) <= |es| * MAX_SAFE
  {
    if es != [] {
      SumIsBounded(es[..|es| - 1]);
    }
  }

  const CHECKED_LENGTH := 2048

  /** Up to 2048 entries the 64-bit sum is zero only when the sum is. */
  lemma CheckIsExactUpTo2048(es: seq<Entry>)
    requires |es| <= CHECKED_LENGTH
    ensures BalanceError(es).None? <==> Balanced(es)
  {
    SumIsBounded(es);
    assert |es| * MAX_SAFE <= CHECKED_LENGTH * MAX_SAFE < INT64;
  }

  /** Many entries of the largest amount. */
  function Largest(n: nat): (es: seq<Entry>)
    ensures |es| == n
  {
    seq(n, i => Debit(CashInTransit, MAX_SAFE, Driver, ""))
  }

  lemma {:induction false} LargestSum(n: nat)
    ensures Sum(Largest(n)) == n * MAX_SAFE && NoneIsZero(Largest(n))
  {
    if n > 0 {
      LargestSum(n - 1);
      assert Largest(n)[..n - 1] == Largest(n - 1);
    }
  }

  /** Entries that sum to 2^64, of any length past the bound: 2048 of the largest, what completes the
      power in one entry or two, and pairs that cancel. */
  function Fooling(n: nat): (es: seq<Entry>)
    requires n > CHECKED_LENGTH
    ensures |es| == n
  {
    var one := Debit(CashInTransit, 1, Driver, "");
    if n == CHECKED_LENGTH + 1 then Largest(CHECKED_LENGTH) + [one.(amount := 2048)]
    else if n == CHECKED_LENGTH + 2 then Largest(CHECKED_LENGTH) + [one.(amount := 1024)] + [one.(amount := 1024)]
    else Fooling(n - 2) + [one] + [one.(amount := -1)]
  }

  lemma {:induction false} FoolingWraps(n: nat)
    requires n > CHECKED_LENGTH
    ensures Sum(Fooling(n)) == INT64 && NoneIsZero(Fooling(n))
  {
    var one := Debit(CashInTransit, 1, Driver, "");
    LargestSum(CHECKED_LENGTH);
    if n == CHECKED_LENGTH + 1 {
      EffectAppend(Largest(CHECKED_LENGTH), one.(amount := 2048), Everything);
    } else if n == CHECKED_LENGTH + 2 {
      EffectAppend(Largest(CHECKED_LENGTH), one.(amount := 1024), Everything);
      EffectAppend(Largest(CHECKED_LENGTH) + [one.(amount := 1024)], one.(amount := 1024), Everything);
    } else {
      FoolingWraps(n - 2);
      EffectAppend(Fooling(n - 2), one, Everything);
      EffectAppend(Fooling(n - 2) + [one], one.(amount := -1), Everything);
    }
  }

  /** The check before the write agrees with balancing on every movement of this many entries. */
  ghost predicate CheckIsExactAt(n: nat) {
    forall es: seq<Entry> | |es| == n :: BalanceError(es).None? <==> Balanced(es)
  }

  /** It does so for exactly the lengths up to 2048; at every greater length it passes a list of debits
      that sums to 2^64. */
  lemma CheckIsExactExactlyUpTo2048(n: nat)
    ensures CheckIsExactAt(n) <==> n <= CHECKED_LENGTH
    ensures n > CHECKED_LENGTH ==> BalanceError(Fooling(n)).None? && !Balanced(Fooling(n))
  {
    if n <= CHECKED_LENGTH {
      forall es: seq<Entry> | |es| == n ensures BalanceError(es).None? <==> Balanced(es) {
        CheckIsExactUpTo2048(es);
      }
    } else {
      FoolingWraps(n);
    }
  }

  // --- reversing ----------------------------------------------------------------------------------

  function Negated(es: seq<Entry>): (rs: seq<Entry>)
    ensures |rs| == |es|
  {
    seq(|es|, i requires 0 <= i < |es| => es[i].(amount := -es[i].amount))
  }

  lemma {:induction false} NegatedEffect(es: seq<Entry>, q: Query)
    ensures Effect(Negated(es), q) == -Effect(es, q)
  {
    if es != [] {
      NegatedEffect(es[..|es| - 1], q);
      assert Negated(es)[..|es| - 1] == Negated(es[..|es| - 1]);
    }
  }

  /** A movement only counts as built when it balances. */
  function Checked(t: Txn): Result<Txn, Error> {
    match BalanceError(t.entries)
    case None => Ok(t)
    case Some(e) => Err(e)
  }

  function Reversing(original: Txn): Txn {
    Txn(None, Reversal, original.job, original.order, original.intent, original.id, "", Negated(original.entries))
  }

  function Reverse(original: Txn): Result<Txn, Error> {
    if original.id.None? then Err(Unsaved) else Checked(Reversing(original))
  }

  method BuildReversal(original: Txn) returns (r: Result<Txn, Error>)
    ensures r == Reverse(original)
  {
    if original.id.None? {
      return Err(Unsaved);
    }
    var entries: seq<Entry> := [];
    for i := 0 to |original.entries|
      invariant entries == Negated(original.entries[..i])
    {
      var e := original.entries[i];
      entries := entries + [Entry(e.account, -e.amount, e.subject, e.who)];
      assert original.entries[..i + 1] == original.entries[..i] + [e];
    }
    assert original.entries[..|original.entries|] == original.entries;
    var t := Txn(None, Reversal, original.job, original.order, original.intent, original.id, "", entries);
    var error := Balance(t.entries);
    r := match error case None => Ok(t) case Some(e) => Err(e);
  }

  lemma NegatedBalances(es: seq<Entry>)
    ensures Balanced(es) <==> Balanced(Negated(es))
    ensures Negated(Negated(es)) == es
  {
    NegatedEffect(es, Everything);
    if NoneIsZero(Negated(es)) {
      forall i | 0 <= i < |es| ensures es[i].amount != 0 {
        assert Negated(es)[i].amount != 0;
      }
    }
  }

  /** A stored balanced movement can always be reversed, and reversing the stored reversal gives the
      original entries back. */
  lemma ReversingTwiceRestores(t: Txn, row: nat)
    requires t.id.Some? && Balanced(t.entries)
    ensures Reverse(t).Ok?
    ensures var back := Reverse(Reverse(t).value.(id := Some(row)));
            back.Ok? && back.value.entries == t.entries && back.value.reverses == Some(row)
  {
    NegatedBalances(t.entries);
  }

  // --- the named movements ------------------------------------------------------------------------

  function Movement(kind: Kind, job: Id, order: Id, intent: Option<nat>, es: seq<Entry>): Result<Txn, Error> {
    Checked(Txn(None, kind, job, order, intent, None, "", es))
  }

  function CustomerPayment(amount: Amount, customer: Id, job: Id, intent: nat): Result<Txn, Error> {
    Movement(Capturing, job, "", Some(intent),
             [Debit(CustomerReceivable, amount, Customer, customer), Credit(PlatformClearing, amount, Platform, "")])
  }

  function Refund(amount: Amount, customer: Id, job: Id, intent: nat): Result<Txn, Error> {
    Movement(Refunding, job, "", Some(intent),
             [Debit(RefundLiability, amount, Platform, ""), Credit(CustomerReceivable, amount, Customer, customer)])
  }

  function CashCollection(amount: Amount, driver: Id, customer: Id, job: Id): Result<Txn, Error> {
    Movement(CashCollected, job, "", None,
             [Debit(CashInTransit, amount, Driver, driver), Credit(CustomerReceivable, amount, Customer, customer)])
  }

  function DriverRemittance(amount: Amount, driver: Id): Result<Txn, Error> {
    Movement(Settling, "", "", None,
             [Debit(PlatformClearing, amount, Platform, ""), Credit(CashInTransit, amount, Driver, driver)])
  }

  function Payout(amount: Amount, subject: SubjectType, who: Id): Result<Txn, Error> {
    var account := if subject == Merchant then MerchantPayable else DriverPayable;
    Movement(PayingOut, "", "", None, [Debit(account, amount, subject, who), Credit(PlatformClearing, amount, Platform, "")])
  }

  function DriverEarning(gross: Amount, commission: Amount, driver: Id, job: Id): Result<Txn, Error> {
    match Sub(gross, commission)
    case Err(_) => Err(TooLarge)
    case Ok(net) =>
      if net < 0 then Err(CommissionExceeds)
      else
        var kept := if commission != 0 then [Credit(PlatformRevenue, commission, Platform, "")] else [];
        Movement(Earning, job, "", None,
                 [Debit(DriverExpense, gross, Driver, driver), Credit(DriverPayable, net, Driver, driver)] + kept)
  }

  function MerchantSale(goods: Amount, commission: Amount, merchant: Id, order: Id, job: Id): Result<Txn, Error> {
    match Sub(goods, commission)
    case Err(_) => Err(TooLarge)
    case Ok(net) =>
      if net < 0 then Err(CommissionExceeds)
      else
        var kept := if commission != 0 then [Credit(PlatformRevenue, commission, Platform, "")] else [];
        Movement(Earning, job, order, None,
                 [Debit(PlatformClearing, goods, Platform, ""), Credit(MerchantPayable, net, Merchant, merchant)] + kept)
  }

  lemma TwoEntries(a: Entry, b: Entry, q: Query)
    ensures Effect([a, b], q) == (if Asks(q, a) then a.amount else 0) + if Asks(q, b) then b.amount else 0
  {
    assert [a, b] == [a] + [b];
    EffectAppend([a], b, q);
    assert [a] == [] + [a];
    EffectAppend([], a, q);
  }

  /** Whatever a builder returns is balanced: nothing built here can wrap the 64-bit check. */
  lemma BuiltIsBalanced(kind: Kind, job: Id, order: Id, intent: Option<nat>, es: seq<Entry>)
    requires |es| <= 3
    ensures Movement(kind, job, order, intent, es).Ok? <==> Balanced(es)
  {
    CheckIsExactUpTo2048(es);
  }

  /** Two equal and opposite entries make a movement exactly when the amount is not nothing. */
  lemma PairBalances(kind: Kind, job: Id, order: Id, intent: Option<nat>, debit: Entry, credit: Entry)
    requires credit.amount == -debit.amount
    ensures Movement(kind, job, order, intent, [debit, credit]).Ok? <==> debit.amount != 0
  {
    BuiltIsBalanced(kind, job, order, intent, [debit, credit]);
    TwoEntries(debit, credit, Everything);
    if debit.amount == 0 {
      assert [debit, credit][0].amount == 0;
    }
  }

  /** Every named two-sided movement is recorded exactly when its amount is something, and balances. */
  lemma NamedMovementsBalance(amount: Amount, a: Id, b: Id, job: Id, intent: nat, subject: SubjectType)
    ensures var built := [CustomerPayment(amount, a, job, intent), Refund(amount, a, job, intent),
                          CashCollection(amount, a, b, job), DriverRemittance(amount, a), Payout(amount, subject, a)];
            forall k :: 0 <= k < |built| ==>
              (built[k].Ok? <==> amount != 0) && (built[k].Ok? ==> Balanced(built[k].value.entries))
  {
    BuiltBalances(Capturing, job, Some(intent), Debit(CustomerReceivable, amount, Customer, a),
                  Credit(PlatformClearing, amount, Platform, ""));
    BuiltBalances(Refunding, job, Some(intent), Debit(RefundLiability, amount, Platform, ""),
                  Credit(CustomerReceivable, amount, Customer, a));
    BuiltBalances(CashCollected, job, None, Debit(CashInTransit, amount, Driver, a),
                  Credit(CustomerReceivable, amount, Customer, b));
    BuiltBalances(Settling, "", None, Debit(PlatformClearing, amount, Platform, ""),
                  Credit(CashInTransit, amount, Driver, a));
    BuiltBalances(PayingOut, "", None,
                  Debit(if subject == Merchant then MerchantPayable else DriverPayable, amount, subject, a),
                  Credit(PlatformClearing, amount, Platform, ""));
  }

  lemma BuiltBalances(kind: Kind, job: Id, intent: Option<nat>, debit: Entry, credit: Entry)
    requires credit.amount == -debit.amount
    ensures Movement(kind, job, "", intent, [debit, credit]).Ok? <==> debit.amount != 0
    ensures debit.amount != 0 ==> Balanced([debit, credit])
  {
    PairBalances(kind, job, "", intent, debit, credit);
    BuiltIsBalanced(kind, job, "", intent, [debit, credit]);
  }

  /** Which accounts each of them moves, and which way: a capture makes the customer owe and a refund or cash
      collected takes it off; cash lies with the driver until it is brought back; a payout settles what was
      owed. Nothing else is moved. */
  lemma NamedMovementsMove(amount: Amount, a: Id, b: Id, job: Id, intent: nat, q: Query)
    requires amount != 0 && q.Part?
    ensures var t := CustomerPayment(amount, a, job, intent);
      t.Ok? && t.value.kind == Capturing && t.value.intent == Some(intent)
      && Effect(t.value.entries, q) == Between(q, Part(CustomerReceivable, Customer, a), Part(PlatformClearing, Platform, ""), amount)
    ensures var t := Refund(amount, a, job, intent);
      t.Ok? && t.value.kind == Refunding && t.value.intent == Some(intent)
      && Effect(t.value.entries, q) == Between(q, Part(RefundLiability, Platform, ""), Part(CustomerReceivable, Customer, a), amount)
    ensures var t := CashCollection(amount, a, b, job);
      t.Ok? && Effect(t.value.entries, q) == Between(q, Part(CashInTransit, Driver, a), Part(CustomerReceivable, Customer, b), amount)
    ensures var t := DriverRemittance(amount, a);
      t.Ok? && Effect(t.value.entries, q) == Between(q, Part(PlatformClearing, Platform, ""), Part(CashInTransit, Driver, a), amount)
    ensures var t := Payout(amount, Merchant, a);
      t.Ok? && Effect(t.value.entries, q) == Between(q, Part(MerchantPayable, Merchant, a), Part(PlatformClearing, Platform, ""), amount)
    ensures var t := Payout(amount, Driver, a);
      t.Ok? && Effect(t.value.entries, q) == Between(q, Part(DriverPayable, Driver, a), Part(PlatformClearing, Platform, ""), amount)
  {
    MovesBetween(Capturing, job, Some(intent), CustomerReceivable, Customer, a, PlatformClearing, Platform, "", amount, q);
    MovesBetween(Refunding, job, Some(intent), RefundLiability, Platform, "", CustomerReceivable, Customer, a, amount, q);
    MovesBetween(CashCollected, job, None, CashInTransit, Driver, a, CustomerReceivable, Customer, b, amount, q);
    MovesBetween(Settling, "", None, PlatformClearing, Platform, "", CashInTransit, Driver, a, amount, q);
    MovesBetween(PayingOut, "", None, MerchantPayable, Merchant, a, PlatformClearing, Platform, "", amount, q);
    MovesBetween(PayingOut, "", None, DriverPayable, Driver, a, PlatformClearing, Platform, "", amount, q);
  }

  /** What an account sees of an amount moved into `to` and out of `from`. */
  function Between(q: Query, to: Query, from: Query, amount: int): int {
    (if q == to then amount else 0) - if q == from then amount else 0
  }

  lemma MovesBetween(
    kind: Kind, job: Id, intent: Option<nat>, to: Account, toSubject: SubjectType, toWho: Id,
    from: Account, fromSubject: SubjectType, fromWho: Id, amount: Amount, q: Query)
    requires amount != 0 && q.Part?
    ensures var es := [Debit(to, amount, toSubject, toWho), Credit(from, amount, fromSubject, fromWho)];
      && Movement(kind, job, "", intent, es).Ok?
      && Effect(es, q) == Between(q, Part(to, toSubject, toWho), Part(from, fromSubject, fromWho), amount)
  {
    var a, b := Debit(to, amount, toSubject, toWho), Credit(from, amount, fromSubject, fromWho);
    PairBalances(kind, job, "", intent, a, b);
    TwoEntries(a, b, q);
  }

  /** An earning is recorded exactly when something is left for the driver, and then it splits the gross
      between what the driver is owed and what the platform keeps. */
  lemma EarningSplitsTheGross(gross: Amount, commission: Amount, driver: Id, job: Id)
    ensures DriverEarning(gross, commission, driver, job).Ok? <==>
      gross != 0 && commission < gross && gross - commission <= MAX_SAFE
    ensures DriverEarning(gross, commission, driver, job).Ok? ==>
      var es := DriverEarning(gross, commission, driver, job).value.entries;
      && Balanced(es)
      && Effect(es, Part(DriverPayable, Driver, driver)) == -(gross - commission)
      && Effect(es, Whole(PlatformRevenue)) == -commission
      && Effect(es, Part(DriverExpense, Driver, driver)) == gross
  {
    if InRange(gross - commission) && gross - commission >= 0 {
      var net: Amount := gross - commission;
      var a, b := Debit(DriverExpense, gross, Driver, driver), Credit(DriverPayable, net, Driver, driver);
      var c := Credit(PlatformRevenue, commission, Platform, "");
      SplitBalances(Earning, job, "", a, b, c);
      SplitEffect(a, b, c, Part(DriverPayable, Driver, driver));
      SplitEffect(a, b, c, Whole(PlatformRevenue));
      SplitEffect(a, b, c, Part(DriverExpense, Driver, driver));
    }
  }

  /** A shop's sale splits what the platform clears between what the shop is owed and what is kept. */
  lemma SaleSplitsTheGoods(goods: Amount, commission: Amount, merchant: Id, order: Id, job: Id)
    ensures MerchantSale(goods, commission, merchant, order, job).Ok? <==>
      goods != 0 && commission < goods && goods - commission <= MAX_SAFE
    ensures MerchantSale(goods, commission, merchant, order, job).Ok? ==>
      var t := MerchantSale(goods, commission, merchant, order, job).value;
      && Balanced(t.entries) && t.job == job && t.order == order
      && Effect(t.entries, Part(MerchantPayable, Merchant, merchant)) == -(goods - commission)
      && Effect(t.entries, Whole(PlatformRevenue)) == -commission
      && Effect(t.entries, Part(PlatformClearing, Platform, "")) == goods
  {
    if InRange(goods - commission) && goods - commission >= 0 {
      var net: Amount := goods - commission;
      var a, b := Debit(PlatformClearing, goods, Platform, ""), Credit(MerchantPayable, net, Merchant, merchant);
      var c := Credit(PlatformRevenue, commission, Platform, "");
      SplitBalances(Earning, job, order, a, b, c);
      SplitEffect(a, b, c, Part(MerchantPayable, Merchant, merchant));
      SplitEffect(a, b, c, Whole(PlatformRevenue));
      SplitEffect(a, b, c, Part(PlatformClearing, Platform, ""));
    }
  }

  /** A third entry of nothing makes no difference. */
  lemma SplitEffect(a: Entry, b: Entry, c: Entry, q: Query)
    ensures Effect([a, b] + (if c.amount != 0 then [c] else []), q) ==
            (if Asks(q, a) then a.amount else 0) + (if Asks(q, b) then b.amount else 0) + if Asks(q, c) then c.amount else 0
  {
    TwoEntries(a, b, q);
    assert [a, b] + [] == [a, b];
  }

  lemma SplitBalances(kind: Kind, job: Id, order: Id, a: Entry, b: Entry, c: Entry)
    requires a.amount + b.amount + c.amount == 0
    ensures var es := [a, b] + if c.amount != 0 then [c] else [];
            && (Movement(kind, job, order, None, es).Ok? <==> a.amount != 0 && b.amount != 0)
            && (a.amount != 0 && b.amount != 0 ==> Balanced(es))
  {
    var es := [a, b] + if c.amount != 0 then [c] else [];
    BuiltIsBalanced(kind, job, order, None, es);
    TwoEntries(a, b, Everything);
    assert es[0] == a && es[1] == b;
    assert [a, b] + [] == [a, b];
  }

  // --- commission ---------------------------------------------------------------------------------

  datatype Rate = Rate(bps: int, flat: Amount)

  /** The percentage, plus any flat part, but never more than the earning itself. */
  function Commission(gross: Amount, rate: Rate): Result<Amount, MoneyError> {
    match ApplyRate(gross, rate.bps, BASIS)
    case Err(e) => Err(e)
    case Ok(percentage) =>
      if rate.flat == 0 then Ok(percentage)
      else
        match Add(percentage, rate.flat)
        case Err(e) => Err(e)
        case Ok(total) => Ok(if total > gross then gross else total)
  }

  /** The platform keeps between nothing and all of a fare, under every rate the table may hold. The sum
      is refused only when it leaves the safe range. */
  lemma CommissionStaysWithinTheFare(gross: Amount, rate: Rate)
    requires gross >= 0 && 0 <= rate.bps <= BASIS && rate.flat >= 0
    ensures ApplyRate(gross, rate.bps, BASIS).Ok?
    ensures Commission(gross, rate).Ok? <==> ApplyRate(gross, rate.bps, BASIS).value + rate.flat <= MAX_SAFE
    ensures Commission(gross, rate).Ok? ==> 0 <= Commission(gross, rate).value <= gross
  {
    RateTakesAPart(gross, rate.bps);
  }

  /** The commission is the rate's share of the fare to the nearest unit, halves up, plus the flat part, and
      the whole fare when that is more: no other amount is ever taken. */
  lemma CommissionIsTheNearestShare(gross: Amount, rate: Rate, taken: int)
    requires gross >= 0 && 0 <= rate.bps <= BASIS && rate.flat >= 0 && Commission(gross, rate).Ok?
    ensures Commission(gross, rate).value == taken <==>
      exists p :: NearestHalfAway(p, gross * rate.bps, BASIS) && taken == if p + rate.flat > gross then gross else p + rate.flat
  {
    var p := ApplyRate(gross, rate.bps, BASIS).value;
    RateTakesAPart(gross, rate.bps);
    RateIsNearest(gross, rate.bps, BASIS, p);
    forall q | NearestHalfAway(q, gross * rate.bps, BASIS) ensures q == p {
      RoundsHalfAway(gross * rate.bps, BASIS, q);
    }
  }

  /** A larger fare never pays a smaller commission. */
  lemma CommissionIsMonotone(gross: Amount, more: Amount, rate: Rate)
    requires 0 <= gross <= more && 0 <= rate.bps <= BASIS && rate.flat >= 0
    requires Commission(more, rate).Ok?
    ensures Commission(gross, rate).Ok? && Commission(gross, rate).value <= Commission(more, rate).value
  {
    RateIsMonotone(gross, more, rate.bps);
    CommissionStaysWithinTheFare(gross, rate);
    CommissionStaysWithinTheFare(more, rate);
  }

  /** A fare's commission and the earning it makes: the driver is paid exactly when the rate leaves
      something. */
  lemma FareIsSplit(fare: Amount, rate: Rate, driver: Id, job: Id)
    requires fare > 0 && 0 <= rate.bps <= BASIS && rate.flat >= 0 && Commission(fare, rate).Ok?
    ensures DriverEarning(fare, Commission(fare, rate).value, driver, job).Ok? <==> Commission(fare, rate).value != fare
  {
    CommissionStaysWithinTheFare(fare, rate);
    EarningSplitsTheGross(fare, Commission(fare, rate).value, driver, job);
  }
}
