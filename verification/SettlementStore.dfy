/** The settling service over the finance store. */
module SettlementStore {
  import opened Common
  import opened Money
  import opened Ledger
  import opened Books
  import opened BooksInvariant
  import opened BooksStore
  import opened Settlement

  function BillFor(job: Job, fare: Amount, basket: Basket, total: Amount, rate: Option<Rate>): Bill {
    Bill(job.id, job.driver, job.requester, fare, basket, total, rate)
  }

  /** Why a job is not settled at all, before any money moves. */
  function Guard(job: Job, fare: Amount, basket: Basket): Option<Error> {
    if !job.completed then Some(NotComplete)
    else if job.driver == "" then Some(NoDriver)
    else if fare < 0 then Some(NegativePrice)
    else if !InRange(fare + basket.goods) then Some(TooLarge)
    else None
  }

  function BreakdownOf(b: Bill): Breakdown {
    Breakdown(b.fare, b.basket.goods, b.total, Kept(b), if b.fare > 0 then b.fare - Kept(b) else 0)
  }

  class Service {
    const books: Store

    constructor (store: Store)
      ensures books == store
    {
      books := store;
    }

    /** Opens the cash intent, captures it, and records the driver taking the notes. An intent already
        captured is an earlier settlement that got this far. */
    method CollectCash(bill: Bill) returns (error: Option<Error>)
      requires Sound(books.State())
      modifies books
      ensures Sound(books.State())
      ensures DoAll(old(books.State()), CashMoves(bill), bill) == Outcome(books.State(), error)
    {
      ghost var db := books.State();
      CashMovesInTurn(db, bill);
      var intent := books.CreateIntent(bill.job, "", bill.requester, bill.total, "fare:" + bill.job);
      if intent.Err? {
        return Some(intent.error);
      }
      DoKeepsBooks(db, OpenIntent, bill);
      ghost var asked := books.State();
      IntentFoundIs(asked, intent.value, bill.requester, "fare:" + bill.job);
      var captured := books.Capture(intent.value, bill.total);
      if captured.Some? && captured.value != AlreadyCaptured {
        return captured;
      }
      DoKeepsBooks(asked, TakeCash, bill);
      ghost var taken := books.State();
      IntentStays(asked, taken, bill);
      var collection := CashCollection(bill.total, bill.driver, bill.requester, bill.job);
      if collection.Err? {
        return Some(collection.error);
      }
      var posted := books.Post(collection.value.(intent := Some(intent.value), key := "cod:" + bill.job));
      if posted.Err? {
        return Some(posted.error);
      }
      DoKeepsBooks(taken, Collect, bill);
      error := None;
    }

    /** Credits the shop for its goods in full. */
    method PayMerchant(bill: Bill) returns (error: Option<Error>)
      requires Sound(books.State()) && bill.basket.goods > 0
      modifies books
      ensures Sound(books.State())
      ensures DoAll(old(books.State()), ShopMoves(bill), bill) == Outcome(books.State(), error)
    {
      ghost var db := books.State();
      DoOne(db, PayShop, bill);
      var sale := MerchantSale(bill.basket.goods, 0, bill.basket.merchant, bill.basket.order, bill.job);
      if sale.Err? {
        return Some(sale.error);
      }
      var posted := books.Post(sale.value.(key := "goods:" + bill.job));
      if posted.Err? {
        return Some(posted.error);
      }
      DoKeepsBooks(db, PayShop, bill);
      error := None;
    }

    /** Posts the driver's earning on the fare, net of commission. */
    method PayDriverNet(bill: Bill) returns (error: Option<Error>, commission: int, net: int)
      requires Sound(books.State())
      modifies books
      ensures Sound(books.State())
      ensures DoAll(old(books.State()), DriverMoves(bill), bill) == Outcome(books.State(), error)
      ensures error.None? ==> Breakdown(bill.fare, bill.basket.goods, bill.total, commission, net) == BreakdownOf(bill)
    {
      ghost var db := books.State();
      if bill.fare <= 0 {
        return None, 0, 0;
      }
      DoOne(db, PayDriver, bill);
      if bill.rate.None? {
        return Some(NoCommission), 0, 0;
      }
      var kept := Commission(bill.fare, bill.rate.value);
      if kept.Err? {
        return Some(TooLarge), 0, 0;
      }
      var earning := DriverEarning(bill.fare, kept.value, bill.driver, bill.job);
      if earning.Err? {
        return Some(earning.error), 0, 0;
      }
      var posted := books.Post(earning.value.(key := "earning:" + bill.job));
      if posted.Err? {
        return Some(posted.error), 0, 0;
      }
      DoKeepsBooks(db, PayDriver, bill);
      return None, kept.value, bill.fare - kept.value;
    }

    /** The moves of one settlement, in order; a failure leaves what was committed before it. */
    method Pay(bill: Bill) returns (r: Result<Breakdown, Error>)
      requires Sound(books.State())
      modifies books
      ensures Sound(books.State())
      ensures
        var out := InTurn(old(books.State()), bill);
        && books.State() == out.db
        && r == match out.error case Some(e) => Err(e) case None => Ok(BreakdownOf(bill))
    {
      ghost var db := books.State();
      var error := CollectCash(bill);
      if error.Some? {
        return Err(error.value);
      }
      ghost var held := books.State();
      if bill.basket.goods > 0 {
        error := PayMerchant(bill);
        if error.Some? {
          return Err(error.value);
        }
      }
      ghost var sold := books.State();
      assert DoAll(held, ShopMoves(bill), bill) == Outcome(sold, None);
      var commission, net;
      error, commission, net := PayDriverNet(bill);
      if error.Some? {
        return Err(error.value);
      }
      r := Ok(Breakdown(bill.fare, bill.basket.goods, bill.total, commission, net));
    }

    /** No price lock is a fare of nothing, and no order behind the job a basket of nothing. */
    method SettleCash(job: Job, price: Option<Amount>, order: Option<Basket>, rate: Option<Rate>)
      returns (r: Result<Breakdown, Error>)
      requires Sound(books.State())
      modifies books
      ensures Sound(books.State())
      ensures
        var before := old(books.State());
        var fare, basket := price.GetOr(0), order.GetOr(NO_BASKET);
        if Guard(job, fare, basket).Some? then r == Err(Guard(job, fare, basket).value) && books.State() == before
        else if fare + basket.goods <= 0 then
          r == Ok(Breakdown(fare, basket.goods, fare + basket.goods, 0, 0)) && books.State() == before
        else
          var bill := BillFor(job, fare, basket, fare + basket.goods, rate);
          var out := DoAll(before, Moves(bill), bill);
          && books.State() == out.db
          && r == match out.error case Some(e) => Err(e) case None => Ok(BreakdownOf(bill))
    {
      if !job.completed {
        return Err(NotComplete);
      }
      if job.driver == "" {
        return Err(NoDriver);
      }
      var fare, basket := price.GetOr(0), order.GetOr(NO_BASKET);
      if fare < 0 {
        return Err(NegativePrice);
      }
      var sum := Add(fare, basket.goods);
      if sum.Err? {
        return Err(TooLarge);
      }
      var total := sum.value;
      if total <= 0 {
        return Ok(Breakdown(fare, basket.goods, total, 0, 0));
      }
      var bill := BillFor(job, fare, basket, total, rate);
      MovesInTurn(books.State(), bill);
      r := Pay(bill);
    }
  }
}
