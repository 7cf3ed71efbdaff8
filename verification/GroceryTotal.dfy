/** What an order costs: the lines as ordered, plus the price differences of the substitutions the shop
    applied on the customer's standing instruction. */
module GroceryTotal {
  import opened Common
  import opened OrderMachine
  import opened GroceryTables
  import opened GrocerySteps

  // --- the independent reference ----------------------------------------------------------------

  /** The surviving lines among the first `n`, at the prices they were ordered at. */
  function AsOrdered(lines: seq<Line>, n: nat): int
    requires n <= |lines|
  {
    if n == 0 then 0
    else AsOrdered(lines, n - 1) + if Survives(lines[n - 1]) then lines[n - 1].price * lines[n - 1].quantity else 0
  }

  /** The recorded price difference of line `i`'s latest settled substitution, if it has one. */
  function DifferenceOf(issues: seq<Issue>, i: nat): int {
    var settled := LatestSettled(issues, i);
    if settled.Some? then settled.value.difference.GetOr(0) else 0
  }

  function Differences(lines: seq<Line>, issues: seq<Issue>, n: nat): int
    requires n <= |lines|
  {
    if n == 0 then 0
    else Differences(lines, issues, n - 1) + if Survives(lines[n - 1]) then DifferenceOf(issues, n - 1) else 0
  }

  // --- the invariant ------------------------------------------------------------------------------

  /** An issue belongs to a line, its recorded difference is that line's, and a substitution was never
      waiting for an answer: it is settled as it is recorded, so what waits is a question. */
  predicate IssueSound(lines: seq<Line>, issue: Issue) {
    && issue.line < |lines|
    && (issue.price.Some? ==>
          issue.difference
          == Some(PriceDifference(lines[issue.line].price, issue.price.value, lines[issue.line].quantity)))
    && (issue.action == Substitute ==> issue.price.Some? && issue.resolution == AutoApplied)
  }

  predicate TotalSound(order: Order) {
    && order.total == Total(order.lines, order.issues)
    && (forall i :: 0 <= i < |order.lines| ==> order.lines[i].quantity > 0)
    && forall n :: 0 <= n < |order.issues| ==> IssueSound(order.lines, order.issues[n])
  }

  predicate TotalInv(db: Db) {
    forall o :: 0 <= o < |db.orders| ==> TotalSound(db.orders[o])
  }

  lemma {:induction false} SettledIsAnIssue(issues: seq<Issue>, i: nat)
    ensures LatestSettled(issues, i).Some? ==>
      Settles(LatestSettled(issues, i).value, i) && LatestSettled(issues, i).value in issues
  {
    if |issues| > 0 && !Settles(issues[|issues| - 1], i) {
      SettledIsAnIssue(issues[..|issues| - 1], i);
    }
  }

  /** The stored total is what was ordered and survived, plus the recorded differences. */
  lemma {:induction false} TotalIsOrderedPlusDifferences(lines: seq<Line>, issues: seq<Issue>, n: nat)
    requires n <= |lines| && forall m :: 0 <= m < |issues| ==> IssueSound(lines, issues[m])
    ensures TotalOf(lines, issues, n) == AsOrdered(lines, n) + Differences(lines, issues, n)
  {
    if n > 0 {
      TotalIsOrderedPlusDifferences(lines, issues, n - 1);
      SettledIsAnIssue(issues, n - 1);
      var settled := LatestSettled(issues, n - 1);
      if settled.Some? {
        var m :| 0 <= m < |issues| && issues[m] == settled.value;
        assert IssueSound(lines, issues[m]);
      }
    }
  }

  // --- each transaction keeps it ---------------------------------------------------------------------

  /** Lines may change status but never what was ordered. */
  predicate SameLines(a: seq<Line>, b: seq<Line>) {
    |a| <= |b| && forall i :: 0 <= i < |a| ==> b[i].(status := a[i].status) == a[i]
  }

  lemma {:induction false} QuestionsCostNothing(lines: seq<Line>, issues: seq<Issue>, issue: Issue, n: nat)
    requires n <= |lines| && issue.action != Substitute
    ensures TotalOf(lines, issues + [issue], n) == TotalOf(lines, issues, n)
  {
    if n > 0 {
      QuestionsCostNothing(lines, issues, issue, n - 1);
      assert (issues + [issue])[..|issues|] == issues;
    }
  }

  lemma ReportKeeps(db: Db, o: OrderId, i: nat, proposed: IssueAction, price: Option<int>)
    requires TotalInv(db)
    ensures TotalInv(ReportIssue(db, o, i, proposed, price))
  {
    if ReportAnswer(db, o, i, proposed, price).None? {
      var order := db.orders[o];
      var issue := IssueFor(order.lines[i], i, proposed, price);
      var after := WithIssue(order, i, issue);
      assert TotalSound(order);
      forall n | 0 <= n < |after.issues| ensures IssueSound(after.lines, after.issues[n]) {
        if n < |order.issues| {
          assert after.issues[n] == order.issues[n] && IssueSound(order.lines, order.issues[n]);
        }
      }
      if issue.action == Ask {
        assert after.lines == order.lines;
        QuestionsCostNothing(order.lines, order.issues, issue, |order.lines|);
      }
    }
  }

  lemma DecideKeeps(db: Db, o: OrderId, n: nat, accept: bool)
    requires TotalInv(db)
    ensures TotalInv(DecideIssue(db, o, n, accept))
  {
    if DecideAnswer(db, o, n, accept).None? {
      var order := db.orders[o];
      var after := Decided(order, n, accept);
      assert TotalSound(order);
      forall m | 0 <= m < |after.issues| ensures IssueSound(after.lines, after.issues[m]) {
        assert IssueSound(order.lines, order.issues[m]);
      }
    }
  }

  lemma AddItemKeeps(
    db: Db, o: OrderId, product: nat, variant: Option<nat>, price: nat, quantity: int, preference: Preference)
    requires TotalInv(db)
    ensures TotalInv(AddItem(db, o, product, variant, price, quantity, preference))
  {
    if AddItemAnswer(db, o, quantity).None? {
      var order := db.orders[o];
      var after := AddItem(db, o, product, variant, price, quantity, preference).orders[o];
      assert TotalSound(order);
      forall m | 0 <= m < |after.issues| ensures IssueSound(after.lines, after.issues[m]) {
        assert IssueSound(order.lines, order.issues[m]);
      }
    }
  }

  lemma StepKeepsTotals(db: Db, s: Step)
    requires TotalInv(db)
    ensures TotalInv(Apply(db, s))
  {
    match s
    case AddItemStep(o, product, variant, price, quantity, preference) =>
      AddItemKeeps(db, o, product, variant, price, quantity, preference);
    case ReportStep(o, i, proposed, price) => ReportKeeps(db, o, i, proposed, price);
    case DecideStep(o, n, accept) => DecideKeeps(db, o, n, accept);
    case _ =>
      forall o | 0 <= o < |Apply(db, s).orders| ensures TotalSound(Apply(db, s).orders[o]) {
        OthersTouchNoTotal(db, s, o);
        assert o < |db.orders| ==> TotalSound(db.orders[o]);
      }
  }

  lemma OthersTouchNoTotal(db: Db, s: Step, o: OrderId)
    requires !s.AddItemStep? && !s.ReportStep? && !s.DecideStep? && o < |Apply(db, s).orders|
    ensures var after := Apply(db, s).orders[o];
      if o < |db.orders| then
        after.total == db.orders[o].total && after.lines == db.orders[o].lines && after.issues == db.orders[o].issues
      else after.total == 0 && after.lines == [] && after.issues == []
  {
  }

  /** What was ordered is never rewritten, and nothing is added once the cart has been placed. */
  lemma StepKeepsLines(db: Db, s: Step, o: OrderId)
    requires o < |db.orders|
    ensures o < |Apply(db, s).orders| && SameLines(db.orders[o].lines, Apply(db, s).orders[o].lines)
    ensures db.orders[o].status != Cart ==> |Apply(db, s).orders[o].lines| == |db.orders[o].lines|
  {
  }

  lemma {:induction false} OrderedLinesNeverChange(db: Db, ss: seq<Step>, o: OrderId)
    requires o < |db.orders|
    ensures o < |Run(db, ss).orders| && SameLines(db.orders[o].lines, Run(db, ss).orders[o].lines)
    decreases |ss|
  {
    if |ss| > 0 {
      StepKeepsLines(db, ss[0], o);
      OrderedLinesNeverChange(Apply(db, ss[0]), ss[1..], o);
    }
  }

  lemma {:induction false} RunKeepsTotals(db: Db, ss: seq<Step>)
    requires TotalInv(db)
    ensures TotalInv(Run(db, ss))
    decreases |ss|
  {
    if |ss| > 0 {
      StepKeepsTotals(db, ss[0]);
      RunKeepsTotals(Apply(db, ss[0]), ss[1..]);
    }
  }

  /** In every order any run reaches, the stored total is what survives of the order at its original
      prices plus the recorded difference of each surviving line's latest settled substitution. */
  lemma EveryTotalIsExplained(ss: seq<Step>, o: OrderId)
    requires o < |Run(EMPTY, ss).orders|
    ensures var order := Run(EMPTY, ss).orders[o];
      order.total == AsOrdered(order.lines, |order.lines|) + Differences(order.lines, order.issues, |order.lines|)
  {
    RunKeepsTotals(EMPTY, ss);
    var order := Run(EMPTY, ss).orders[o];
    assert TotalSound(order);
    TotalIsOrderedPlusDifferences(order.lines, order.issues, |order.lines|);
  }

  // --- a question the customer answers yes to ------------------------------------------------------------

  lemma {:induction false} AnswersSettleNothing(issues: seq<Issue>, n: nat, r: Resolution, i: nat)
    requires n < |issues|
    requires issues[n].action != Substitute
    ensures LatestSettled(issues[n := issues[n].(resolution := r)], i) == LatestSettled(issues, i)
  {
    var after := issues[n := issues[n].(resolution := r)];
    var last := |issues| - 1;
    if n < last {
      AnswersSettleNothing(issues[..last], n, r, i);
      assert after[..last] == issues[..last][n := issues[..last][n].(resolution := r)];
    } else {
      assert after[..last] == issues[..last];
    }
  }

  /** Changing one line's status moves the total by what that line's charge moves. */
  lemma {:induction false} OneLineMoves(
    lines: seq<Line>, ai: seq<Issue>, i: nat, status: LineStatus, bi: seq<Issue>, n: nat)
    requires i < |lines| && n <= |lines|
    requires forall k :: 0 <= k < |lines| ==> LatestSettled(bi, k) == LatestSettled(ai, k)
    ensures var after := lines[i := lines[i].(status := status)];
      TotalOf(after, bi, n) == TotalOf(lines, ai, n) + if i < n then Charge(after, bi, i) - Charge(lines, ai, i) else 0
  {
    if n > 0 {
      OneLineMoves(lines, ai, i, status, bi, n - 1);
      assert n - 1 != i ==> lines[i := lines[i].(status := status)][n - 1] == lines[n - 1];
    }
  }

  /** What a decision does to an order, whatever state the order is in: one line's charge changes. */
  lemma DecisionMovesOneCharge(db: Db, o: OrderId, n: nat, accept: bool)
    requires TotalInv(db) && DecideAnswer(db, o, n, accept).None?
    ensures var order, after := db.orders[o], DecideIssue(db, o, n, accept).orders[o];
      var i := order.issues[n].line;
      && after.total == order.total + Charge(after.lines, after.issues, i) - Charge(order.lines, order.issues, i)
      && UnitPrice(after.lines, after.issues, i) == UnitPrice(order.lines, order.issues, i)
      && (Survives(after.lines[i]) <==> accept)
      && after.status == order.status
  {
    var order := db.orders[o];
    var after := Decided(order, n, accept);
    var i := order.issues[n].line;
    assert TotalSound(order) && IssueSound(order.lines, order.issues[n]);
    var r := if accept then CustomerAccepted else CustomerDeclined;
    forall k | 0 <= k < |order.lines| ensures LatestSettled(after.issues, k) == LatestSettled(order.issues, k) {
      AnswersSettleNothing(order.issues, n, r, k);
    }
    OneLineMoves(order.lines, order.issues, i, if accept then Substituted else Removed, after.issues, |order.lines|);
  }

  /** Accepting a proposed substitute never charges its price: only substitutions reprice, and the proposal
      stays a question. A line that still stands is charged as before; one that had been taken off meanwhile
      comes back at its own price. So the total stays where it was exactly when the line still stands or
      costs nothing. */
  lemma AcceptanceNeverReprices(db: Db, o: OrderId, n: nat)
    requires TotalInv(db) && DecideAnswer(db, o, n, true).None?
    ensures var order, after := db.orders[o], DecideIssue(db, o, n, true).orders[o];
      var i := order.issues[n].line;
      && after.total == order.total
           + (if Survives(order.lines[i]) then 0
              else UnitPrice(order.lines, order.issues, i) * order.lines[i].quantity)
      && (after.total == order.total <==>
            Survives(order.lines[i]) || UnitPrice(order.lines, order.issues, i) == 0)
  {
    DecisionMovesOneCharge(db, o, n, true);
    var i := db.orders[o].issues[n].line;
    assert TotalSound(db.orders[o]);
  }

  /** The customer pays the proposed price after accepting it exactly when the line already cost that. */
  lemma ProposedPriceIsPaidExactlyWhenUnchanged(db: Db, o: OrderId, n: nat)
    requires TotalInv(db) && DecideAnswer(db, o, n, true).None? && db.orders[o].issues[n].price.Some?
    ensures var order, after := db.orders[o], DecideIssue(db, o, n, true).orders[o];
      var i := order.issues[n].line;
      Charge(after.lines, after.issues, i) == order.issues[n].price.value * order.lines[i].quantity
      <==> UnitPrice(order.lines, order.issues, i) == order.issues[n].price.value
  {
    DecisionMovesOneCharge(db, o, n, true);
    var order := db.orders[o];
    var i := order.issues[n].line;
    var unit, proposed := UnitPrice(order.lines, order.issues, i), order.issues[n].price.value;
    assert TotalSound(order);
  }

  /** A shop may ask about a line and then take it off; a customer who answers yes to the question still
      waiting puts the line back at its full price, as if it had never been taken off. */
  lemma LateYesRestoresTheLine(db: Db, o: OrderId, i: nat, price: Option<int>)
    requires TotalInv(db) && o < |db.orders| && i < |db.orders[o].lines|
    requires db.orders[o].lines[i].preference == AskMe && Survives(db.orders[o].lines[i])
    requires db.orders[o].total >= 0
    requires var asked := ReportIssue(db, o, i, Substitute, price); ReportAnswer(asked, o, i, Remove, None).None?
    ensures
      var order := db.orders[o];
      var removed := ReportIssue(ReportIssue(db, o, i, Substitute, price), o, i, Remove, None);
      && !Survives(removed.orders[o].lines[i])
      && removed.orders[o].total == order.total - Charge(order.lines, order.issues, i)
      && DecideAnswer(removed, o, |order.issues|, true).None?
      && DecideIssue(removed, o, |order.issues|, true).orders[o].total == order.total
  {
    var order := db.orders[o];
    var asked := ReportIssue(db, o, i, Substitute, price);
    var question := IssueFor(order.lines[i], i, Substitute, price);
    assert TotalSound(order);
    ReportKeeps(db, o, i, Substitute, price);
    assert asked.orders[o].lines == order.lines && asked.orders[o].issues == order.issues + [question];
    QuestionsCostNothing(order.lines, order.issues, question, |order.lines|);
    assert asked.orders[o].total == order.total;
    var removed := ReportIssue(asked, o, i, Remove, None);
    ReportKeeps(asked, o, i, Remove, None);
    var removal := IssueFor(order.lines[i], i, Remove, None);
    forall k | 0 <= k < |order.lines|
      ensures LatestSettled(order.issues + [question] + [removal], k) == LatestSettled(order.issues, k)
    {
      assert (order.issues + [question] + [removal])[..|order.issues| + 1] == order.issues + [question];
      assert (order.issues + [question])[..|order.issues|] == order.issues;
    }
    OneLineMoves(order.lines, order.issues, i, Removed, order.issues + [question] + [removal], |order.lines|);
    var n := |order.issues|;
    assert removed.orders[o].issues[n] == question;
    LateYes(removed, o, n, order);
  }

  lemma LateYes(db: Db, o: OrderId, n: nat, order: Order)
    requires TotalInv(db) && o < |db.orders| && n < |db.orders[o].issues|
    requires db.orders[o].issues[n].resolution == Pending && order.total >= 0
    requires var i := db.orders[o].issues[n].line;
      && i < |db.orders[o].lines| && !Survives(db.orders[o].lines[i])
      && db.orders[o].total == order.total - UnitPrice(db.orders[o].lines, db.orders[o].issues, i) * db.orders[o].lines[i].quantity
    ensures DecideAnswer(db, o, n, true).None? && DecideIssue(db, o, n, true).orders[o].total == order.total
  {
    var now := db.orders[o];
    var i := now.issues[n].line;
    var after := Decided(now, n, true);
    assert TotalSound(now) && IssueSound(now.lines, now.issues[n]);
    forall k | 0 <= k < |now.lines| ensures LatestSettled(after.issues, k) == LatestSettled(now.issues, k) {
      AnswersSettleNothing(now.issues, n, CustomerAccepted, k);
    }
    OneLineMoves(now.lines, now.issues, i, Substituted, after.issues, |now.lines|);
  }

  // --- decisions nobody stops -----------------------------------------------------------------------------

  /** A question waits for its answer through anything else: nothing but a decision on it settles it. */
  lemma {:induction false} QuestionsWait(db: Db, ss: seq<Step>, o: OrderId, n: nat)
    requires o < |db.orders| && n < |db.orders[o].issues|
    requires forall k :: 0 <= k < |ss| ==> !(ss[k].DecideStep? && ss[k].o == o && ss[k].n == n)
    ensures o < |Run(db, ss).orders| && n < |Run(db, ss).orders[o].issues|
    ensures Run(db, ss).orders[o].issues[n] == db.orders[o].issues[n]
    decreases |ss|
  {
    if |ss| > 0 {
      StepLeavesQuestion(db, ss[0], o, n);
      QuestionsWait(Apply(db, ss[0]), ss[1..], o, n);
    }
  }

  lemma StepLeavesQuestion(db: Db, s: Step, o: OrderId, n: nat)
    requires o < |db.orders| && n < |db.orders[o].issues|
    requires !(s.DecideStep? && s.o == o && s.n == n)
    ensures o < |Apply(db, s).orders| && n < |Apply(db, s).orders[o].issues|
    ensures Apply(db, s).orders[o].issues[n] == db.orders[o].issues[n]
  {
  }

  /** So the total of an order that is packed, carried or delivered can still move, and a decision moves it
      exactly when it takes off a line that is charged for or puts back one that costs something. */
  lemma LateDecisionMovesTheTotalExactlyWhen(db: Db, o: OrderId, n: nat, accept: bool)
    requires TotalInv(db) && DecideAnswer(db, o, n, accept).None?
    ensures var order, after := db.orders[o], DecideIssue(db, o, n, accept).orders[o];
      var i := order.issues[n].line;
      && after.status == order.status
      && (after.total != order.total <==>
            (accept <==> !Survives(order.lines[i])) && UnitPrice(order.lines, order.issues, i) != 0)
  {
    DecisionMovesOneCharge(db, o, n, accept);
    var i := db.orders[o].issues[n].line;
    assert TotalSound(db.orders[o]);
  }

  /** Once it is no cart, nothing but a report or a decision on the order moves its total. */
  lemma OnlyProblemsMoveTheTotal(db: Db, s: Step, o: OrderId)
    requires o < |db.orders| && db.orders[o].status != Cart
    requires Apply(db, s).orders[o].total != db.orders[o].total
    ensures (s.ReportStep? || s.DecideStep?) && s.o == o
  {
  }

  /** A substitute's price is charged exactly when the customer's standing instruction for the line is
      to allow substitutions and a substitute is what the shop proposed. */
  lemma SubstituteIsChargedExactlyWhenAllowed(db: Db, o: OrderId, i: nat, proposed: IssueAction, price: int)
    requires TotalInv(db) && ReportAnswer(db, o, i, proposed, Some(price)).None?
    ensures var order := ReportIssue(db, o, i, proposed, Some(price)).orders[o];
      var issue := order.issues[|order.issues| - 1];
      LatestSettled(order.issues, i) == Some(issue)
      <==> db.orders[o].lines[i].preference == Allow && proposed == Substitute
  {
    var order := db.orders[o];
    var issue := IssueFor(order.lines[i], i, proposed, Some(price));
    assert (order.issues + [issue])[..|order.issues|] == order.issues;
    SettledIsAnIssue(order.issues + [issue], i);
  }

  /** A declined line stops being charged for, whatever it had come to cost. */
  lemma DecliningDropsTheLine(db: Db, o: OrderId, n: nat)
    requires TotalInv(db) && DecideAnswer(db, o, n, false).None?
    ensures var order := db.orders[o];
      DecideIssue(db, o, n, false).orders[o].total
      == order.total - Charge(order.lines, order.issues, order.issues[n].line)
  {
    DecisionMovesOneCharge(db, o, n, false);
  }
}
