# Verified model of the ride and delivery platform

A Dafny 4.11 model of the parts of the platform that must not go wrong when things overlap, repeat or
stop half way, and proofs of what they guarantee. `dafny verify dfyconfig.toml` checks all of it.

The services keep their promises with conditional writes over a few tables: compare-and-set updates,
unique indexes and short transactions. The model follows that. Each table set is a value; each committed
transaction is a function from one state to the next, with the answer it gives; a run is any sequence of
them. Theorems are about every state and every run. Beside the functions stand classes whose methods change
rows in place, with the loops and early returns of the services, each proved to answer and write what its
function says.

| modules | what they model |
|---|---|
| JobMachine, DispatchTables, DispatchSteps, DispatchInvariant, DispatchSafety, DispatchGap, DispatchDrivers, DispatchSweep, DispatchSearch, DispatchTermination, DispatchRound, DispatchAnswers, DispatchStore | jobs, offers, holds, drivers and attempts; reserving, accepting, declining, sweeping and searching |
| Scoring | ranking the drivers found |
| OrderMachine, GroceryTables, GrocerySteps, GroceryStock, GroceryTotal, GroceryAnswers, GroceryLifecycle, GroceryStore | grocery orders: stock, totals with substitutions, and the delivery behind an order |
| Money, Ledger, Books, BooksInvariant, BooksSafety, BooksStore | amounts, the double-entry ledger, payment intents and cash handed back |
| Credit | how much cash a driver may hold |
| Settlement, SettlementRetry, SettlementChange, SettlementStore | turning a completed cash job into ledger movements, across crashes, retries and bills that change between them |
| Sessions, SessionInvariant, SessionSafety, SessionStore | refresh-token rotation and reuse detection with requests in flight |
| Notify, NotifyWorker | the notification queue and its workers |
| Stream, StreamReader | the event stream, from the gateway that writes it to the client that reads it |
| MutationQueue, MutationFlush | the app's offline queue |
| Common | Option and Result |

Inputs from outside (clocks, prices, geo searches, routing, provider answers, account status, fresh tokens)
are parameters or steps with arbitrary arguments. Constraints and unique indexes are those of the
migrations.

Some promises the comments make do not hold of the code. The code is modelled as it is; for each, one
lemma shows a failing case and another says exactly when the promise holds:

- A dispatch can move a job to ASSIGNED with nobody holding it (DeclineBetweenStrands,
  AssignedIsHeldExactlyWhenAnOfferStands, AssignedIsHeldExactlyWhenNothingCloses); the next sweep repairs
  it (LateSweepListsEveryJob).
- A driver can hold two jobs at once, although the job store says an index allows one
  (OneDriverMayHoldTwoJobs, OnePerDriverExactlyWhileNoTakenDriverIsReserved).
- An accepted ASK_ME substitution is not charged at the substitute's price
  (AcceptanceNeverReprices, ProposedPriceIsPaidExactlyWhenUnchanged, SubstituteIsChargedExactlyWhenAllowed),
  and a yes to a question on a line since removed puts the line back at full price
  (LateYesRestoresTheLine).
- The total of a packed or delivered order can still move
  (LateDecisionMovesTheTotalExactlyWhen, OnlyProblemsMoveTheTotal).
- Stock of an expired order stays reserved for ever when the sweep dies before releasing it
  (AbandonedStockIsHeldUntilReleased).
- The balance check before a write can be fooled by a sum that wraps 64 bits
  (CheckIsExactExactlyUpTo2048); the sum after the write catches it.
- A replayed driver settlement posts its movement again and leaves it without a settlement row
  (HandbackReplayMovesTwice, HandbackAccountedExactlyWhenKeyIsFresh).
- A raised cap does not always keep the warning's proportion, its product wrapping at 64 bits
  (ProportionKeptExactlyWhenItFits).
- Handing back what is asked does not unblock a driver whose warning equals the cap
  (ClearingClearsExactlyWhenWarnIsBelowCap).
- A job whose commission is its whole fare collects the cash and can then never settle
  (FreshJobSettlesExactlyWhenPayable, UnpayableNeverSettles).
- The customer's debt on a cash job does not net to nothing when the order changes between an interrupted
  settlement and its retry, and a repeated completion can move money after all (ChangedOrderLeavesADebt,
  CustomerOwesExactlyTheDifference, SameLedgerExactlyWhenBillsAgree, LateBasketIsPaidUncollected,
  RepeatMovesMoneyExactlyWhen).
- A lost token swap is taken for reuse even when the session was only logged out
  (LogoutDuringRefreshEndsOtherSessions, SwapLostExactlyWhen).
- A notification whose worker dies stays SENDING for ever
  (FinishedAndStrandedNeverChange, StrandedExactlyByFailures).
- A stream request that fails is heard twice, as a change of state and as an error (the request error
  steps of the send() method in the XMLHttpRequest Standard fire both), and forks the connection
  (FailureHeardTwiceForksTheStream, OneAttemptExactlyWhileEndsAreHeardOnce).
- A mutation can be dropped unsent when the offline queue overflows, or is cleared and added to, during a
  send (OverflowDuringSendLosesTheNewest, ClearThenEnqueueLosesTheNewest,
  SuccessDropsAnUnsentOneExactlyWhenDisturbed).

## Model

| member | source | states |
|---|---|---|
| JobMachine.ReachesTransitively | services/api/internal/jobs/jobs.go:76-95 | Two walks along the job machine join into one, so "moves along the machine" composes over a run. |
| JobMachine.TerminalReachesOnlyItself | services/api/internal/jobs/jobs.go:76-95 | CANCELLED, FAILED, EXPIRED and DISPUTED are never left: the only state any walk reaches from them is themselves. |
| JobMachine.FlowIsEdges | services/api/internal/booking/booking.go:678-691 | Each step of the main flow from ACCEPTED to COMPLETED is an edge of the job machine. |
| DispatchInvariant.AcceptKeeps | services/api/internal/dispatch/store.go:167-264 | Accepting keeps every offer paired with its hold, at most one live offer per job, one hold per driver, and jobs agreeing with the answers of their offers. |
| DispatchInvariant.ReserveKeeps | services/api/internal/dispatch/store.go:94-152 | Reserving keeps the same invariant, whichever index refuses it. |
| DispatchInvariant.ReleaseKeeps | services/api/internal/dispatch/store.go:281-324 | Rejecting and timing out one offer keep it. |
| DispatchInvariant.SweepKeeps | services/api/internal/dispatch/store.go:330-369 | The expiry sweep keeps it. |
| DispatchInvariant.StepKeeps | services/api/internal/dispatch/store.go:94-369 | Every transaction any caller may ask for, in any sound state and at any clock, keeps the invariant. |
| DispatchInvariant.RunKeeps | services/api/internal/dispatch/store.go:94-369 | So does every interleaving of them. |
| DispatchSafety.ReachableIsSound | services/api/internal/dispatch/store.go:88-93 | Every state reachable from the empty tables is sound: nothing is claimed twice and offers and holds pair up. |
| DispatchSafety.OffersAndHoldsMatch | services/api/internal/dispatch/store.go:94-152 | OFFERED assignments and RESERVED reservations match one to one on job, driver and expiry. |
| DispatchSafety.OffersOnlyClose | services/api/internal/dispatch/store.go:281-369 | An answered, withdrawn or expired offer is never written again; an open one keeps its job, driver and deadline. |
| DispatchSafety.StepMovesJobs | services/api/internal/jobs/store.go:204-246 | One transaction moves a job by an edge, or from SEARCHING through ASSIGNED to ACCEPTED, never out of a terminal state, never to another driver, and only appends to its history. |
| DispatchSafety.JobsFollowTheirMachine | services/api/internal/jobs/jobs.go:76-95 | Over any run a job's status is a walk of the machine, a terminal job is never written again, and a driver once set stays. |
| DispatchSafety.OneAcceptanceWins | services/api/internal/dispatch/store.go:167-264 | After one acceptance of a job wins, every later one is refused, whoever asks and whatever happened between. |
| DispatchSafety.HeldJobsHaveOneAnswer | services/api/internal/dispatch/store.go:167-264 | A job in ACCEPTED through COMPLETED has exactly one accepted offer and no other live one, and it is its own driver's. |
| DispatchSafety.DeclineBetweenStrands | services/api/internal/dispatch/engine.go:251-261 | The two transactions of a dispatch are not one: from every state where the reservation succeeds, a decline landing between them leaves an ASSIGNED job nobody holds. |
| DispatchSafety.AssignedIsHeldExactlyWhileOffered | services/api/internal/dispatch/engine.go:251-261 | What the second transaction leaves is told by the offers alone: the job is held if and only if an offer of it is unanswered as it commits. |
| DispatchGap.AssignedIsHeldExactlyWhenAnOfferStands | services/api/internal/dispatch/engine.go:251-261 | For any transactions between a reservation and its move to ASSIGNED: the job is held if and only if an offer stands, the dispatch's own if neither its release nor a sweep at or past its deadline committed in between, or one another runner made after that and nothing has closed; and that offer's row holds it. |
| DispatchGap.AssignedIsHeldExactlyWhenNothingCloses | services/api/internal/dispatch/engine.go:251-261 | When no other runner reserves the job in between, it is held if and only if the transactions in between hold no release of that driver from it and no sweep at or past the deadline. |
| DispatchGap.AcceptInTheGapMakesItStale | services/api/internal/dispatch/engine.go:251-261 | An acceptance in between, by whichever driver and whatever follows it, makes the move to ASSIGNED stale. |
| DispatchGap.ReservedAgainIsHeld | services/api/internal/dispatch/engine.go:251-261 | A decline in between does not alone decide: from every state where the reservation succeeds, another runner reserving the job for another free driver leaves it held. |
| DispatchDrivers.OnePerDriverExactlyWhileNoTakenDriverIsReserved | services/api/internal/jobs/store.go:547-552 | The promise that a driver holds at most one offer or job holds at every moment of a run if and only if no reservation in it takes a driver who has an accepted offer: no index on assignments is per driver. |
| DispatchDrivers.OneDriverMayHoldTwoJobs | services/api/internal/jobs/store.go:547-552 | It fails from every sound state where two jobs could each be offered to one eligible driver: both reservations and both acceptances succeed, and the driver holds two ACCEPTED jobs. |
| DispatchSweep.SweepClearsOverdue | services/api/internal/dispatch/store.go:330-369 | After a sweep nothing overdue is OFFERED or RESERVED. |
| DispatchSweep.SweepReportsWhatItTook | services/api/internal/dispatch/store.go:330-369 | The number it returns is the number of live offers that went. |
| DispatchSweep.SweepTwiceIsSweepOnce | services/api/internal/dispatch/store.go:330-369 | A second sweep at the same cutoff changes nothing, timestamps included. |
| DispatchSweep.NoJobIsStranded | services/api/internal/dispatch/store.go:330-369 | After a sweep of any sound state, every REQUESTED, SEARCHING or ASSIGNED job is listed for the next round once due, or waits on an unexpired offer with its hold. |
| DispatchSweep.LateSweepListsEveryJob | services/api/internal/jobs/store.go:581-614 | Once all offers are overdue, one sweep lists every due job that was looking for a driver, ASSIGNED ones stranded mid-dispatch included. |
| DispatchSweep.SweepLeavesTheRest | services/api/internal/dispatch/store.go:330-369 | Offers still in time, held and finished jobs, and drivers not marked OFFERED are untouched. |
| DispatchSweep.SweepFreesDrivers | services/api/internal/dispatch/store.go:330-369 | After a sweep a driver is held if and only if an unexpired offer to them stands. |
| DispatchSearch.RingsWiden | services/api/internal/dispatch/engine.go:143-153 | With sorted rings a later attempt never looks closer in, and every attempt past the last ring uses the last. |
| DispatchSearch.AttemptsAreBounded | services/api/internal/dispatch/store.go:55-86 | However many runners race, a job has at most the configured number of attempts, numbered 1, 2, ... without gap or repeat. |
| DispatchSearch.TurnIsARun | services/api/internal/dispatch/runner.go:60-92 | One turn of the runner is a run of the separate transactions it makes, so every theorem about runs covers it. |
| DispatchSearch.BestFreeDriverIsOffered | services/api/internal/dispatch/engine.go:240-288 | The offer goes to the first driver on the scored list who is not held; everyone ahead of them is; if all are, nothing is reserved. |
| DispatchSearch.TurnProgresses | services/api/internal/dispatch/runner.go:60-92 | A turn on a searching job ends its search or uses exactly one attempt; with none left it ends it. |
| DispatchSearch.ExhaustedTouchesNothing | services/api/internal/dispatch/engine.go:143-153 | Reporting that every ring was tried writes nothing. |
| DispatchTermination.SearchEnds | services/api/internal/dispatch/runner.go:60-92 | Whatever happens between turns, a job still searching at one turn more than it has attempts left is EXPIRED by the last of them. |
| DispatchTermination.NewSearchEnds | services/api/internal/dispatch/runner.go:60-92 | From the empty tables at most maxAttempts + 1 turns end a search. |
| DispatchRound.DispatchLeavesOthers | services/api/internal/dispatch/runner.go:165-212 | A dispatch of one job changes nothing another job's turn depends on. |
| DispatchRound.RoundServesEveryJob | services/api/internal/dispatch/runner.go:165-212 | One round gives every listed job its turn: each job it drives has its search ended or one more attempt, none starved by another. |
| DispatchRound.OffersMadeAreHeld | services/api/internal/dispatch/runner.go:136-147 | The offers a round counts are exactly the listed jobs it leaves held that were not held before it. |
| DispatchAnswers.TurnEndsExactlyWhenOver | services/api/internal/dispatch/runner.go:60-92 | A turn on a searching job expires it, using no attempt, if and only if it has been searching for the deadline or has had all its attempts. Otherwise it stays searching or is ASSIGNED to whoever was offered, with exactly one attempt more, numbered next, at the ring of its number, and an offer that lasts its time to live. |
| DispatchAnswers.AcceptTakenExactlyWhen | services/api/internal/dispatch/store.go:167-264 | An acceptance is taken if and only if the driver has an unexpired offer of the job, is approved, not suspended, blocked or offline, drives a verified vehicle, and the job is SEARCHING or ASSIGNED. |
| DispatchAnswers.AcceptanceLeaves | services/api/internal/dispatch/store.go:167-264 | It marks that one offer ACCEPTED and its hold CONSUMED, gives the job to the driver and their vehicle with one history row, shows an available or offered driver as ACCEPTED, and writes nothing else. |
| DispatchAnswers.MoveWritesOneRow | services/api/internal/jobs/store.go:204-246 | A move is made if and only if the machine has the edge and the job stands at its start; it writes one history row and, the first time the job ends, when. |
| DispatchAnswers.EndingASearchIsAMove | services/api/internal/jobs/store.go:483-516 | Expiring a search is the move from SEARCHING to EXPIRED and touches only searching jobs. |
| DispatchAnswers.ReleaseClosesOne | services/api/internal/dispatch/store.go:281-324 | Declining leaves the one offer REJECTED and its hold RELEASED; timing out leaves both EXPIRED; every other row stays. |
| DispatchAnswers.ReleaseReopens | services/api/internal/dispatch/store.go:281-324 | Either way an open job is SEARCHING again from that moment and listed as soon as it is due, and a driver shown as OFFERED is AVAILABLE; nobody else is touched. |
| DispatchAnswers.SweepFreesShownDrivers | services/api/internal/dispatch/store.go:330-369 | A sweep shows a driver marked OFFERED as AVAILABLE if and only if no unexpired offer of theirs stands, and writes nothing else about drivers. |
| DispatchAnswers.ListedExactlyWhenDueAndFree | services/api/internal/jobs/store.go:581-614 | A job is listed if and only if its scheduled time has come or there is none, and it is REQUESTED, or SEARCHING with no offered or accepted row of its own. |
| DispatchStore.Store.Reserve | services/api/internal/dispatch/store.go:94-152 | The loops and inserts of the transaction answer and write exactly what the reserve step does; an error leaves every table as it was. |
| DispatchStore.Store.Accept | services/api/internal/dispatch/store.go:167-264 | All four tables move together or none does. |
| DispatchStore.Store.Release | services/api/internal/dispatch/store.go:281-324 | Both releases, with the states each writes. |
| DispatchStore.Store.Reject | services/api/internal/dispatch/store.go:281-300 | A rejection leaves that offer REJECTED and its hold RELEASED. |
| DispatchStore.Store.ExpireOffer | services/api/internal/dispatch/store.go:301-324 | A timeout leaves that offer and its hold EXPIRED. |
| DispatchStore.Store.SweepExpired | services/api/internal/dispatch/store.go:330-369 | The sweep in place, with its count. |
| DispatchStore.Store.RecordAttempt | services/api/internal/dispatch/store.go:55-86 | An attempt row, refused when its number is taken. |
| DispatchStore.Store.Transition | services/api/internal/jobs/store.go:204-246 | Compare-and-set on status with its history row. |
| DispatchStore.Store.ExpireSearch | services/api/internal/jobs/store.go:483-516 | Compare-and-set on SEARCHING: a driver who accepted first wins. |
| DispatchStore.Store.LiveAssignment | services/api/internal/jobs/store.go:448-459 | Finds the live assignment if and only if there is one; in a sound state it is the only one. |
| DispatchStore.Store.NeedingDispatch | services/api/internal/jobs/store.go:581-614 | Lists distinct waiting jobs, oldest created first: those left out by the limit are no older than those listed, and none is left out below it. |
| DispatchStore.Store.SearchingSince | services/api/internal/jobs/store.go:523-545 | Lists distinct stale searches, longest unmoved first: those left out by the limit moved no earlier, and none is left out below it. |
| DispatchStore.Runner.Dispatch | services/api/internal/dispatch/engine.go:126-288 | The reserve loop and its two transactions compute exactly the dispatch step. |
| DispatchStore.Runner.Attempt | services/api/internal/dispatch/runner.go:60-92 | One turn: it expires the search if and only if the deadline has passed or no attempt is left, and otherwise makes exactly one attempt. |
| DispatchStore.Runner.Round | services/api/internal/dispatch/runner.go:165-212 | Sweep first, then start and attempt each listed job, oldest first. It reports as started the listed jobs that were REQUESTED and as offered the jobs it leaves held that were not. |
| DispatchStore.Runner.Sweep | services/api/internal/dispatch/runner.go:99-121 | Ends searches past the deadline and touches nothing else; below the limit every search left is short of it; the number it returns is the number of searches it ended. |
| DispatchStore.Booking.Execute | services/api/internal/booking/booking.go:706-771 | A driver's command succeeds if and only if they hold the job and it is on the flow between ACCEPTED and the target; then it ends AT_PICKUP, IN_PROGRESS or COMPLETED, every state on the way is recorded and only that row changes. |
| DispatchStore.CommandsAreTakenIn | services/api/internal/booking/booking.go:684-699 | Arriving is taken from ACCEPTED to AT_PICKUP, starting from ACCEPTED to IN_PROGRESS, completing from ACCEPTED to COMPLETED, and nowhere else. |
| DispatchStore.CommandsRecord | services/api/internal/booking/booking.go:706-771 | The rows each command records, from each status it is taken in. |
| Scoring.Score | services/api/internal/dispatch/scoring.go:99-207 | Returns each candidate scored once, ranked by score then driver identifier; the rows below say what a score is. |
| Scoring.ArrivalWeighs | services/api/internal/dispatch/scoring.go:127-184 | Of two candidates who differ in arrival alone the sooner leads by the arrival weight times the difference over the slowest arrival, in units of the total weight. |
| Scoring.DistanceWeighs | services/api/internal/dispatch/scoring.go:139-184 | In distance alone: the nearer leads by the distance weight times the difference over the farthest. |
| Scoring.IdlenessWeighs | services/api/internal/dispatch/scoring.go:167-184 | In idleness alone: the longer idle leads by the idle weight times the difference over the longest. |
| Scoring.ReliabilityWeighs | services/api/internal/dispatch/scoring.go:145-184 | In completion and cancellation rates alone: the clamped difference of the two rates counts by the reliability weight. |
| Scoring.AcceptanceWeighs | services/api/internal/dispatch/scoring.go:160-184 | In acceptance rate alone: the clamped rate counts by the acceptance weight. |
| Scoring.CapabilityWeighs | services/api/internal/dispatch/scoring.go:173-184 | An exact vehicle match leads by half the capability weight. |
| Scoring.UnknownsScoreAs | services/api/internal/dispatch/scoring.go:127-163 | An unknown arrival scores as the slowest, no history as one half, a missing completion rate as one and a missing cancellation rate as none. |
| Scoring.RatesAreClamped | services/api/internal/dispatch/scoring.go:145-163 | A rate counts as it is between nothing and one, and beyond that as the nearer end. |
| Scoring.BestScoresOne | services/api/internal/dispatch/scoring.go:179-184 | The best possible on every signal scores exactly one under any weights that do not come to nothing. |
| Scoring.Normalise | services/api/internal/dispatch/scoring.go:104-118 | The three running maxima are the largest readings, never below one. |
| Scoring.ScoreIsWithinUnit | services/api/internal/dispatch/scoring.go:120-191 | With non-negative weights and signals every score lies in [0, 1], all-zero weights included. |
| Scoring.BetterNeverScoresLower | services/api/internal/dispatch/scoring.go:127-191 | A candidate at least as good on every signal never scores lower. |
| Scoring.RankingIsUnique | services/api/internal/dispatch/scoring.go:195-206 | Any algorithm that sorts distinct drivers by this order returns the same list. |
| Scoring.RankingIgnoresInputOrder | services/api/internal/dispatch/scoring.go:195-206 | The same candidates in any order give the same list, element for element. |
| OrderMachine.HistoriesSkipNothing | services/api/internal/merchant/merchant.go:50-64 | A connected chain of order transitions from the cart passes every stage that comes before where it stands. |
| OrderMachine.DeliveredTellsItsStory | services/api/internal/merchant/merchant.go:50-64 | A delivered order's chain holds PREPARING, READY_FOR_PICKUP, PICKED_UP and DELIVERING. |
| OrderMachine.CancellableIsUnpicked | services/api/internal/merchant/merchant.go:71-86 | An order somebody may still call off has never been picked. |
| GroceryStock.ReservingNeedsOwnShelves | services/api/internal/merchant/store.go:883-912 | The row-counting reservation succeeds if and only if no two lines share a shelf and every line's shelf exists, is available and is untracked or holds its quantity beside what is reserved. |
| GroceryStock.SettleIsExact | services/api/internal/merchant/store.go:933-980 | Releasing or consuming changes a shelf by exactly what the order held: the clamps at zero never bite, and consuming leaves quantity minus reserved as it was. |
| GroceryStock.StepKeepsStock | services/api/internal/merchant/store.go:213-290 | Every step keeps: a shelf's reserved count is the summed quantities of its reserving orders and never exceeds what it holds. |
| GroceryStock.RunKeepsStock | services/api/internal/merchant/store.go:883-980 | So does every run. |
| GroceryStock.GoodsAreConserved | services/api/internal/merchant/store.go:933-980 | Between stock takes, what is on the shelf plus what orders consumed from it is constant over every run. |
| GroceryStock.NothingIsOversold | services/api/internal/merchant/store.go:883-912 | Consumed plus promised quantities never exceed the goods there were. |
| GroceryStock.SettledStaysSettled | services/api/internal/merchant/store.go:933-980 | An order's stock is settled at most once. |
| GroceryTotal.EveryTotalIsExplained | services/api/internal/merchant/store.go:172-203 | In every reachable order the total is the surviving lines at original prices plus the difference of each one's latest settled substitution; pending issues contribute nothing. |
| GroceryTotal.OrderedLinesNeverChange | services/api/internal/merchant/store.go:113-170 | Product, price, quantity and preference of a line never change over any run. |
| GroceryTotal.AcceptanceNeverReprices | services/api/internal/merchant/service.go:538-622 | Accepting a proposal on an ASK_ME line never charges the proposed price. The total moves by nothing when the line still stands and by its own price times quantity when it was taken off meanwhile: so it is unmoved if and only if the line stands or costs nothing. |
| GroceryTotal.ProposedPriceIsPaidExactlyWhenUnchanged | services/api/internal/merchant/customer.go:157-160 | The customer pays the substitute's actual price after accepting it if and only if the line already cost that. |
| GroceryTotal.LateYesRestoresTheLine | services/api/internal/merchant/store.go:571-604 | The race between a question and a removal of the same line: from every state where the shop may ask and then remove, a yes given after both puts the line back at its full price and the total where it was before either. |
| GroceryTotal.LateDecisionMovesTheTotalExactlyWhen | services/api/internal/merchant/store.go:575-613 | A decision is taken in any state of the order, DELIVERED included, and moves its total if and only if it takes off a line that is charged for or puts back one that costs something. |
| GroceryTotal.OnlyProblemsMoveTheTotal | services/api/internal/merchant/store.go:172-203 | Once placed, an order's total moves by a reported problem or a decision on that order and nothing else. |
| GroceryTotal.SubstituteIsChargedExactlyWhenAllowed | services/api/internal/merchant/merchant.go:342-361 | A substitute's price is charged if and only if the line allows substitutions and a substitute was proposed. |
| GroceryTotal.DecliningDropsTheLine | services/api/internal/merchant/store.go:575-613 | Declining takes exactly the line's current charge off the total. |
| GroceryAnswers.AddingChargesTheLine | services/api/internal/merchant/store.go:113-170 | A line is added if and only if the order is a cart and the quantity lies between 1 and 100, and it adds its price times quantity to the total. |
| GroceryAnswers.ReportComesTo | services/api/internal/merchant/merchant.go:113-133 | What each report does: a removal, or a substitute on a DO_NOT_ALLOW line, takes the line's charge off the total; a substitute on an ALLOW line replaces it by the substitute's price; a question, or a substitute on an ASK_ME line, leaves lines and total and waits. |
| GroceryAnswers.PlacedOrderWaits | services/api/internal/merchant/store.go:213-290 | A cart is placed if and only if it has lines, a valid destination, a window and shelves that can hold it; its deadline is one acceptance window after that moment. |
| GroceryAnswers.LapsesExactlyWhenOverdue | services/api/internal/merchant/store.go:712-765 | An order lapses if and only if it is still PLACED and its deadline has come. |
| GroceryAnswers.DecisionIsRecorded | services/api/internal/merchant/store.go:575-613 | A decision is taken once, while its question is pending: the answer is recorded, yes marks the line SUBSTITUTED and no REMOVED, and any further one is refused. |
| GroceryAnswers.EveryoneHasOneCart | services/api/internal/merchant/store.go:94-106 | Over any run no customer has two open carts at one shop. |
| GroceryAnswers.NewsMovesExactly | services/api/internal/merchant/service.go:440-507 | Which single moves of an order each piece of delivery news may ask for. |
| GroceryAnswers.CountRefusedExactlyWhenOversold | services/api/migrations/000009_merchant_grocery.up.sql:112-122 | A stock take is refused exactly when it counts fewer than are promised; otherwise it keeps the promises. |
| GroceryLifecycle.RunKeepsLife | services/api/internal/merchant/store.go:293-332 | Over any run order histories stay connected chains ending at the stored status, and links, news and stock agree with them. |
| GroceryLifecycle.DeliveredOrdersWereDelivered | services/api/internal/merchant/service.go:434-507 | An order is DELIVERED only if its own delivery job is COMPLETED, or DISPUTED since, and its history records every stage. |
| GroceryLifecycle.DeliveriesBelongToOneOrder | services/api/internal/merchant/store.go:857-868 | No two orders share a delivery. |
| GroceryLifecycle.OrdersOnlyAdvance | services/api/internal/merchant/store.go:293-332 | Histories only grow, a job link never changes once set, and a finished order never moves. |
| GroceryLifecycle.StockFollowsTheOrder | services/api/internal/merchant/store.go:920-980 | Stock is given back only for orders called off before packing and handed over only for orders that were packed. |
| GroceryLifecycle.AbandonedStockIsHeldUntilReleased | services/api/internal/sweeper/sweeper.go:68-87 | An order cancelled by a sweep that died before releasing its stock holds it through any run, later sweeps included, if and only if nobody asks for that very release. |
| GroceryStore.Store.OpenCart | services/api/internal/merchant/store.go:94-106 | Returns the one open cart of a customer at a store. |
| GroceryStore.Store.AddItem | services/api/internal/merchant/store.go:113-170 | A priced line and the recomputed total, on a cart only. |
| GroceryStore.Store.Place | services/api/internal/merchant/store.go:213-290 | Reserve, compare the affected row count, then move: all undone when the shelves cannot hold every line. |
| GroceryStore.Store.Transition | services/api/internal/merchant/store.go:293-332 | Compare-and-set with its history row. |
| GroceryStore.Store.SettleOrderStock | services/api/internal/merchant/store.go:933-980 | Guarded on the stock state, so a repeat does nothing. |
| GroceryStore.Store.CallOff | services/api/internal/merchant/service.go:207-226 | Allowed exactly from PLACED, PAYMENT_PENDING and CONFIRMED, and for the customer from the cart too; then cancelled with its stock given back. |
| GroceryStore.Store.ExpireOverdue | services/api/internal/merchant/store.go:712-765 | Cancels PLACED orders whose deadline has come, earliest first up to the limit, and nothing else; below the limit none is left. |
| GroceryStore.Store.SweepOverdue | services/api/internal/sweeper/sweeper.go:68-87 | Afterwards the shelves are those of releasing each expired order in turn, no expired order holds stock, and no other order changed. |
| GroceryStore.Store.ReportIssue | services/api/internal/merchant/service.go:538-622 | Only while picking; the line, the issue and the total as the standing preference decides. |
| GroceryStore.Store.DecideIssue | services/api/internal/merchant/store.go:575-613 | A pending issue is settled once, and the total recomputed. |
| GroceryStore.Store.MarkReady | services/api/internal/merchant/service.go:263-356 | Asking again answers the same delivery; a packed order never linked is made good. |
| GroceryStore.HandingOverLeaves | services/api/internal/merchant/service.go:263-356 | Packing an order hands its stock over, makes one REQUESTED delivery for it and links the two. |
| GroceryStore.Store.FollowDelivery | services/api/internal/merchant/service.go:470-507 | COMPLETED delivers an order found at READY_FOR_PICKUP, PICKED_UP or DELIVERING; IN_PROGRESS and AT_DROPOFF put one not yet DELIVERING there; CANCELLED, EXPIRED and FAILED fail one the machine lets fail; any other news, and news already acted on, changes nothing. Every state between is recorded. |
| Money.RoundsHalfAway | services/api/pkg/money/money.go:295-307 | The rounding is the only whole number nearest the quotient with exact halves taken away from zero. |
| Money.RoundingIsMonotone | services/api/pkg/money/money.go:295-307 | A larger amount never rounds to less. |
| Money.RateTakesAPart | services/api/pkg/money/money.go:159-170 | A rate of 0 to 10000 basis points of a non-negative amount is never refused and lies between nothing and the amount. |
| Money.RateIsNearest | services/api/pkg/money/money.go:159-170 | A rate answers the whole number nearest to the exact share, halves away from zero, whatever the signs; it is refused only for a zero denominator or out of the safe range. |
| Money.RangeIsTheSafeOne | services/api/pkg/money/money.go:64-72 | An amount is refused exactly when it lies beyond 2^53 - 1 either way. |
| Ledger.Balance | services/api/internal/finance/ledger.go:126-145 | The loop answers too few entries, a zero entry or a non-zero 64-bit sum, in that order. |
| Ledger.CheckIsExactExactlyUpTo2048 | services/api/internal/finance/ledger.go:126-145 | The 64-bit check before a write agrees with balancing on all movements of n entries if and only if n <= 2048; at every greater length it passes a list of debits summing to 2^64, so the sum after the write is not redundant. |
| Ledger.NamedMovementsBalance | services/api/internal/finance/ledger.go:156-319 | Each named two-sided movement is built if and only if its amount is not zero, and balances. |
| Ledger.NamedMovementsMove | services/api/internal/finance/ledger.go:156-319 | Which two accounts each named movement moves, and which way; no other account is moved. |
| Ledger.SaleSplitsTheGoods | services/api/internal/finance/ledger.go:223-252 | A sale is built exactly when something is left for the shop, and splits the goods between what it is owed and what is kept. |
| Ledger.EarningSplitsTheGross | services/api/internal/finance/ledger.go:181-210 | An earning is built exactly when something is left for the driver, and splits the gross into what the driver is owed and what the platform keeps. |
| Ledger.CommissionStaysWithinTheFare | services/api/internal/finance/ledger.go:367-385 | Commission lies between nothing and the fare, and is refused exactly when percentage plus flat leaves the safe range. |
| Ledger.CommissionIsTheNearestShare | services/api/internal/finance/ledger.go:367-385 | The commission is the rate's share of the fare to the nearest unit plus the flat part, or the whole fare when that is more, and no other amount. |
| Ledger.CommissionIsMonotone | services/api/internal/finance/ledger.go:367-385 | A larger fare never pays a smaller commission. |
| Ledger.FareIsSplit | services/api/internal/finance/ledger.go:181-210 | The earning on a fare can be recorded if and only if its commission is not the whole fare. |
| Ledger.BuildReversal | services/api/internal/finance/ledger.go:326-348 | The loop negates every entry and names the original, and refuses an unsaved one. |
| Ledger.ReversingTwiceRestores | services/api/internal/finance/ledger.go:326-348 | A stored balanced movement can always be reversed, and reversing the reversal gives the original entries back. |
| BooksInvariant.StepKeeps | services/api/internal/finance/store.go:31-425 | Every operation keeps rows balanced and keys unique, and intents in agreement with the ledger; rows are only appended. |
| BooksInvariant.RunKeeps | services/api/internal/finance/store.go:31-425 | So does every run. |
| BooksSafety.BooksAlwaysBalance | services/api/internal/finance/store.go:176-183 | In every run the ledger sums to zero overall and in each transaction, and earlier rows never change. |
| BooksSafety.KeyPostsOnce | services/api/internal/finance/store.go:52-58 | Posting again under a used key, in any later state and whatever it asks for, answers the original row and changes nothing. |
| BooksSafety.PostTakenExactlyWhen | services/api/internal/finance/store.go:31-106 | A movement is posted if and only if its entries pass the check and its key was used or all it names exists and its entries sum to nothing; then it is one new row, unless the key was used. |
| BooksSafety.ReversalUndoesExactly | services/api/internal/finance/ledger.go:326-348 | Posting a reversal at any later time leaves every balance what it would be had the original never been posted. |
| BooksSafety.PaymentsAgreeWithTheLedger | services/api/internal/finance/store.go:311-386 | In every run: at most one capture per intent, 0 <= refunded <= captured <= amount, REFUNDED exactly when all captured went back, and an intent's own captures and refunds leave captured minus refunded receivable. |
| BooksSafety.CaptureHappensOnce | services/api/internal/finance/store.go:311-343 | After a capture every later one is refused, whatever ran between. |
| BooksSafety.CaptureTakenExactlyWhenOpen | services/api/internal/finance/store.go:311-343 | A capture is taken if and only if nothing was captured yet and the amount is positive and within the intent. |
| BooksSafety.RefundTakenExactlyWhenLeft | services/api/internal/finance/store.go:349-386 | A positive refund is taken if and only if that much is left. |
| BooksSafety.NobodyPaysTwiceAtOnce | services/api/migrations/000010_payments_ledger.up.sql:47-54 | Over any run no job and no order has two intents unpaid or captured beside each other. |
| BooksSafety.IntentOpenedExactlyWhen | services/api/internal/finance/store.go:249-281 | Malformed exactly when for nothing or not for one job or one order; a used key answers its intent; otherwise opened if and only if the job or order has none unpaid or captured. |
| BooksSafety.HandbackReplayMovesTwice | services/api/internal/finance/credit.go:283-299 | Recording a settlement twice under one key keeps one settlement row but moves the driver's balance twice; harmless exactly when it was refused. |
| BooksSafety.HandbackAccountedExactlyWhenKeyIsFresh | services/api/internal/finance/credit.go:241-246 | A remittance has a settlement row to account for it if and only if its key was not used before. |
| BooksStore.Store.Post | services/api/internal/finance/store.go:31-106 | Insert, entry loop, exact re-sum and commit answer and write what the posting step does. |
| BooksStore.Store.TransactionByKey | services/api/internal/finance/store.go:108-122 | Reads the row back without its order, what it reverses, or its key. |
| BooksStore.Store.PostWithin | services/api/internal/finance/store.go:391-425 | The row keeps kind, job and intent only, and is not summed again. |
| BooksStore.Store.BalanceOf | services/api/internal/finance/store.go:158-170 | The balance is the sum of the entries asked about, refused when outside the safe range. |
| BooksStore.Store.LedgerBalances | services/api/internal/finance/store.go:176-183 | Whether the whole ledger sums to zero, and to what. |
| BooksStore.Store.CreateIntent | services/api/internal/finance/store.go:249-281 | One intent per customer and key and one live intent per job or order; a clash answers the keyed row or an error. |
| BooksStore.Store.Capture | services/api/internal/finance/store.go:311-343 | The status change and its movement commit together or not at all. |
| BooksStore.Store.Refund | services/api/internal/finance/store.go:349-386 | The bound is in the update itself; status and movement commit together. |
| BooksStore.Store.RecordSettlement | services/api/internal/finance/credit.go:247-299 | Posts the remittance always and the settlement row once per key. |
| Credit.WarningStaysBelowTheCap | services/api/internal/finance/credit.go:117-130 | However the 64-bit product wraps, any positive override gets a warning above zero and at most the cap. |
| Credit.ProportionKeptExactlyWhenItFits | services/api/internal/finance/credit.go:121-129 | The proportion is kept if and only if override times warning fits 64 bits, or the warning is the cap itself and the wrapped product is below it. |
| Credit.EveryLimitWarnsFirst | services/api/internal/finance/credit.go:101-139 | Every limit returned has 0 < warn <= cap; an error means no row for the vehicle or an override beyond the safe range. |
| Credit.StandingTells | services/api/internal/finance/credit.go:145-183 | Owed is the driver's cash, never below nothing; blocked from the cap and warned from the warning on; the limit is the newest row's or the driver's own positive cap with its scaled warning. |
| Credit.HandingBackMovesTheStanding | services/api/internal/finance/credit.go:145-183 | After any hand-back the debt is what is left, clamped at zero, and the driver is blocked if and only if that is still at the cap. |
| Credit.HandingBackIsOnesOwn | services/api/internal/finance/credit.go:73-93 | It moves nobody else's debt. |
| Credit.ClearingClearsExactlyWhenWarnIsBelowCap | services/api/internal/finance/credit.go:165-181 | A blocked driver handing back exactly what is asked owes exactly the warning, and is unblocked if and only if warn < cap; nothing is asked for exactly when debt, warn and cap coincide. |
| Credit.Caps.SetCreditLimit | services/api/internal/finance/credit.go:186-204 | Refused exactly when not 0 < warn <= cap; otherwise one row per vehicle type and version. |
| Credit.UpsertReplaces | services/api/internal/finance/credit.go:186-204 | Setting a limit replaces the row of its vehicle type and version or adds one, and leaves the others. |
| Credit.Caps.FindLimit | services/api/internal/finance/credit.go:101-139 | The newest version, or the driver's override with its scaled warning. |
| Credit.Caps.FindStanding | services/api/internal/finance/credit.go:145-183 | Owed, limits, blocked, warning and what would clear it; unlimited when no limit is set. |
| Credit.Latest | services/api/internal/finance/credit.go:104-109 | The row with the highest version for the vehicle type, and none only when there is none. |
| Settlement.RetryFinishesWhatWasStarted | services/api/internal/settlement/settlement.go:160-218 | A settlement cut off after any number of committed moves and tried again with the same bill makes just the missing ones, whatever ran between; with nothing between, the ledger ends as an uninterrupted one would leave it. |
| Settlement.SettledIsSettled | services/api/internal/settlement/settlement.go:151-156 | A completion repeated with the same bill moves no money, whatever ran since, refunds of the fare included. |
| Settlement.FreshJobSettlesExactlyWhenPayable | services/api/internal/settlement/settlement.go:190-218 | A fresh settlement succeeds if and only if the commission leaves some of the fare; either way the cash is collected and the shop credited. |
| Settlement.UnpayableNeverSettles | services/api/internal/settlement/settlement.go:325-358 | When the rate takes the whole fare the job never settles, in any state and however often it is tried. |
| Settlement.SettlementComesTo | services/api/internal/settlement/settlement.go:140-150 | Every party's account moves by exactly its part and no other account moves. |
| Settlement.EveryoneGetsTheirPart | services/api/internal/settlement/settlement.go:140-150 | Customer nets to nothing, driver holds all that was paid, shop is owed its goods in full, driver the fare less commission, platform the commission. |
| SettlementRetry.AnotherBillMakesWhatIsMissing | services/api/internal/settlement/settlement.go:160-218 | Each attempt reads basket, fare and rate anew. Retried with another bill, after any run, it makes just the moves of the new bill that no earlier move stands for; when the new rate leaves the driver nothing it ends in an error. |
| SettlementRetry.RepeatMovesMoneyExactlyWhen | services/api/internal/settlement/settlement.go:151-156 | A settled job completed again with any bill, after any run, moves money if and only if the bill has goods or a payable fare whose keyed movement was never posted; what the first bill posted is never posted again. |
| SettlementChange.TwoBillsWriteBothParts | services/api/internal/settlement/settlement.go:160-218 | A fresh job stopped after k moves and retried with another bill ends with the first k moves at the old amounts and the rest at the new ones. |
| SettlementChange.SameLedgerExactlyWhenBillsAgree | services/api/internal/settlement/settlement.go:160-218 | That is a success leaving the entries the first bill would have left if and only if the new rate leaves the driver something and the bills agree on what was not yet moved: the total until the collection is recorded, goods and shop until it is credited, fare and commission until the driver is. |
| SettlementChange.CustomerOwesExactlyTheDifference | services/api/internal/settlement/settlement.go:140-150 | The customer's account nets to nothing if and only if the attempt did not stop between capture and collection or the totals are the same; stopped there, it is left at exactly their difference. |
| SettlementChange.ChangedOrderLeavesADebt | services/api/internal/settlement/settlement.go:266-296 | The failing retry, from every fresh job: captured at one total and collected at another, the customer's account is off by the difference and a further completion with that bill finds the job settled. |
| SettlementChange.OutgrownIntentIsRefused | services/api/internal/settlement/settlement.go:266-285 | A total that grew while only the intent was open is refused at the capture and nothing is written. |
| SettlementChange.LateBasketIsPaidUncollected | services/api/internal/settlement/settlement.go:198-203 | A job settled without goods and completed again with some credits the shop and collects nothing for it. |
| SettlementChange.CashIntentNetsToNothing | services/api/internal/settlement/settlement.go:140-150 | After a fresh settlement all rows that name its cash intent, the collection among them, leave the customer owing nothing. |
| SettlementStore.Service.CollectCash | services/api/internal/settlement/settlement.go:266-296 | Intent, capture and collection in order; an intent already captured is an earlier attempt. |
| SettlementStore.Service.PayMerchant | services/api/internal/settlement/settlement.go:304-318 | The shop is credited its goods in full, once per job. |
| SettlementStore.Service.PayDriverNet | services/api/internal/settlement/settlement.go:325-358 | The driver's earning on the fare net of the nearest-share commission, once per job. |
| SettlementStore.Service.SettleCash | services/api/internal/settlement/settlement.go:160-218 | Guards, then the moves in order; a failure answers its error and leaves what was committed before it. |
| SessionInvariant.StepKeeps | services/api/internal/identity/service.go:322-432 | Every step of every interleaving of refreshes, logins and logouts keeps tokens placed, exchanges recorded and requests in flight consistent with them. |
| SessionInvariant.RunKeeps | services/api/internal/identity/service.go:322-432 | So does every run; sessions keep their users and revocation is final. |
| SessionSafety.EveryTokenHasOnePlace | services/api/internal/identity/store.go:273-305 | Every token ever issued is the current token of exactly one session or retired, never both, and retired exactly when exchanged. |
| SessionSafety.TokenIsExchangedOnce | services/api/internal/identity/store.go:267-272 | Of all requests carrying one token at most one is granted a new one. |
| SessionSafety.RevokedIsForEver | services/api/internal/identity/store.go:325-345 | A revoked session is never rotated and never revived. |
| SessionSafety.ReplayEndsEverySession | services/api/internal/identity/service.go:406-432 | A request presenting a retired token, unless cut off, ends with every session its user had when it arrived revoked for good. |
| SessionSafety.IssuedIsNeverUnknown | services/api/internal/identity/service.go:331-337 | A token ever issued is never mistaken for a made-up one. |
| SessionSafety.SwapLostExactlyWhen | services/api/internal/identity/service.go:364-381 | A swap is lost if and only if the token was exchanged meanwhile or the session was ended meanwhile. |
| SessionSafety.GrantedOnlyIfLiveWhenLookedUp | services/api/internal/identity/service.go:331-346 | Over any run: a request goes on to the swap if and only if, when it looks, its token is current in a session neither revoked nor expired; if that session is revoked or expired it ends inactive for good, and in no other case is it ever granted a token. |
| SessionSafety.SwapRenews | services/api/internal/identity/store.go:273-305 | The swap renews that session for its time to live, puts the new token in the old one's place and touches no other. |
| SessionSafety.LogoutDuringRefreshEndsOtherSessions | services/api/internal/identity/service.go:364-381 | A lost swap is not always reuse: logging out one device while it refreshes ends the user's other sessions though no token was presented twice. |
| SessionSafety.FourMovesFinish | services/api/internal/identity/service.go:322-404 | Four moves of its own finish a refresh, whatever happens between them. |
| SessionStore.UninterruptedRequestIsRefresh | services/api/internal/identity/service.go:322-404 | The interleaved request given the store to itself does exactly what the sequential refresh does. |
| SessionStore.RefreshGrantedExactlyWhenLive | services/api/internal/identity/service.go:331-404 | Granted if and only if the token is current in a session neither revoked nor expired and the account is active; an expired or revoked session's token is refused and changes nothing. |
| SessionStore.RefreshRenews | services/api/internal/identity/service.go:364-404 | The grant leaves the session expiring one time to live later under the new token; on an inactive account it is revoked instead. |
| SessionStore.Store.Refresh | services/api/internal/identity/service.go:322-404 | Granted exactly for the current token of a session neither revoked nor expired on an active account; a retired token ends the user's sessions; anything else changes nothing. |
| SessionStore.Store.CreateSession | services/api/internal/identity/store.go:224-237 | A session on a fresh token. |
| SessionStore.Store.RotateRefreshToken | services/api/internal/identity/store.go:273-305 | Swaps only while the old token is current and the session live, and remembers the old one in the same transaction. |
| SessionStore.Store.RevokeUserSessions | services/api/internal/identity/store.go:337-345 | Revokes every live session of the user and counts them. |
| SessionStore.Store.DetectReuse | services/api/internal/identity/service.go:414-432 | Acts exactly on tokens in the history. |
| Notify.StepKeeps | services/api/internal/notify/store.go:258-352 | Every step keeps attempts and provider calls within three and final rows untouched, with workers overlapping, dying and losing marks. |
| Notify.ProviderIsAskedAtMostThreeTimes | services/api/internal/notify/store.go:258-314 | In every run a row is handed to the provider at most three times and taken at most once, and a queued row has an attempt left. |
| Notify.FinishedAndStrandedNeverChange | services/api/internal/notify/store.go:317-352 | SENT and FAILED rows are never claimed again; nor is a row whose worker is gone. |
| Notify.StrandedExactlyByFailures | services/api/internal/notify/service.go:159-204 | Rows are left SENDING with nobody to finish them exactly by a worker dying while holding them or by a mark that fails. |
| Notify.ErrorFreeRunsStrandNothing | services/api/internal/notify/service.go:159-204 | Error-free runs leave no claim in SENDING that no worker holds. |
| Notify.OldestFirst | services/api/internal/notify/store.go:264-270 | A claim takes claimable rows oldest first and passes over none while there is room. |
| Notify.EnqueueAddsOneRow | services/api/internal/notify/store.go:215-251 | A new notification is queued untried, or kept but never claimable when silenced; a used key adds nothing. |
| Notify.ClaimTakesTheOldest | services/api/internal/notify/store.go:258-314 | A claim takes QUEUED rows with fewer than three attempts, oldest first, counts an attempt on each and changes no other. |
| Notify.HandledRowIsMarked | services/api/internal/notify/service.go:166-201 | How each handled row is marked: a push without a token FAILED unasked, an in-app row SENT, any other by its provider's answer, back to the queue only with attempts left; an unknown device loses its token. |
| Notify.UnmarkedRowIsStranded | services/api/internal/notify/service.go:159-204 | A mark that fails leaves its row SENDING with no holder, and after a success every row the worker still held. |
| Notify.WorkOnlyShrinks | services/api/internal/notify/store.go:258-352 | The weighted attempts left never grow except by enqueueing, and every claim that finds something and every row handled lowers them. |
| NotifyWorker.PassMarksWhatItClaims | services/api/internal/notify/service.go:159-204 | Each row a pass takes ends as the provider's answer says; no other row changes. |
| NotifyWorker.PassHoldsNothingAfter | services/api/internal/notify/service.go:159-204 | An error-free pass leaves none of its claims in SENDING. |
| NotifyWorker.PassesDrainTheQueue | services/api/internal/notify/service.go:139-156 | Enough error-free passes finish every notification, whatever the provider answers in each. |
| NotifyWorker.Store.Enqueue | services/api/internal/notify/store.go:215-251 | A repeated key answers the row it has; otherwise one new row. |
| NotifyWorker.Store.Claim | services/api/internal/notify/store.go:258-314 | The claim loop takes exactly the oldest claimable rows. |
| NotifyWorker.Store.MarkFailed | services/api/internal/notify/store.go:337-352 | Back to the queue while attempts remain, FAILED otherwise. |
| NotifyWorker.Store.SendOne | services/api/internal/notify/service.go:166-201 | One claimed row through every branch of the pass. |
| NotifyWorker.Store.SendPass | services/api/internal/notify/service.go:159-204 | The whole pass and the count it returns. |
| Stream.CutInTwo | packages/api-client/src/stream.ts:148-158 | Draining what arrived so far and later the rest cuts the same frames as draining it all. |
| Stream.ChunksDoNotMatter | packages/api-client/src/stream.ts:79-100 | However a response is split into progress events, the frames delivered are those of one drain of the whole text, in order and without repeats. |
| Stream.CutLeavesNoFrame | packages/api-client/src/stream.ts:148-158 | A drain leaves no complete frame behind. |
| Stream.OtherLinesAreIgnored | packages/api-client/src/stream.ts:160-168 | Comments, blank lines and other fields make no difference wherever they stand in a frame. |
| Stream.FrameReadsBack | services/api/internal/realtime/handler.go:206-218 | What the gateway writes for an event parses back to exactly its payload; a heartbeat parses to nothing. |
| Stream.WireIsCut | services/api/internal/realtime/handler.go:138-168 | Every frame the gateway writes is cut out again and nothing is left over. |
| Stream.DeliveryIsExact | services/api/internal/realtime/handler.go:138-168 | From gateway to app the events arrive exactly, in order, whatever heartbeats stand between and however the bytes are split. |
| Stream.JsonIsWritable | services/api/internal/realtime/handler.go:206-218 | Every JSON text on one line is writable, and trimming what stands before it gives it back whole. |
| StreamReader.Drain | packages/api-client/src/stream.ts:148-158 | The drain loop delivers the events of the frames it cuts and reports where it stopped, from any starting position. |
| StreamReader.ParseFrame | packages/api-client/src/stream.ts:160-176 | The line loop finds the frame's data and decodes it, or nothing. |
| StreamReader.BackoffDoublesToACeiling | packages/api-client/src/stream.ts:117-123 | The n-th wait in a row is the first doubled n times, up to the ceiling. |
| StreamReader.EventStream.ReadyState | packages/api-client/src/stream.ts:84-107 | Progress delivers what is newly complete; acceptance resets the backoff; the end is the signal that one request ended and schedules one reconnection; a closed stream does nothing. |
| StreamReader.EventStream.Failed | packages/api-client/src/stream.ts:108-110 | An error schedules a reconnection whether or not the end was already noticed. |
| StreamReader.RepeatedEndsAddUp | packages/api-client/src/stream.ts:102-123 | Over any sequence of ends heard and reconnections due, what is left to hear the stream by is what there was plus one for every end reported again. |
| StreamReader.OneAttemptExactlyWhileEndsAreHeardOnce | packages/api-client/src/stream.ts:102-123 | After any signals a stream has exactly one request running or due if and only if no request reported its end twice. |
| StreamReader.FailureHeardTwiceForksTheStream | packages/api-client/src/stream.ts:102-110 | In any state one failed request heard by both handlers leaves one more connection than there was, two made for the one that ended. |
| MutationQueue.StepKeeps | packages/mobile/src/mutationQueue.ts:146-235 | Every operation, interleaved at the send as it may be, keeps the queue ordered and every mutation accounted for. |
| MutationQueue.DeliveriesAreInOrder | packages/mobile/src/mutationQueue.ts:162-171 | Deliveries are strictly in enqueue order, so none happens twice. |
| MutationQueue.EveryMutationIsAccountedFor | packages/mobile/src/mutationQueue.ts:183-235 | Every mutation enqueued waits or has exactly one fate, and Delivered is the fate of exactly those delivered. |
| MutationQueue.EnqueueKeepsTheNewest | packages/mobile/src/mutationQueue.ts:146-160 | After an enqueue the queue is within capacity and holds the newest that fit. |
| MutationQueue.BeginDropsExactlyTheTooOld | packages/mobile/src/mutationQueue.ts:186-195 | A flush begins by dropping a mutation if and only if its kind has an age limit and it is older than that. |
| MutationQueue.SendMisplacesExactlyWhenHeadMoved | packages/mobile/src/mutationQueue.ts:198-211 | One success takes an unsent mutation off the queue if and only if the head is no longer the one being sent, and then it takes the head. |
| MutationQueue.HeadStays | packages/mobile/src/mutationQueue.ts:183-227 | The head stays the one being sent through every step except clearing, or enqueueing to a full queue, during the send. |
| MutationQueue.HeadIsSentExactlyWhileUndisturbed | packages/mobile/src/mutationQueue.ts:198-211 | Over any steps other callers take during one awaited send: the mutation being sent heads the queue when its answer arrives if and only if nobody cleared the queue, or enqueued to it while full, since the send began. |
| MutationQueue.SuccessDropsAnUnsentOneExactlyWhenDisturbed | packages/mobile/src/mutationQueue.ts:198-211 | So its success drops an unsent mutation if and only if the send was disturbed so and something waits when the answer arrives; a clear alone drops none. |
| MutationQueue.ClearThenEnqueueLosesTheNewest | packages/mobile/src/mutationQueue.ts:217-228 | Clearing during any send and enqueueing once before its answer loses the newcomer, whatever the capacity. |
| MutationQueue.NothingIsMisplaced | packages/mobile/src/mutationQueue.ts:183-235 | Without such steps nothing is ever dropped unsent. |
| MutationQueue.OverflowDuringSendLosesTheNewest | packages/mobile/src/mutationQueue.ts:146-160 | With one, something is: a full queue enqueued to during its send loses the newcomer. |
| MutationFlush.Queue.Enqueue | packages/mobile/src/mutationQueue.ts:146-160 | Pushes and trims in place. |
| MutationFlush.Queue.DropExpired | packages/mobile/src/mutationQueue.ts:186-195 | Keeps the unexpired in order and counts the rest. |
| MutationFlush.Queue.Succeed | packages/mobile/src/mutationQueue.ts:209-210 | Shifts whatever heads the queue. |
| MutationFlush.Queue.Flush | packages/mobile/src/mutationQueue.ts:173-215 | Undisturbed: delivers the unexpired in order up to the first refusal; the rest stay, the refused one with its attempt counted; delivered plus remaining is the unexpired queue. |

## Left out

- HTTP handlers, routing, authorisation, JSON encoding, rate limits and metrics: plumbing around the modelled steps.
- Order of rows with equal times in limited queries: any order among them is allowed.
- Functions nothing in the services calls: jobs.Offer, jobs.RespondToAssignment, booking.StartSearching, and the merchant store's Reserve, ReleaseReservation and SweepAcceptTimeouts.
- Deletes and ON DELETE actions, and rows of users, merchants, vehicles and zones that foreign keys point at.
- Geo search, routing, eligibility, credit and capability filters of a dispatch: a survey parameter carries their result.
- Stored score factors and the rounding of 64-bit floats in scores: scores are exact reals.
- Strings of driver identifiers in the ranking: numbers stand for them in their order.
- Quotes, pricing, surge, cancellation fees, store hours and payment method rules.
- Currencies: there is one, New refuses any other, so the mixed-currency branch of the balance check cannot be reached.
- Order totals outside the safe money range: totals are unbounded whole numbers here.
- A line added while its order is being placed: adding a line is taken as one step with the check that the order is still a cart.
- Webhook storage, payouts, reconciliation cases and provider statuses: no operation modelled here sets PROCESSING, AUTHORIZED, FAILED, CANCELLED or EXPIRED on an intent.
- A movement posted by itself as a capture or a refund: only capturing and refunding make those kinds.
- Active windows of commission rates and credit limits: every stored row is active.
- OTP challenges, devices, roles, access tokens and audit rows; tokens are fresh numbers and hashes are injective.
- Notification preferences, device registration and message contents.
- Order of rows an UPDATE returns to a worker: it handles them oldest first.
- Storage of the offline queue and its first load: the queue is modelled once loaded.
- Realtime channels, coalescing and the hub; the stream model starts at what the gateway writes.
- Timers, aborting requests and JSON decoding in the stream client: a decoder parameter stands for the parser.
