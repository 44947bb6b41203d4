# Fintech banking core: model and proofs

A Dafny model of the stateful core of the banking backend and its services, with proofs about whole
runs of it: any history of calls, any interleaving of callers, any sequence of payments, fills or
conversions. `dafny verify dfyconfig.toml` checks the project.

| module | what it models |
|---|---|
| `RateLimiting` (RateLimiter.dfy) | the token bucket of each client: one lazily refilled, capped number |
| `CircuitBreaking` (CircuitBreaker.dfy) | the circuit breaker, with `call` cut into its atomic steps and interleaved over any number of calls |
| `Sagas` (Saga.dfy) | steps with bounded retries, and compensation of completed steps in reverse order over an arbitrary world |
| `Calendar`, `Amortization`, `Loans` (Calendar.dfy, Amortization.dfy, LoanLedger.dfy) | month arithmetic, the annuity formula and both schedule loops, origination and the payment state machine, for one loan and for many, over whatever a bank holds already |
| `Brokerage` (Brokerage.dfy) | average-cost positions, buying power, market orders, and cash and positions together |
| `Currencies` (Currency.dfy) | the cross-rate table over whatever rates exist already, its spread, and chains of conversions |
| `Logins` (LoginTracker.dfy) | the pruned login-attempt lists; the check/record/clear steps of `login` interleaved, with failures that password changes record; and the requests as the service handles them, one after the other |
| `EventSourcing` (EventStore.dfy) | versions, replay and snapshots |
| `ServiceDiscovery` (ServiceDiscovery.dfy) | the registry, the client cache in front of it, and both together |
| `Prelude`, `Money`, `RealArithmetic` | options, results and first matches, rounding to cents, powers and products of reals |

How it is built. Objects that change their fields are classes, and each method is proved equal to a step
of a specification function on the values of those fields; the theorems are lemmas about runs of those
functions. Floats and Decimals are exact reals. Clocks, generated identifiers, the day's price of a
symbol, and whatever an awaited call does are parameters. An awaited action of a saga is an arbitrary
function of the world and of a clock that advances at every awaited call, so a retry may fare
differently; an awaited call behind the breaker succeeds, fails, or raises something else. Settings of
the rate limiter are fixed for a run, as `get_settings` is cached.

## What does not hold, and exactly when it does

- Half-open success need not come from a probe: two calls in progress since before the trip can close the breaker (`LateCompletionsCloseTheBreaker`). Whatever follows, an episode closes by two calls made since it began iff at its beginning no call was between the state check and its outcome, or the limit is negative (`ClosesByProbesIffNoneLate`).
- A saga whose compensation failed is COMPENSATED (`FailedCompensationLeavesEffect`), so no finished saga is FAILED and the list of failed sagas is always empty (`SagaOrchestrator.GetFailedSagas`). COMPENSATED means that every completed step that could be was compensated iff no compensation raised (`CompensatedIsTrueIff`).
- "Cumulative" columns of the stored schedule hold row amount times row number; they are the running totals iff row 1, rate 0, or a payment that only covers interest (`CumulativeColumnsExactIff`, `CumulativeColumnsCanDiffer`).
- The payment amount a calculator row shows is what the row pays iff the extra payment is absent, zero, or positive and monthly (`PaymentAmountIsPaidIff`, `YearlyExtraIsShownNotPaid`).
- Calculator row dates strictly increase except that the row at the term repeats the date before it (`RowDatesIncreaseIff`, `LastRowRepeatsDate`); dates of the stored schedule always increase (`StoredDatesIncrease`).
- Stepping month by month agrees with one jump iff no month on the way clips the day further than the target month (`StepsAgreeWithJump`, `StepsCanDrift`).
- A loan's total paid is principal plus interest iff no attempt was a payoff of another amount than the balance plus the interest since the last payment: a payoff does not look at the amount paid (`TotalPaidSplitsIff`, `WrongPayoffCloses`).
- A payment made in December 9999 raises after half of the update; the books still balance iff it left something to pay (`PaymentKeepsBooksIff`, `EndOfCalendarBreaksBooks`).
- Buying power can be overdrawn only by a market sale of a negative quantity, and is iff that quantity is below minus the buying power divided by the price with commission (`AcceptedOrderOverdrawsIff`, `NegativeSaleOverdraws`). A sale brings a position's cost basis to 0 iff it sells exactly the shares held, or the position cost nothing (`SalePreservesAverageCost`).
- The crypto commission is 1% of the quantity, not of the value as its comment suggests, and a sale pays it back to the account (`RoundTripIsFree`).
- The limit of 5 failures per 900 seconds holds for the failures that logins record, whatever else is recorded (`LoginsStayWithinLimit`). A wrong old password in a password change is recorded on the same list without asking for the limit (services/auth_service/app.py:872), so six of them exceed it (`PasswordChangesEscapeLimit`). For all failures the limit holds at every moment iff no wrong old password is recorded while `check_limit` would refuse the user (`LimitHoldsIff`).
- The client cache stays up to date under a registration iff no client is cached for that name and id (`RegisterKeepsAgreementIff`, `ReplacedInstanceStaysCached`); with a ':' in a service name two instances can share a key (`ColonKeysCollide`).
- "The advertised spread" does not protect every conversion: the seeded table prices Canadian and Australian dollars, which the built-in rates lack, under underscore keys that disagree with the built-in cross rates. A round trip through the Canadian dollar gains 1.8% (`SeededCycleGains`), and from the euro to the Canadian dollar the way over the US dollar pays 1.53 against a direct mid rate of 1.478261 (`SeededTailWins`). Exactly:
  - Any quoted chain, wherever it begins and ends, pays less than the direct mid rate of its ends (1 for a round trip) iff the drift of its hops, less the spreads, stays below the drift of the direct rate (`ChainLosesIff`); only excursions off the built-in rates contribute drift (`ChainOfExcursions`). Without one it always loses (`NoTableChainWins`).
  - With one excursion, in the middle or at an end, it loses iff the excursion's mid rates, less all spreads, stay below its share of the direct rate; between built-in ends that share is the cross rate of the excursion's own ends (`ExcursionLosesIff`).
  - With a head and a tail off the built-in rates, it loses iff their mid rates, times the cross rate between them, less the spreads, stay below the direct mid rate (`EndsLoseIff`).

## Model

| member | source | states |
|---|---|---|
| RateLimiting.FromSettings | backend/app/middleware/rate_limiter.py:54-57 | whatever the settings, capacity is at least 1 and the refill rate positive |
| RateLimiting.LevelIsTightestWindow | backend/app/middleware/rate_limiter.py:68-75 | the refilled number is a lower bound of the headroom of every window of the client's history and is attained by one of them |
| RateLimiting.AdmittedIffEveryWindowHasRoom | backend/app/middleware/rate_limiter.py:48-78 | a call is allowed iff for every earlier-or-equal call of that client, admissions since then plus one are within capacity + rate * elapsed; other clients do not matter |
| RateLimiting.RejectedClientIsAdmittedIffItWaited | backend/app/middleware/rate_limiter.py:68-78 | after a rejection, with any number of rejected polls in between, a call is allowed iff the exact wait has passed |
| RateLimiting.RetryAfterIsSufficientAndTight | backend/app/middleware/rate_limiter.py:77-78 | the Retry-After seconds (section 10.2.3 of RFC 9110) suffice and exceed the exact wait by at most one second |
| RateLimiting.RejectedPollChangesNoDecision | backend/app/middleware/rate_limiter.py:62-78 | deleting a rejected call from any history changes no other decision, of any client |
| RateLimiting.PeriodFillsBucket | backend/app/middleware/rate_limiter.py:54-75 | the bucket holds the requests setting, and refills from empty in exactly the period |
| RateLimiting.AtMostTwicePerPeriod | backend/app/middleware/rate_limiter.py:54-78 | within a period of one of its calls a client gets at most twice the requests through |
| RateLimiting.SteadyClientIsNeverRefused | backend/app/middleware/rate_limiter.py:54-78 | a client whose calls are at least period / requests apart is never refused, whatever others do |
| RateLimiting.RateLimiter.Check | backend/app/middleware/rate_limiter.py:48-78 | the method decides by the window condition over its whole history and returns 0 or the retry time |
| CircuitBreaking.EveryRunIsConsistent | services/core/circuit_breaker.py:67-159 | in every interleaving: concurrent calls = calls holding a slot, within a positive limit; closed implies failures below threshold; open implies a recorded failure; half-open implies fewer than 2 successes |
| CircuitBreaking.AdmittedIffRoom | services/core/circuit_breaker.py:108-114 | a call is admitted iff the limit is absent, 0, or above the number of calls holding a slot |
| CircuitBreaking.FieldsSummariseHistory | services/core/circuit_breaker.py:67-159 | failure count, last failure time and state are functions of the recorded history alone: streak since the last success or reset, latest failure, and an automaton over them |
| CircuitBreaking.PhasesSummariseHistory | services/core/circuit_breaker.py:86-127 | the slots taken and where every call stands are told by the recorded history alone too |
| CircuitBreaking.ArrivalIsClearedIff | services/core/circuit_breaker.py:102-106 | a call that arrives is cleared iff the breaker is not open or its timeout has passed since the latest failure |
| CircuitBreaking.OpenUntilTimeoutOrReset | services/core/circuit_breaker.py:67-106 | an open breaker stays open and clears no call until a reset or a reading recovery_timeout after the latest recorded failure, late completions included |
| CircuitBreaking.RecoveryNeedsTwoSuccesses | services/core/circuit_breaker.py:129-159 | half-open closes only by reset or by the second of exactly two successes of the episode, with no failure between |
| CircuitBreaking.TripsExactlyAtThreshold | services/core/circuit_breaker.py:141-159 | a closed breaker opens iff a failure brings the streak to the threshold (any failure, for a threshold below 1), and never turns half-open |
| CircuitBreaking.SuccessIsProbeIffNotInProgress | services/core/circuit_breaker.py:102-139 | where call ids are unique, a recorded success belongs to a call made since a point in time iff that call was not between state check and outcome then |
| CircuitBreaking.ClosesByProbes | services/core/circuit_breaker.py:102-139 | if no call is late when an episode begins, its two successes come from two different calls made since |
| CircuitBreaking.LateCallCloses | services/core/circuit_breaker.py:108-139 | a call in flight since before the episode can, by succeeding and being made again, close it |
| CircuitBreaking.ClosesByProbesIffNoneLate | services/core/circuit_breaker.py:67-139 | in every legal continuation the episode closes by probes iff no call was late at its beginning, or the limit is negative |
| CircuitBreaking.LateCompletionsCloseTheBreaker | services/core/circuit_breaker.py:116-139 | a run in which two calls admitted before the trip close the breaker |
| CircuitBreaking.CircuitBreaker.CurrentState | services/core/circuit_breaker.py:67-84 | reading the state is the half-open step of the run model and returns the new state |
| CircuitBreaking.CircuitBreaker.TryAdmit | services/core/circuit_breaker.py:108-114 | admits exactly below the limit, changing the count alone |
| CircuitBreaking.CircuitBreaker.GiveBack | services/core/circuit_breaker.py:125-127 | releases one slot and changes nothing else |
| CircuitBreaking.CircuitBreaker.OnSuccess | services/core/circuit_breaker.py:129-139 | is the success step of the run model |
| CircuitBreaking.CircuitBreaker.OnFailure | services/core/circuit_breaker.py:141-159 | is the failure step of the run model |
| CircuitBreaking.CircuitBreakerManager.GetOrCreate | services/core/circuit_breaker.py:185-203 | one breaker per name, created closed and empty |
| CircuitBreaking.CircuitBreakerManager.Reset | services/core/circuit_breaker.py:216-224 | resets exactly the named breaker, if there is one |
| CircuitBreaking.CircuitBreakerManager.ResetAll | services/core/circuit_breaker.py:226-232 | resets every breaker, however the names share them |
| Sagas.SagaIsAllOrNothing | services/core/saga.py:127-183 | if failed actions change nothing and compensations undo their actions, a failed saga leaves the world as it found it and a successful one leaves the in-order composition of all actions |
| Sagas.StepHasLog | services/core/saga.py:37-60 | a step fails within its remaining retries and then succeeds, or fails once more than them, sleeping a doubling time after each failed attempt but the last |
| Sagas.BackwardHasLog | services/core/saga.py:171-183 | each compensation of the completed steps is attempted once, in reverse order, even when some fail |
| Sagas.LogTellsStatus | services/core/saga.py:62-80 | the status a completed step is left in is told by its own entry of the compensation log |
| Sagas.CompensatedIsTrueIff | services/core/saga.py:171-183 | a COMPENSATED saga has compensated every completed step that it could iff no compensation raised |
| Sagas.FailedCompensationLeavesEffect | services/core/saga.py:171-183 | a saga whose only compensation raises keeps the effect of its first step |
| Sagas.SagaHasLog | services/core/saga.py:127-183 | the whole log from fresh steps: completed steps with their retries, max_retries + 1 attempts of the failing one, then the compensations |
| Sagas.LogReplays | services/core/saga.py:37-183 | for arbitrary actions and compensations, making the calls the log lists, in order and each on the world the one before left, leads to the world, clock and results of the saga; every call went as its entry says, none is made again after it returned, and each compensation gets what its action returned |
| Sagas.FailedAttemptsKeepEffects | services/core/saga.py:42-60 | a step that adds 1 and raises, then adds 10 and returns, leaves 11 |
| Sagas.CompensableIsReverseOrder | services/core/saga.py:171-179 | the compensated steps are exactly the completed ones with a compensation, strictly descending |
| Sagas.ExhaustedStepSleeps | services/core/saga.py:53-57 | a fresh step that exhausts m retries sleeps 2^(m+1) - 2 seconds in all |
| Sagas.SagaStep.Execute | services/core/saga.py:37-60 | the recursive retry runs the step of the model and leaves COMPLETED with the result or FAILED |
| Sagas.SagaStep.Compensate | services/core/saga.py:62-80 | runs the compensation on the stored result; COMPENSATED on success, COMPENSATING left behind on failure, untouched without one |
| Sagas.Saga.AddStep | services/core/saga.py:109-125 | appends a new pending step, so no step occurs twice |
| Sagas.Saga.Execute | services/core/saga.py:127-169 | ends COMPLETED or COMPENSATED with the environment of the model, and with the exact status, retries and result of every step |
| Sagas.Saga.CompensateAll | services/core/saga.py:171-183 | compensates the completed steps last first, leaves each in the status of its own outcome, and ends COMPENSATED |
| Sagas.SagaOrchestrator.CreateSaga | services/core/saga.py:214-218 | tracks a new saga and keeps every tracked saga out of FAILED |
| Sagas.SagaOrchestrator.ExecuteSaga | services/core/saga.py:220-227 | succeeds iff no step fails, ends COMPLETED or COMPENSATED accordingly, and leaves no tracked saga FAILED |
| Sagas.SagaOrchestrator.GetFailedSagas | services/core/saga.py:237-243 | the list of failed sagas is empty |
| Calendar.AddMonthsLands | backend/app/repositories/loan_manager.py:503-510 | the result is a valid date exactly n months away with the day clipped to the month, or ValueError iff the year leaves 1 to 9999 |
| Calendar.StepsLand | backend/app/repositories/loan_manager.py:333-334 | n single-month steps land n months away with the day clipped by every month on the way |
| Calendar.StepsAgreeWithJump | backend/app/repositories/loan_manager.py:503-510 | steps and jump agree iff no month on the way clips further than the target; always for days up to 28 |
| Calendar.StepsCanDrift | backend/app/repositories/loan_manager.py:503-510 | from 31 January two steps give 28 March and a jump 31 March |
| Calendar.StepsIncrease | backend/app/repositories/loan_manager.py:630 | dates of successive months strictly increase |
| Calendar.MonthsAreContiguous | backend/app/repositories/loan_manager.py:514 | the day numbers behind date subtraction pass from month to month by the month's length, over years and leap days |
| Calendar.DayNumberIsCivil | backend/app/repositories/loan_manager.py:508-514 | the day number, built from the table of month lengths, equals the formula with years from March and 153 days per five months |
| Calendar.DayNumberIncreases | backend/app/repositories/loan_manager.py:514 | later dates have higher day numbers |
| Money.Round2Faithful | backend/app/repositories/loan_manager.py:622-626 | rounding to cents is monotone, moves a value by at most half a cent and keeps it non-negative |
| Amortization.PaymentFailsIff | backend/app/repositories/loan_manager.py:486-492 | for any rate and any integer term the formula divides by zero iff the term is 0, or the monthly rate is -200% and the term even, or the monthly rate is -100% and the term negative |
| Amortization.PaymentEquation | backend/app/repositories/loan_manager.py:486-492 | whenever it yields a payment, that payment grown over the term equals the debt grown over the term |
| Amortization.BalanceClosedForm | backend/app/repositories/loan_manager.py:612-615 | for any payment M the loop's balance after i rows is P(1+r)^i - M(1 + (1+r) + ... + (1+r)^(i-1)) |
| Amortization.GeometricQuotient | backend/app/repositories/loan_manager.py:612-615 | that sum is ((1+r)^i - 1)/r, or i at rate 0 |
| Amortization.AnnuityPaysOffExactlyAtTerm | backend/app/repositories/loan_manager.py:305-350 | with the formula's payment the balance is exactly 0 at the term and principals sum to the loan; above -100% a month it is positive before |
| Amortization.WrongPaymentMissesZero | backend/app/repositories/loan_manager.py:606-615 | a payment off by d ends at -d((1+r)^n - 1)/r, or -d*n at rate 0 |
| Amortization.TotalsMatchBalance | backend/app/repositories/loan_manager.py:329-331 | cumulative principal is the loan less the balance, and with cumulative interest it is all that was paid |
| Amortization.ExtraLowersBalance | backend/app/repositories/loan_manager.py:324-329 | an extra payment lowers every balance by the future value of the extras |
| Amortization.RowCountIsFirstPaidOff | backend/app/repositories/loan_manager.py:320-348 | the schedule stops at the first row that leaves no balance, or at the term |
| Amortization.ExtraPaymentsDominate | backend/app/repositories/loan_manager.py:320-348 | with a positive extra: no more rows than the term, lower balances, no more interest at rates from 0 up, and an overshoot below one row's payment |
| Amortization.CumulativeColumnsExactIff | backend/app/repositories/loan_manager.py:625-626 | the stored cumulative columns, before rounding, are the running totals iff row 1, rate 0 or an interest-only payment |
| Amortization.CumulativeColumnsCanDiffer | backend/app/repositories/loan_manager.py:625-626 | on a loan of 1200 at 1% a month with payment 112, row 2 stores interest 22 where 23 was paid |
| Amortization.CalculateAmortization | backend/app/repositories/loan_manager.py:305-350 | returns exactly the rows of the balance function, in number and content, or the division or date error; its rows charge the annual percentage on the balance before them and pay the loan off |
| Amortization.ScheduleChargesAnnualRate | backend/app/repositories/loan_manager.py:309-329 | in every schedule 1200 times the interest of a row is the balance before it times interest_rate, its principal comes off that balance, the totals add up, and something is left before every row |
| Amortization.ScheduleCloses | backend/app/repositories/loan_manager.py:305-350 | with principal > 0, interest_rate > -1200 and a positive term a schedule ends with a remaining balance of 0, each row pays the payment and what is paid extra, and without an extra it has term_months rows and repays exactly the principal |
| Amortization.FillSchedule | backend/app/repositories/loan_manager.py:320-350 | the loop yields each row's date, interest, principal, clamped balance and running totals |
| Amortization.PaymentAmountIsPaidIff | backend/app/repositories/loan_manager.py:324-342 | the shown payment is principal plus interest iff the extra is absent, zero, or positive and monthly |
| Amortization.YearlyExtraIsShownNotPaid | backend/app/repositories/loan_manager.py:324-342 | a yearly extra of 50 is shown and not paid |
| Amortization.RowDatesIncreaseIff | backend/app/repositories/loan_manager.py:333-338 | row dates increase except between the last two rows of a full term |
| Amortization.LastRowRepeatsDate | backend/app/repositories/loan_manager.py:333-338 | two rows from 31 January 2024 both carry 29 February |
| Loans.NewLoanOnTerms | backend/app/repositories/loan_manager.py:158-188 | a new loan has amount, rate, term and monthly payment of its offer, owner and account of the call, and first due date and maturity 1 and term_months months after today; it is active, owes its amount and has paid nothing |
| Loans.PaymentKeepsBooksIff | backend/app/repositories/loan_manager.py:214-276 | a payment keeps the ledger invariant iff its next payment date is in the calendar or something is left to pay |
| Loans.EveryRunBalances | backend/app/repositories/loan_manager.py:214-276 | from any balanced ledger, over any run of such payments: original = balance + principals until the final clamp, totals are sums of the records, regular payments pay their row's interest, remaining counts down to 0, and paid off exactly when what is owed first falls to 0 |
| Loans.RecordsTellBalances | backend/app/repositories/loan_manager.py:242-276 | over any such run each new record states what is still owed after it, and the latest one dates the loan: last paid on its day, next due one month later |
| Loans.EndOfCalendarBreaksBooks | backend/app/repositories/loan_manager.py:268-274 | a payoff in December 9999 leaves an active loan with nothing left to pay |
| Loans.LoansAreApart | backend/app/repositories/loan_manager.py:145-276 | from any bank whose loans are numbered 1..m and whose records name only those, however acceptances and payments interleave, ids are fresh and each loan has exactly the ledger of its owner's attempts on it: from where it started under the stored rows, or from its acceptance under its own schedule |
| Loans.LoansKeepTheirTerms | backend/app/repositories/loan_manager.py:145-276 | after any calls, every accepted loan has the terms, owner and account of the one acceptance that made it |
| Loans.EveryLoanBalances | backend/app/repositories/loan_manager.py:145-276 | so the ledger invariant holds for every accepted loan, and for every stored one whose ledger satisfied it at the start |
| Loans.TotalPaidSplitsIff | backend/app/repositories/loan_manager.py:231-266 | from books without a gap, over any run, total paid = principals + interest iff no attempt was a payoff of another amount than balance plus payoff interest at that moment |
| Loans.WrongPayoffCloses | backend/app/repositories/loan_manager.py:231-276 | a payoff of 10 closes a loan of 100 |
| Loans.ClosedLoanRefusesAll | backend/app/repositories/loan_manager.py:220-221 | once not active, every further payment is refused and changes nothing |
| Loans.PaymentFindsItsRow | backend/app/repositories/loan_manager.py:460-465 | after any calls on any such bank, payment number k of an accepted loan finds row k of its own schedule and none beyond it, and one of a stored loan what it would have found at the start |
| Loans.RegularPaymentPaysInterestOnBalance | backend/app/repositories/loan_manager.py:227-237 | so a regular payment on an accepted loan pays the rounded interest of the balance function's row of its number, and none beyond the schedule |
| Loans.LedgerFollowsBalance | backend/app/repositories/loan_manager.py:227-276 | after n regular payments of the monthly payment, what is owed differs from the balance function by at most half a cent per payment |
| Loans.CurrentBalanceFollows | backend/app/repositories/loan_manager.py:227-276 | so does the current balance of an active loan |
| Loans.OwedAtTerm | backend/app/repositories/loan_manager.py:227-276 | with a monthly payment off the formula's by d, what is owed after the last scheduled payment is within half a cent per payment of -d((1+r)^n - 1)/r |
| Loans.StoredRowsAre | backend/app/repositories/loan_manager.py:606-630 | row k of the stored schedule is row k of the balance function, and rows are missing only where the calendar ends |
| Loans.StoredRowChargesAnnualRate | backend/app/repositories/loan_manager.py:609-630 | each stored row holds, rounded, a twelfth of the annual percentage of the balance before it as interest and the rest of the monthly payment as principal |
| Loans.ExtraIsBeyondRow | backend/app/repositories/loan_manager.py:252 | the principal of any record is what its schedule row asks for, or 0 without one, plus the extra principal, unless it falls short and the extra is 0 |
| Loans.ExtraPrincipalIsExcess | backend/app/repositories/loan_manager.py:236-252 | the extra principal that a regular payment records is, to the cent, what it exceeds the monthly payment by |
| Loans.StoredCumulativeColumns | backend/app/repositories/loan_manager.py:625-626 | a stored cumulative column is within half a cent of the row's amount times its number, and of the running total in row 1, at rate 0 and for an interest-only payment |
| Loans.PayoffChargesAnnualRate | backend/app/repositories/loan_manager.py:512-516 | a payoff charges a 365th of the annual percentage on the balance per day since the last payment, or since origination; on a debt at a positive rate more than 0 iff it is later |
| Loans.StoredDatesIncrease | backend/app/repositories/loan_manager.py:610-630 | dates of the stored schedule strictly increase |
| Loans.LoanManager.MakePayment | backend/app/repositories/loan_manager.py:214-276 | refuses a missing, foreign or inactive loan without change; otherwise one step of the ledger on the first loan of that id, cut short by the end of the calendar |
| Loans.LoanManager.Allocate | backend/app/repositories/loan_manager.py:229-240 | splits a payment as the ledger step does |
| Loans.LoanManager.GeneratePaymentSchedule | backend/app/repositories/loan_manager.py:606-630 | appends exactly the stored schedule and fails iff the calendar ends within it |
| Loans.LoanManager.AcceptOffer | backend/app/repositories/loan_manager.py:145-195 | the account, the loan and its schedule from the first matching offer: the loan is on the terms of that offer and of the caller, on the new account, whose balance is minus what it owes; what is left behind when a date leaves the calendar, or the error of the first check that fails |
| Brokerage.PositionLedger | backend/app/repositories/investment_manager.py:525-573 | over any fills on any position: cost basis + proceeds grows by purchases + realized gains, and shares by bought - sold |
| Brokerage.GainsComeFromSales | backend/app/repositories/investment_manager.py:525-573 | over any fills, gains change at sells alone, each time by the quantity at the price less the average cost held just before; cost basis is what was bought less the average cost of what was sold |
| Brokerage.BuysOnlyAddCost | backend/app/repositories/investment_manager.py:531-539 | a run of buys realizes nothing and raises the cost basis by exactly the value bought |
| Brokerage.BuyAveragesCost | backend/app/repositories/investment_manager.py:531-539 | a buy moves the average cost to the mean of the old one and the price, weighted by shares |
| Brokerage.CreatedFromNothing | backend/app/repositories/investment_manager.py:540-555 | the fill that creates a position leaves what a buy on top of nothing leaves |
| Brokerage.ValuedAtLatestPrice | backend/app/repositories/investment_manager.py:539-572 | from its creation on, the current value is the shares at the latest fill price |
| Brokerage.SalePreservesAverageCost | backend/app/repositories/investment_manager.py:565-573 | a partial sale keeps the average cost; cost basis becomes 0 iff everything is sold or it cost nothing |
| Brokerage.FullLiquidationRealizesAll | backend/app/repositories/investment_manager.py:557-577 | closing out realizes exactly proceeds less purchases and less the earlier cost |
| Brokerage.FillChangesOwnKey | backend/app/repositories/investment_manager.py:525-577 | a fill creates, updates or removes the position of its own portfolio and symbol only, and keys stay unique |
| Brokerage.BookIsLedgers | backend/app/repositories/investment_manager.py:525-577 | from any seeded book with one position per key, after any interleaving of fills each listed position is the ledger of its fills since it was there or created |
| Brokerage.ListedPositionIs | backend/app/repositories/investment_manager.py:525-577 | a listed position that was created holds, over the latest fills on its key and the creating one included, shares bought less sold, the gains of its sells, and the value bought less the average cost of what was sold; a stored one adds the same to what it held |
| Brokerage.AskCoversLast | backend/app/repositories/investment_manager.py:707-719 | the rounded ask is at least the rounded last price |
| Brokerage.EstimateCoversFill | backend/app/repositories/investment_manager.py:579-591 | buying power that covers the estimate of a market order covers its fill |
| Brokerage.RestingBuyIsCovered | backend/app/repositories/investment_manager.py:579-600 | a buy at a limit is covered iff it is at every price up to the limit; other resting buys iff at every price up to the last one |
| Brokerage.RefusedIff | backend/app/repositories/investment_manager.py:168-179 | an order is refused iff the user owns no such account, or it is a buy whose estimate exceeds its buying power |
| Brokerage.AcceptedOrderOverdrawsIff | backend/app/repositories/investment_manager.py:175-209 | an accepted order overdraws iff it is a market sale, a unit of it moves a positive amount, and its quantity is below minus the buying power divided by that amount |
| Brokerage.NegativeSaleOverdraws | backend/app/repositories/investment_manager.py:500-516 | selling -1 share at 100 overdraws an account with 10 by 90 |
| Brokerage.RoundTripIsFree | backend/app/repositories/investment_manager.py:500-516 | buying and selling the same quantity at one price restores the account, commission included |
| Brokerage.NoRunOverdraws | backend/app/repositories/investment_manager.py:168-211 | no run of orders over any accounts overdraws one, if quantities sold are non-negative |
| Brokerage.BalanceFollowsBuyingPower | backend/app/repositories/investment_manager.py:500-516 | balance and buying power of every account move together over any run |
| Brokerage.OnlyOwnersTrade | backend/app/repositories/investment_manager.py:168-211 | over any run without orders of its owner, an account and the positions of its portfolio stay as they are |
| Brokerage.FillMovesInvested | backend/app/repositories/investment_manager.py:525-577 | a fill moves its own amount into or out of the book's cost less gains, counting a removed position |
| Brokerage.RunConserves | backend/app/repositories/investment_manager.py:481-577 | over any run of orders, total balance + cost basis - realized gains changes only by commissions and by orders that no position answers |
| Brokerage.InvestmentManager.PlaceOrder | backend/app/repositories/investment_manager.py:168-211 | refusals change nothing; otherwise the order is recorded and a market order settles account and position |
| Brokerage.InvestmentManager.ExecuteOrder | backend/app/repositories/investment_manager.py:481-523 | fills at the last price, moves price * quantity + commission, and applies the fill to the account's portfolio |
| Brokerage.InvestmentManager.UpdateOrCreatePosition | backend/app/repositories/investment_manager.py:525-555 | is the buy step of the book |
| Brokerage.InvestmentManager.UpdatePositionForSell | backend/app/repositories/investment_manager.py:557-577 | is the sell step of the book |
| Currencies.SlashKeyInjective | backend/app/repositories/currency_converter_manager.py:92 | a table key determines both codes when they hold no '/' |
| Currencies.BuiltInBaseIsGood | backend/app/repositories/currency_converter_manager.py:70-86 | the built-in rates are positive and their codes free of '/' |
| Currencies.HopRate | backend/app/repositories/currency_converter_manager.py:147-190 | a pair is quoted iff it has a non-zero rate under either key and both codes are supported; bid and ask lie evenly around the mid rate, and the customer receives it less 1.5% or 2% |
| Currencies.TableRate | backend/app/repositories/currency_converter_manager.py:88-93 | whatever else the table holds, a pair of distinct built-in codes has the quotient of the base rates as mid rate |
| Currencies.MidsTelescope | backend/app/repositories/currency_converter_manager.py:147-155 | along any path the mid rates multiply to the worth of its ends times the drift of its hops from those worths |
| Currencies.OnTableNoDrift | backend/app/repositories/currency_converter_manager.py:88-93 | hops between built-in codes do not drift |
| Currencies.ChainFactors | backend/app/repositories/currency_converter_manager.py:147-190 | every quoted chain pays the worth of its ends, times its drift, times what the spreads leave |
| Currencies.ChainKeptExactly | backend/app/repositories/currency_converter_manager.py:164-172 | what any path keeps is exactly 0.985 per hop that touches a cryptocurrency and 0.98 per other hop |
| Currencies.ChainKeptBounds | backend/app/repositories/currency_converter_manager.py:164-177 | k hops keep between 0.98^k and 0.985^k |
| Currencies.ChainOfExcursions | backend/app/repositories/currency_converter_manager.py:147-190 | a chain from and to any codes pays the worth of its ends, times the gain of each excursion off the built-in codes, times what the spreads leave, and loses iff that net gain stays below the drift of the direct rate |
| Currencies.ChainLosesIff | backend/app/repositories/currency_converter_manager.py:147-190 | any quoted chain pays less than the direct mid rate of its ends, or than 1 as a round trip, iff its drift less the spreads stays below the drift of the direct rate |
| Currencies.ChainAgainstDirect | backend/app/repositories/currency_converter_manager.py:147-190 | k hops reach the direct mid rate (1, for a round trip) only if the drift is at least 1/0.985^k times that of the direct rate, and surely if it is at least 1/0.98^k times it; between built-in codes the direct rate does not drift |
| Currencies.NoTableChainWins | backend/app/repositories/currency_converter_manager.py:88-93 | a chain through built-in codes alone pays exactly the direct mid rate times what the spreads leave, so strictly less than it, and every such round trip loses |
| Currencies.ExcursionLosesIff | backend/app/repositories/currency_converter_manager.py:147-190 | a chain with one excursion, in the middle or at an end, loses iff the excursion's mid rates less all spreads stay below its share of the direct rate, which is the cross rate of its own ends where all ends are built in |
| Currencies.EndsLoseIff | backend/app/repositories/currency_converter_manager.py:147-190 | a chain with a head and a tail off the built-in codes pays their mid rates times the cross rate between them less the spreads, and loses iff that is below the direct mid rate |
| Currencies.SeededMid | backend/app/repositories/data_manager.py:2040-2066 | a seeded pair with a code that the built-in rates lack keeps its seeded rate |
| Currencies.SeededCycleGains | backend/app/repositories/data_manager.py:2022-2066 | on the seeded data USD to CAD to EUR to USD yields more than 1.018 |
| Currencies.SeededTailWins | backend/app/repositories/data_manager.py:2022-2066 | on the seeded data EUR to USD to CAD pays more than 1.53 against the direct mid rate 1.478261 |
| Currencies.CurrencyConverterManager.InitExchangeRates | backend/app/repositories/currency_converter_manager.py:64-93 | the nested loops price every pair of distinct codes, add no other entry and keep all others |
| Currencies.CurrencyConverterManager.constructor | backend/app/repositories/currency_converter_manager.py:35-93 | keeps a list of currencies and a table that exist already, and puts the built-in cross table in place |
| Currencies.CurrencyConverterManager.CreateConversionQuote | backend/app/repositories/currency_converter_manager.py:192-238 | a quoted pair is quoted to the user at the mid rate less its spread, without a further fee, and stored; others are refused |
| Logins.PrunedRefinesFullHistory | services/auth_service/app.py:167-202 | however checks, login failures, failed password changes and clears interleave, the pruned list and the full history have the same recent failures |
| Logins.CheckCountsFullHistory | services/auth_service/app.py:167-190 | on all these runs the limit check answers as if it counted every failure since the last clear |
| Logins.FailuresPerWindow | services/auth_service/app.py:573-607 | for any interleaving with at most m logins of a user between check and outcome, a 900-second window between clears holds at most 4 + m failures recorded by logins, and at most 4 + m in all but for those that password changes record from the fifth on |
| Logins.LoginsStayWithinLimit | services/auth_service/app.py:573-622 | over every run of logins and password changes, each handled without interruption, a window holds at most 5 failures recorded by logins, and at most 5 in all but for those that password changes record from the fifth on |
| Logins.LimitHoldsIff | services/auth_service/app.py:860-872 | at every moment no six failures lie in one window iff no wrong old password is recorded while the limit check would refuse that user |
| Logins.PasswordChangesEscapeLimit | services/auth_service/app.py:860-872 | n wrong old passwords at one moment are all recorded, and from the sixth on break the limit |
| Logins.ServedIsHandled | services/auth_service/app.py:573-622 | the tracker after the steps of the run model is the one that the handlers leave, request by request |
| Logins.AuthService.Login | services/auth_service/app.py:573-622 | refuses by the count of recent failures in the full history; otherwise records an unknown user or wrong password, clears on success, and leaves the list alone for an inactive account |
| Logins.AuthService.ChangePassword | services/auth_service/app.py:860-880 | records a wrong old password whatever the limit check would say, and leaves the list alone otherwise |
| Logins.LoginAttemptTracker.CheckLimit | services/auth_service/app.py:167-190 | prunes and decides by the count of recent failures in the full history |
| Logins.LoginAttemptTracker.RecordAttempt | services/auth_service/app.py:192-197 | appends the failure to the user's list |
| Logins.LoginAttemptTracker.ClearAttempts | services/auth_service/app.py:199-202 | forgets the user's failures |
| EventSourcing.AppendIsOneReplayStep | services/transaction_service/event_store.py:105-137 | appending an event is one replay step for its aggregate and nothing for any other |
| EventSourcing.ReplayTellsHistory | services/transaction_service/event_store.py:105-137 | a replay lists exactly the aggregate's events and has the status of the last |
| EventSourcing.ReplayNamesAggregate | services/transaction_service/event_store.py:105-113 | a replay carries the id of its aggregate, unless an initiating payload brings its own |
| EventSourcing.MarksNameStatus | services/transaction_service/event_store.py:111-133 | times are stored under the status of their event, and no two kinds of events share a status |
| EventSourcing.LatestMarkWins | services/transaction_service/event_store.py:115-133 | each timestamp or failure reason is that of the latest event that sets it, unless a later payload overrides the key |
| EventSourcing.PayloadShows | services/transaction_service/event_store.py:111-113 | initiating payload entries show unless a later event touches their key |
| EventSourcing.AppendKeepsVersions | services/transaction_service/event_store.py:66-80 | versions of each aggregate are 1..n in log order and the counter is n |
| EventSourcing.SnapshotContinues | services/transaction_service/event_store.py:105-146 | a snapshot continued over the events after its version equals the full replay |
| EventSourcing.EventStore.AppendEvent | services/transaction_service/event_store.py:55-91 | appends the event with the next version of its aggregate, keeping the invariant |
| EventSourcing.EventStore.ReplayEvents | services/transaction_service/event_store.py:105-137 | the loop computes the replay of the aggregate's events |
| EventSourcing.EventStore.CreateSnapshot | services/transaction_service/event_store.py:139-146 | stores the state with the number of the aggregate's events as version |
| ServiceDiscovery.SelectsEarliestHealthy | services/core/service_registry.py:93-106 | the selected instance is the earliest-registered healthy one, if any |
| ServiceDiscovery.StepKeepsWellFormed | services/core/service_registry.py:49-152 | every operation keeps registration order and at most one entry per id |
| ServiceDiscovery.ListedIff | services/core/service_registry.py:49-152 | over any run, an instance is listed iff it was registered and since then neither replaced, deregistered nor dropped as stale |
| ServiceDiscovery.HealthyIff | services/core/service_registry.py:49-152 | and it is healthy iff it is listed and was not marked unhealthy without a heartbeat or registration since |
| ServiceDiscovery.ListIs | services/core/service_registry.py:49-152 | the list of a service is exactly the instances that stay, in the order of their registrations |
| ServiceDiscovery.RegisterAppends | services/core/service_registry.py:63-69 | a registration leaves the list as it was but for the id, in the same order, and puts the new instance at its end; lists of other services stay |
| ServiceDiscovery.StepHealthy | services/core/service_registry.py:49-152 | no operation changes the health of an instance it is not about and that stays listed |
| ServiceDiscovery.RegisterKeepsAgreementIff | services/core/service_registry.py:49-71 | a registration keeps the cache up to date iff no client is cached under its key |
| ServiceDiscovery.ReplacedInstanceStaysCached | services/core/api_client.py:197-214 | after an instance is registered again, get_client still returns the client of the replaced one |
| ServiceDiscovery.StepKeepsAgreement | services/core/api_client.py:197-236 | every other operation keeps every cached client on the registered instance |
| ServiceDiscovery.ClientHoldsSelectedInstance | services/core/api_client.py:197-214 | along every run without a registration under a cached key, get_client returns a client holding the very instance get_instance selects |
| ServiceDiscovery.AllClientsHoldTheirInstances | services/core/api_client.py:216-232 | and get_all_clients returns for each healthy instance a client holding it |
| ServiceDiscovery.PartsRunAsOne | services/core/api_client.py:197-236 | registry and factory kept apart, each changed by its own operations alone, run as the joint model does |
| ServiceDiscovery.FactoryFollowsRegistry | services/core/api_client.py:197-214 | so along these runs the factory hands out a client of the instance that the registry alone selects |
| ServiceDiscovery.ServiceRegistry.Register | services/core/service_registry.py:38-71 | is the registration step of the run model: replaces the entry of the same id and appends the new, healthy instance |
| ServiceDiscovery.ServiceRegistry.Deregister | services/core/service_registry.py:73-85 | is the removal step of the run model and tells whether the id was there |
| ServiceDiscovery.ServiceRegistry.GetInstance | services/core/service_registry.py:87-106 | the first healthy instance of the service |
| ServiceDiscovery.ServiceRegistry.Heartbeat | services/core/service_registry.py:113-122 | is the revival step of the run model, and renews the heartbeat of the first instance with the id alone |
| ServiceDiscovery.ServiceRegistry.MarkUnhealthy | services/core/service_registry.py:124-133 | is the marking step of the run model and changes no heartbeat |
| ServiceDiscovery.ServiceRegistry.CheckStaleInstances | services/core/service_registry.py:135-152 | is the step that keeps exactly the instances with a heartbeat inside the timeout, in order |
| ServiceDiscovery.ServiceClientFactory.GetClient | services/core/api_client.py:197-214 | is the client step of the run model, on objects |
| ServiceDiscovery.ServiceClientFactory.GetAllClients | services/core/api_client.py:216-232 | the cached clients of the healthy instances, one each and in registry order, caching the missing ones |
| ServiceDiscovery.ServiceClientFactory.ClearCache | services/core/api_client.py:234-236 | empties the cache |

## Left out

- Rate-limit middleware: skipped paths, headers, client identification from headers, and failing open on an internal error.
- Cancellation inside a saga: exceptions outside Python's `Exception` pass through the retry and the compensation alike and leave the saga EXECUTING; the catch-all of `execute` is otherwise unreachable, as steps catch their own exceptions.
- Timestamps of sagas, steps and state changes, error texts, log messages, and status reports as dictionaries.
- Amortization.CumulativeColumnsExactIff: speaks of the amounts before rounding, at rates above -100% a month; the stored columns round them (`StoredCumulativeColumns`) and may also agree by chance.
- Loans.TotalPaidSplitsIff: for runs in which no final payment is cut short in December 9999, after which the loan would go on taking payments.
- Loan applications, offers and refinancing: per-branch arithmetic on mock data.
- Loans that the demonstration data stores (backend/app/repositories/data_manager.py:1641-1670) without `current_balance`, `payments_made` and the like: a payment on one of them raises KeyError. Stored loans of this model carry all fields the ledger reads.
- Limit, stop and cancelled orders beyond their acceptance: they are recorded and never fill.
- Overlapping logins: between its check and its outcome `login` waits only for a lock whose holders never wait, so the service never suspends there and handles requests one after the other. `FailuresPerWindow` covers overlaps all the same; its bound on logins in progress is needed, as any number of logins checked together would get to fail.
- EventSourcing.EventStore.ReplayEvents: requires initiating payloads without an "events" key: such a payload would replace the list the replay appends to, and the append would then store the event inside its own payload, a cycle that values cannot hold. The lemmas about replays keep the list apart from the other keys.
- IEEE rounding, Decimal contexts, time zones, thread locks (each locked region is one step), HTTP, retries of the HTTP client, password hashing and tokens.
- Service registry fields that only travel along: health check URL, API key and metadata; the client's timeout and retry settings.
- Repositories, routes, mock data generators, risk, insurance and analytics code: no invariant of their own.
