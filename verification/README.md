# ForecastFoundry: verified models

Dafny models of the parts of ForecastFoundry where money, control and forecasts have to be right, with proofs about
every run and every input of those models. `dafny verify dfyconfig.toml` checks everything. Source lines are cited
in the table below; each file's opening comment names the code it follows.

**The paper ledger.** `PaperLedger` gives each transaction of `PaperLifecycle` as a function on the stored rows;
`Lifecycle.PaperLifecycle` is the class that performs them on its fields, each method proved equal to that function.
`PaperInvariant` holds the ledger's invariant: what an order, a fill and a position share; one decision and at most
one position for each signal; one settlement for each closed position; conservation of money; solvency. `PaperRuns`
extends it to every run of executions, marks, settlements and settlement passes, and proves that replays return the
first result. `PaperAnswers` says what each transaction answers and writes, in its arguments and the rows it found: when it
is refused and how, when an entry opens, what a mark and a settlement leave. `ControlledLedger` runs the ledger beside the control store: each execution reads its pause flag from the
control row of that moment, and pauses and resumes come in between. `PaperSchedule` shows that a position that fails within a pass never affects another. `Risk` proves the
sizing optimal.

**Execution control.** `ExecutionControl` is the pause/resume store: one row, its audit log, the bound requests. Its
invariant says that revision, events and requests count the same transitions and that event k leads from revision
k to k + 1. `ControlSessions` lets any number of sessions run `set_paused` at once, one database round trip at a time,
and proves the result linearizable: every response is what a call running alone would get at one revision between its
begin and its return, except a revision conflict without an expected revision, which happens only when another call
committed meanwhile.

**Forecasts.** `Buckets` (the adjacent-pair check against a partition of the whole degrees), `WeatherProbability` (the
pooled probability as a mixture of the runs on one model each), `ModelWeights` (the inverse-Brier gate),
`PooledForecast` (what the gate says about the pooled forecast itself), `CryptoEvent` and `Settlement` (forecast and
settlement decide the same event).

**Algorithms.** `OrderBook` (the greedy walk is the cheapest fill), `Candles` (normalization and horizon), `Backtest`
(split, profit and drawdown), `OperatorAuth` and `CircuitBreaker` (rate bounds, over the shared counting in `RateLimit`),
`Migrations` (the two consolidating migrations).

`Sums`, `Rounding`, `Products`, `Division`, `Text` and `Outcomes` are the arithmetic and small types these share.

## Where the code and its promise part

Each of these is stated exactly, with a concrete input and the condition under which the code does what is promised.

- Sizing compares with the market minimum before it rounds down, so an approved order can be below the minimum, down
  to no shares at all. Approved shares reach the minimum if and only if the minimum rounded up to 0.00000001 is
  affordable; a minimum that is a multiple of 0.00000001 is always met (`ApprovedMeetsMinimumIff`).
- The completeness check of temperature buckets asks for a difference of one between neighbours. Bounds such as 22.5 and
  23.5 pass and leave the reading 23 in no bucket. Accepted buckets partition the whole degrees if and only if their
  bounds are whole (`AcceptedPartitionsIff`).
- The crypto forecast rounds a price by the exponent of the increment, settlement by the increment itself. The two agree
  on every contract and price if and only if the increment is a power of ten, which the three the parser returns are
  (`EventsAgreeIff`).
- The backtest reports the drawdown of a list that holds only the total. It is the drawdown of the evaluated trades if
  and only if no trade lost, or the equity never rose above its start nor fell below its end (`ReportedIff`); four
  accepted records hide a loss of 0.5 (`HiddenLossExample`).
- The circuit breaker hears only of the exceptions that `request_json` names. One it does not name, such as a connection
  closed without an answer, leaves the breaker as it was: any number of such requests can be made, without pacing all at
  one instant (`EscapingRun`). The breaker bounds the attempts of every unanswered run if and only if no reply escapes, or
  the pacing alone takes a reset period for threshold * (max_retries + 1) attempts (`BreakerBoundIff`).
- `extract_samples` skips values it cannot read but raises on a stored NaN, whose range test is outside its handler
  (`ExtractSamples`).

## Model

| member | source | states |
|---|---|---|
| `Risk.ApprovedIff` | app/services/risk.py:45-80 | valid input is approved if and only if the data are fresh, the loss cap is clear and the market minimum is affordable under both caps |
| `Risk.ApprovedIsLargest` | app/services/risk.py:68-80 | approved shares are the largest multiple of 0.00000001 within the request that both caps admit, and the notional is their cost |
| `Risk.ApprovedMeetsMinimumIff` | app/services/risk.py:76-79 | approved shares reach the minimum exactly when the minimum rounded up to the quantum is affordable; always, when it is a multiple of it |
| `Risk.ApprovedBelowMinimumExample` | app/services/risk.py:77-79 | a minimum of half a quantum is approved with zero shares |
| `Risk.SizingMonotone` | app/services/risk.py:59-80 | more balance, less exposure or a lower price never approves fewer shares |
| `Risk.SizingRefuses` | app/services/risk.py:45-61 | which inputs are refused as invalid, for a minimum that is not positive, or for a request below the minimum; all others are decided |
| `Risk.RejectionReason` | app/services/risk.py:63-78 | a rejection sizes nothing and names the first of stale data, loss cap, exposure cap and minimum that stands in the way |
| `PaperInvariant.QuoteEqualsNotional` | app/services/paper.py:89-103 | the quote of a quantity totals the quantity times the price that sizing used: the two formulas for cost and fees agree |
| `PaperInvariant.TradeFits` | app/services/paper.py:375-434 | in a solvent ledger an approved trade's quote equals the sized notional, is within both caps and below the balance |
| `PaperInvariant.BalanceGuardNeverFires` | app/services/paper.py:433-434 | "exceeds available balance" is unreachable from any state that satisfies the invariant |
| `PaperInvariant.ExecuteKeeps` | app/services/paper.py:249-495 | executing any signal keeps the whole ledger invariant, money and at-most-once together |
| `PaperInvariant.MarkKeeps` | app/services/paper.py:593-609 | marking keeps it: no cash moves and the unrealized result follows the mark |
| `PaperInvariant.SettleKeeps` | app/services/paper.py:611-790 | settling keeps it: the payout enters the balance once, with the row that records it |
| `PaperRuns.RunKeeps` | app/services/paper.py:244-888 | the invariant holds after every run of executions, marks, settlements and passes |
| `PaperRuns.RunConserves` | app/services/paper.py:427-495 | after every run balance = start - open cost + realized, and balance + marked value = start + realized + unrealized |
| `PaperRuns.RunSolvent` | app/services/paper.py:346-493 | after every run cash is positive and open cost is within the exposure fraction of cost-basis equity, so losing every open position leaves the rest of it |
| `PaperRuns.RunAtMostOnce` | app/services/paper.py:286-305 | after every run each signal has at most one decision and, if approved, one order, fill and position of equal size; each closed position has one settlement |
| `PaperRuns.ExecuteReplays` | app/services/paper.py:286-298 | repeating a successful execution with the same bound arguments returns the identical result and changes nothing, after any ledger operations and whatever its gate says by then |
| `PaperRuns.SettleReplays` | app/services/paper.py:651-671 | the same for settlements, so a position is paid once however often it is settled |
| `PaperRuns.PositionsWereAllowed` | app/services/paper.py:497-561 | every position of a ledger run was opened by an execution whose gate was unpaused, whose contract was accepted and unexpired, and which no other reason stood against |
| `ControlledLedger.OpenedAtUnpausedRevision` | app/services/paper.py:501-502 | in every run with pauses and resumes, each position was opened by an execution that found the control row of some revision, and that row was unpaused |
| `ControlledLedger.PausedOpensNothing` | app/services/paper.py:501-502 | from any paused store on, no action opens a position until a resume commits |
| `ControlledLedger.PauseHolds` | app/services/execution_control.py:184-251 | between a pause that commits and the next resume that does, no position is opened, whatever is executed |
| `ControlledLedger.UnusedOpensNothing` | app/services/execution_control.py:58-79 | a new database, paused at bootstrap, opens no position before its first resume |
| `ControlledLedger.ReplaysThroughPauses` | app/services/paper.py:286-298 | a replay returns the identical result and changes nothing after any ledger and control actions, and while paused |
| `ControlledLedger.LedgerIsRun` | app/services/paper.py:497-515 | the ledger of a run with control actions is that of the ledger run with the flags it found, so its conservation and solvency carry over |
| `ControlledLedger.ControlledRunIsSafe` | app/services/paper.py:244-888 | both invariants, of control store and ledger, hold after every such run |
| `PaperRuns.OpenedEntryIsLargest` | app/services/paper.py:346-434 | an entry opens only above the daily loss cap and buys the most quanta whose quoted total fits the request and both caps |
| `PaperSchedule.PassIsolatesFailures` | app/services/paper.py:844-888 | in a pass each due position settles exactly when its own settlement would succeed alone, the rest stay as they were, and those due afterwards are exactly the error rows |
| `PaperSchedule.ScheduledIdsDiffer` | app/services/paper.py:866-876 | the settlements scheduled for different positions have different request ids |
| `PaperAnswers.BoundArguments` | app/services/paper.py:260-285 | who is refused before any look-up, and which sizes, actor and key every other request is bound to |
| `PaperAnswers.RepeatedExecution` | app/services/paper.py:286-305 | a decided signal answers with its stored result for exactly the arguments it was bound to and conflicts for any other; a used id conflicts; nothing is written |
| `PaperAnswers.GateDecides` | app/services/paper.py:306-342 | a first request is rejected at the gate if and only if it is paused, its contract is missing, unaccepted or expired, or another reason stands; result and decision carry exactly those reasons and no money moves |
| `PaperAnswers.EntryOpensIff` | app/services/paper.py:344-434 | past the gate a position opens if and only if sizes and price make sense, the day is above its loss cap, and the required size and one quantum are within the caps |
| `PaperAnswers.EntryRows` | app/services/paper.py:385-495 | every field of the decision, order, fill and position of an opened entry, the debited balance and the result |
| `PaperAnswers.DayMeaning` | app/services/paper.py:365-373 | the day of the loss cap is the UTC day of the call |
| `PaperAnswers.RealizedSinceMeaning` | app/services/paper.py:366-373 | a settlement counts towards the day's result exactly if it was settled from the day's start on |
| `PaperAnswers.MarkIsAnswered` | app/services/paper.py:593-609 | a mark in [0, 1] of an open position is stored with shares * mark - amount, which is returned, and nothing else changes; every other call is refused with its error |
| `PaperAnswers.MarkMovesValue` | app/services/paper.py:602-604 | the marked value of the book changes by the shares times the change of the mark |
| `PaperAnswers.FirstSettlement` | app/services/paper.py:680-790 | a first settlement found an open position on an accepted contract; its row, the closed position and the balance record one payout |
| `PaperAnswers.CryptoSettlementPays` | app/services/paper.py:730-790 | a crypto position is paid its shares exactly when it is on yes and the rounded price satisfies the comparison, or on no and it does not; otherwise nothing |
| `PaperAnswers.WeatherSettlementPays` | app/services/paper.py:730-790 | a weather position is paid its shares exactly when its label is that of the first bucket that holds the rounded reading |
| `PaperAnswers.WeatherEventPays` | app/services/paper.py:1066-1102 | on an accepted event with whole bounds the position on the label whose bucket holds the rounded reading is paid its shares and no other is |
| `PaperAnswers.SettlementRefuses` | app/services/paper.py:621-690 | each refusal of a first settlement and when it is given; nothing is written |
| `PaperAnswers.RepeatedSettlement` | app/services/paper.py:651-671 | a settled position answers with its stored settlement for the same actor, key and evidence and conflicts otherwise |
| `PaperAnswers.DueMeaning` | app/services/paper.py:847-865 | due are exactly the open positions whose signal's stored contract has an expiry that has come |
| `PaperAnswers.PassSettles` | app/services/paper.py:866-888 | a due position is settled by the scheduler with the evidence fetched for it against its own contract row, or becomes an error row |
| `Lifecycle.PaperLifecycle.LockedBalance` | app/services/paper.py:111-134 | the balance read is the stored one or the starting balance, and is stored afterwards |
| `Lifecycle.PaperLifecycle.ExecuteSignal` | app/services/paper.py:249-495 | the in-place transaction leaves exactly the rows and result of the specification, and keeps the invariant |
| `Lifecycle.PaperLifecycle.TradeSignal` | app/services/paper.py:346-495 | sizing, decision, order, fill, position and debit are all written; an error restores the balance and decision already written, so a call that raises moves no money |
| `Lifecycle.PaperLifecycle.MarkPosition` | app/services/paper.py:593-609 | the given mark and the result shares * mark - amount are stored on that row and returned, or the stated error leaves all as it was |
| `Lifecycle.PaperLifecycle.SettlePosition` | app/services/paper.py:611-790 | the in-place settlement leaves exactly the rows and result of the specification, and keeps the invariant |
| `Lifecycle.PaperLifecycle.RunDuePositions` | app/services/paper.py:844-888 | the worker's loop settles the positions selected at its start, one after the other, with an error row for each failure |
| `ExecutionControl.NormalizedAgain` | app/services/execution_control.py:157-161 | repeating a call with the texts it was bound to binds the same call |
| `ExecutionControl.SetPausedAnswers` | app/services/execution_control.py:148-251 | from the caller's arguments: the pause flag is set as asked at the next revision with its event and bound request, a bound call repeats its snapshot, and each of the three refusals comes exactly when it should |
| `ExecutionControl.FirstResumeResumes` | app/services/execution_control.py:148-251 | on a new store any resume with a reason succeeds and leaves the row unpaused at revision 1 |
| `ExecutionControl.CommitKeeps` | app/services/execution_control.py:184-251 | a commit of an unbound id at the expected revision keeps revision, audit log and requests in step |
| `ExecutionControl.TransitionKeeps` | app/services/execution_control.py:148-251 | every call keeps the store's invariant, and a conflict leaves row, log and requests as they were |
| `ExecutionControl.LogRebuildsRow` | app/services/execution_control.py:210-222 | folding the audit log rebuilds the row at every revision; event k carries revision k + 1 and, as its previous state, what the events before it left |
| `ExecutionControl.RetryIsIdempotent` | app/services/execution_control.py:110-135 | once a call has succeeded, repeating it against any later store returns the same snapshot and changes nothing |
| `ExecutionControl.Control.SetPaused` | app/services/execution_control.py:148-251 | the in-place call gives every answer of `SetPausedAnswers` and keeps the invariant |
| `ExecutionControl.Control.FetchRow` | app/services/execution_control.py:58-79 | the row read is the stored one or the paused bootstrap row, and is stored afterwards |
| `ControlSessions.StepKeeps` | app/services/execution_control.py:163-251 | any step of any session keeps the inductive invariant, and what was recorded stays recorded |
| `ControlSessions.StepMeaning` | app/services/execution_control.py:163-171 | a call begins in an idle session only, an abandoned session writes nothing, and a bound id is answered at the first check |
| `ControlSessions.Linearizable` | app/services/execution_control.py:163-251 | in every interleaving the store's invariant holds, each response is that of a call alone at one revision inside its interval or an overtaken conflict, and the applied calls are the bound requests in order |
| `ControlSessions.SameIdSameResult` | app/services/execution_control.py:163-209 | two successes with one request id share arguments and snapshot, with or without an expected revision |
| `ControlSessions.OneCommitPerRevision` | app/services/execution_control.py:184-209 | no two calls commit at one revision, and no request id is applied twice |
| `ControlSessions.RepeatAfterSuccess` | app/services/execution_control.py:163-183 | a call begun after an equal call had succeeded returns that call's snapshot; it can neither fail nor apply again |
| `ControlSessions.SoloRunIsTransition` | app/services/execution_control.py:148-251 | a session that runs without others is the sequential specification |
| `ControlSessions.SecondCheckNeeded` | app/services/execution_control.py:172-183 | a session past the first check can hold the current row while its id is already bound, which only the second check sees |
| `Buckets.AcceptedPartitionsIff` | app/services/rules.py:102-115 | an accepted set of inclusive buckets puts every whole degree in exactly one bucket if and only if its bounds are whole, in whatever order they came |
| `Buckets.AcceptsExactlyPartitions` | app/services/rules.py:102-115 | on inclusive, non-empty, whole bounds the check accepts exactly the partitions of the whole degrees |
| `Buckets.FractionalBoundsExample` | app/services/rules.py:102-115 | bounds 22.5 and 23.5 are accepted, and 23 is in no bucket |
| `Buckets.RefusalMeaning` | app/services/rules.py:102-115 | on inclusive, non-empty, whole bounds an overlap refusal means some degree is held twice, a gap refusal that some degree is held by none |
| `Buckets.BucketHolds` | app/schemas.py:68-79 | a bucket holds what is strictly between its ends, nothing beyond them, and an end exactly when it is included |
| `Buckets.ParsedHolds` | app/services/rules.py:67-85 | a parsed label holds the values its direction names, and keeps its text |
| `Buckets.SameLabelIff` | app/services/rules.py:62-64 | two labels are the same exactly when, without the mojibake character, they have the same words |
| `Buckets.LookupFindsTheOne` | app/schemas.py:68-79 | in an accepted family the first bucket found is the only one that contains the reading |
| `Rounding.RoundWholeMeaning` | app/services/probability.py:25-33 | floor and ceiling bracket the value from their sides; half-up is nearest, a tie going away from zero |
| `Buckets.ExactlyOneLabelSettlesYes` | app/services/paper.py:1066-1086 | of an event's labels exactly one settles YES for any whole reading |
| `CryptoEvent.RoundingsAgreeIff` | app/services/crypto_probability.py:141-146 | quantizing and rounding to a multiple coincide on all prices if and only if the increment is a power of ten |
| `CryptoEvent.RoundsToNearest` | app/services/paper.py:976 | the settlement rounding is the only multiple of the increment within half of it, the upper one of two |
| `CryptoEvent.SettlementMeaning` | app/services/paper.py:976-990 | settlement answers YES exactly when that multiple satisfies the comparison with the contract's boundary |
| `CryptoEvent.ForecastMeaning` | app/services/crypto_probability.py:141-151 | the forecast asks the same comparison of the nearest multiple of the increment's power of ten |
| `CryptoEvent.EventsAgreeIff` | app/services/paper.py:965-990 | forecast and settlement agree on all comparisons, boundaries and prices if and only if the increment is a power of ten |
| `CryptoEvent.ParsedContractsAgree` | app/domains/crypto.py:261-268 | for the increments the parser returns, forecast and settlement decide the same event |
| `CryptoEvent.HitsResolveYes` | app/services/crypto_probability.py:137-151 | with the contract's own increment, a power of ten, the hits are exactly the paths that would resolve YES |
| `CryptoEvent.EventProbability` | app/services/crypto_probability.py:127-152 | the counting loop returns the share of hits, rounded or not, with its three errors, and with a parsed increment the share of paths that resolve YES |
| `Settlement.CryptoSettlesTheForecastEvent` | app/services/paper.py:902-993 | a derivable crypto outcome is YES exactly when the forecast's event test holds of the settlement price |
| `Settlement.DeriveRefuses` | app/services/paper.py:902-925 | evidence for another contract, from another source or moment, or with a contradicting claim settles nothing, with the error of the first that applies |
| `Settlement.CryptoDerivation` | app/services/paper.py:918-993 | when evidence settles a crypto contract, and that the outcome is YES exactly when the rounded price satisfies the comparison |
| `Settlement.WeatherDerivation` | app/services/paper.py:996-1102 | when evidence settles a weather contract, and that the outcome is YES exactly on the label of the bucket found |
| `Settlement.CryptoPaysOneSide` | app/services/paper.py:720-733 | on the same evidence the yes position is paid exactly when the outcome is YES and the no position exactly when it is NO |
| `Settlement.WeatherPaysOneLabel` | app/services/paper.py:996-1102 | the markets of an accepted event with whole bounds, each with its own contract and evidence of a common reading, all resolve and exactly one pays |
| `WeatherProbability.CalculateProbabilities` | app/services/probability.py:48-110 | the loops compute the closed form: weights, mapped mass by label, normalization, and counts that add up to the members |
| `WeatherProbability.GroupByModel` | app/services/probability.py:57-64 | the dictionary holds each model's valid members in order, its keys in order of first appearance |
| `WeatherProbability.MemberLabel` | app/services/probability.py:86-93 | a valid member falls under the label of the first bucket that holds its value plus its bias, rounded, and under none if no bucket does |
| `WeatherProbability.ForecastCounts` | app/services/probability.py:57-101 | the valid count is the number of valid members in some bucket, the excluded are all the others, and the keys are the labels and the models |
| `WeatherProbability.DefaultWeightIsOne` | app/services/probability.py:76 | a model without a stored weight weighs as if it were one |
| `WeatherProbability.NormalProportional` | app/services/probability.py:76-80 | normalized weights are in proportion to the stored ones |
| `WeatherProbability.AloneIsShare` | app/services/probability.py:84-101 | a model alone gives a label the share of its mapped members that fall under it |
| `WeatherProbability.ProbabilitiesSum` | app/services/probability.py:84-101 | the probabilities sum to one exactly when the mapped members carry weight, otherwise to zero |
| `WeatherProbability.ProbabilityRange` | app/services/probability.py:76-101 | with weights that are not negative each probability lies in [0, 1] |
| `WeatherProbability.PoolIsMixture` | app/services/probability.py:76-101 | for any members and weights the pool is the average of the one-model runs, each weighted by its weight times its mapped share |
| `WeatherProbability.RecordedIsMixture` | app/worker.py:528-539 | with every valid member mapped, the recorded probability is the normalized-weight average of what is recorded for each model alone |
| `WeatherProbability.AcceptedBucketsMapAll` | app/services/probability.py:88-93 | an accepted bucket family on whole bounds maps every member, whatever its temperature and rounding |
| `ModelWeights.ExtractSamples` | app/services/model_weights.py:20-38 | it raises exactly when some model is bound to a NaN; otherwise each model gets exactly its readings that are probabilities, in order, and an entry only if it has one |
| `ModelWeights.CollectedAreReadings` | app/services/model_weights.py:26-37 | the samples of a model are the probabilities that signals bind it to, with the signals' outcomes |
| `ModelWeights.ScoreMeaning` | app/services/model_weights.py:41-46 | the score times the number of samples is the sum of (1 - p)^2 over the won samples plus the sum of p^2 over the lost ones |
| `ModelWeights.PerfectIff` | app/services/model_weights.py:41-46 | a score is zero exactly when every won sample said one and every lost one zero |
| `ModelWeights.CloserIsBetter` | app/services/model_weights.py:41-46 | moving one probability towards its own outcome strictly lowers the score |
| `ModelWeights.AlwaysRightTakesAll` | app/services/model_weights.py:55-61 | with enough samples the first model that was always right with certainty gets all the weight |
| `ModelWeights.InverseWeightsMeaning` | app/services/model_weights.py:63-65 | the weights are positive, sum to one and reverse the order of the scores |
| `ModelWeights.BlendIsHarmonicMean` | app/services/model_weights.py:62-67 | the blend score is the harmonic mean, at most the baseline, and equal to it exactly when all scores are equal |
| `ModelWeights.PromotedIff` | app/services/model_weights.py:49-70 | weights are promoted exactly when samples suffice and a model is perfect or the harmonic mean beats the baseline by the required share |
| `ModelWeights.PromotedWeights` | app/services/model_weights.py:57-70 | promoted weights are a probability vector in which a heavier model never has a worse score |
| `ModelWeights.EqualModelsNotPromoted` | app/services/model_weights.py:68-69 | models that score alike are never promoted when an improvement is required |
| `PooledForecast.Jensen` | app/services/model_weights.py:67 | the squared miss of a weighted forecast is at most the weighted squared misses |
| `PooledForecast.PoolWithinBlend` | app/services/model_weights.py:67 | on the events judged, the Brier score of the pooled forecast is at most the blend score the gate computes |
| `PooledForecast.GateBindsThePool` | app/services/model_weights.py:49-70 | promoted weights give, on the events judged, a pooled forecast better than the average model by the required share, and a perfect one when a model was perfect |
| `OrderBook.ExecutionVwap` | app/services/crypto_pipeline.py:765-774 | the walk returns the specified average price |
| `OrderBook.GreedyIsCheapest` | app/services/crypto_pipeline.py:765-774 | on ascending asks no allocation within the level sizes that sums to the required size costs less |
| `OrderBook.VwapIsCheapest` | app/services/crypto_pipeline.py:765-774 | the price times the size is the least cost of any fill; no price means that the depth is too small |
| `OrderBook.VwapBetween` | app/services/crypto_pipeline.py:765-774 | the price lies between the best ask and the last level reached |
| `OrderBook.VwapMonotone` | app/services/crypto_pipeline.py:765-774 | asking for more never lowers the average price |
| `OrderBook.AcceptedBook` | app/services/crypto_pipeline.py:674-705 | a validated book has ascending positive asks, its best ask is the cheapest, and a size has a price exactly when it is within the depth |
| `OrderBook.AcceptedBookIff` | app/services/crypto_pipeline.py:674-705 | a book of valid levels is accepted exactly when asks ascend, bids descend, best prices, spread, midpoint and depth are those of the sides, and prices are whole multiples of a positive tick |
| `Candles.AcceptedSeries` | app/services/crypto_data.py:183-222 | an accepted series is the rows in ascending order less at most the newest, dropped exactly when still running; consecutive, aligned, complete, long enough and fresh |
| `Candles.AcceptedIff` | app/services/crypto_data.py:160-216 | rows are accepted exactly when source, interval, closes and order are good and the ordered candles are aligned, without gap, none from the future, enough finished ones, and fresh |
| `Candles.FlagsMeaning` | app/services/crypto_data.py:187-214 | the flags say whether the rows were turned round and whether a running candle was dropped |
| `Candles.CoinbaseOrderIrrelevant` | app/services/crypto_data.py:190-198 | descending and ascending Coinbase rows give the same series or the same error, whatever the rows |
| `Candles.RatiosTelescope` | app/services/crypto_data.py:219-222 | the close ratios multiply to last over first |
| `Candles.AlignedExpiryAccepted` | app/services/crypto_pipeline.py:640-645 | an expiry a whole number of intervals ahead, up to the maximum, gets that number as its horizon |
| `Candles.AcceptedHorizon` | app/services/crypto_pipeline.py:640-645 | for the whole-second expiries the parser yields, on an accepted series of two or more candles, the horizon is h exactly when the expiry is h intervals after the last candle closed and 1 <= h <= 744 |
| `OperatorAuth.FailuresStayBelow` | app/services/operator_auth.py:90-100 | in every run the stored failure count is below five |
| `OperatorAuth.LockoutBound` | app/services/operator_auth.py:82-100 | without a success at most 5 * (T / 60 s + 1) attempts in T have their token looked at |
| `OperatorAuth.BoundIsTight` | app/services/operator_auth.py:82-100 | five guesses at the start of every minute attain the bound, for any number of minutes |
| `OperatorAuth.AttemptIsAnswered` | app/services/operator_auth.py:68-100 | every verdict and what it leaves: granted exactly for a good token of a live, unblocked credential with the permission, the fifth failure blocks for a minute |
| `OperatorAuth.BootstrapMeaning` | app/services/operator_auth.py:50-66 | the bootstrapped credential can pause, resume and read for thirty days and nothing else |
| `OperatorAuth.Service.Authenticate` | app/services/operator_auth.py:68-100 | the in-place call returns the specified verdict and leaves the specified credential, created from the bootstrap token if missing |
| `CircuitBreaker.OpenIffFailing` | app/services/http.py:33-52 | under any interleaving of the three locked operations the circuit is open exactly when the failures have reached the threshold |
| `CircuitBreaker.OpenIffFailingNeedsThreshold` | app/services/http.py:19-52 | a new breaker has that property under all operations if and only if its threshold, which nothing checks, is positive |
| `CircuitBreaker.BreakerMeaning` | app/services/http.py:33-52 | failures count from the last success; from the threshold on requests are refused until the reset after the last failure, and then admitted with a clean count |
| `CircuitBreaker.RetryMeaning` | app/services/http.py:84-103 | the loop stops at the first reply that is not transient or after the last retry, with one attempt more than the replies it went past |
| `CircuitBreaker.RequestMeaning` | app/services/http.py:84-109 | what a request returns for the reply its loop ends with, and after how many attempts |
| `CircuitBreaker.AttemptsAreSpaced` | app/services/http.py:77-82 | consecutive releases of transport attempts, across requests, are at least the minimum interval apart |
| `CircuitBreaker.RequestOperates` | app/services/http.py:84-109 | a request asks the breaker once and records once how it ended, unless it was refused or an exception escaped |
| `CircuitBreaker.AttemptBound` | app/services/http.py:84-109 | sequential callers of a provider that never answers make at most (threshold * (T / reset + 1) + escaped requests) * (max_retries + 1) attempts in T |
| `CircuitBreaker.EscapingRun` | app/services/http.py:92-103 | n requests whose exceptions escape make n attempts, an interval apart or all at one instant without one, and the breaker stays closed, for every n |
| `CircuitBreaker.BreakerBoundIff` | app/services/http.py:33-109 | threshold * (max_retries + 1) * (T / reset + 1) bounds the attempts of all unanswered runs if and only if no reply of the provider escapes or a batch of that many paced attempts takes a reset period |
| `CircuitBreaker.ResilientHttpClient.RequestJson` | app/services/http.py:84-109 | the in-place request leaves the breaker, pacing mark, releases and outcome of the specification, also where an exception escapes |
| `Migrations.Unique0006` | alembic/versions/0006_domain_contract_identity.py:45-75 | afterwards market and domain, and fingerprints, are unique, the same identities remain and no reference dangles |
| `Migrations.NewestKept` | alembic/versions/0006_domain_contract_identity.py:52-68 | exactly the newest contract of each market and domain is left, and predictions point at it |
| `Migrations.JoinsSurvive0006` | alembic/versions/0006_domain_contract_identity.py:61-68 | every prediction stays and joins to the same market, domain and input hash |
| `Migrations.Unique0007` | alembic/versions/0007_crypto_evidence_signals.py:48-80 | exactly the oldest prediction of each contract and input, and every one without a contract, survives; features and metrics all stay and none dangles |
| `Migrations.OldestKept` | alembic/versions/0007_crypto_evidence_signals.py:56-79 | exactly the oldest prediction of each contract and input is left, and every one without a contract |
| `Migrations.JoinsSurvive0007` | alembic/versions/0007_crypto_evidence_signals.py:68-79 | every feature and metric joins to the same market, domain and input hash as before |
| `Migrations.BothMigrations` | alembic/versions/0007_crypto_evidence_signals.py:48-80 | both in order: uniqueness of market, domain and input hash, valid references and unchanged joins |
| `Migrations.Tables.Upgrade0006` | alembic/versions/0006_domain_contract_identity.py:45-75 | the loop over identities reaches the specified tables, in whatever order it takes them |
| `Migrations.Tables.Upgrade0007` | alembic/versions/0007_crypto_evidence_signals.py:48-80 | the loop over duplicate keys reaches the specified tables, in whatever order it takes them |
| `Backtest.SplitIsTemporal` | app/services/backtest.py:24-37 | the split loses and repeats no record, both sides are non-empty, and every training row and its features precede every evaluation row |
| `Backtest.SplitMeaning` | app/services/backtest.py:22-37 | three fifths of the rows train, rounded down, and each refusal comes exactly when it should |
| `Backtest.RowTrades` | app/services/backtest.py:55-63 | a row trades when forecast and price are a buffer apart and it costs between nothing and one, and pays its outcome less price, fee and slippage |
| `Backtest.Evaluate` | app/services/backtest.py:52-64 | profit, turnover and trade count are the sums over exactly the rows that clear buffer and cost |
| `Backtest.ProfitIsPayoutLessTurnover` | app/services/backtest.py:52-64 | profit is the traded outcomes less the turnover, and within one per trade |
| `Backtest.MaxDrawdown` | app/services/backtest.py:146-154 | the one pass returns the largest fall over all pairs of points of the equity curve, starting at zero |
| `Backtest.EvaluateAndReport` | app/services/backtest.py:49-65 | profit is the equity after the last evaluated trade, and the reported drawdown is that of the profit alone |
| `Backtest.ReportedIff` | app/services/backtest.py:52-65 | the reported drawdown of evaluation rows is at most that of their trades, and equal exactly when no trade lost or the equity stayed between its end and its start |
| `Backtest.HiddenLossExample` | app/services/backtest.py:18-65 | four accepted records lose 0.5 and then win 0.6 in evaluation, and the report shows no drawdown |

## Left out

- Arithmetic is exact: Decimal context precision, the Numeric(18,8) columns and binary floats are not modelled; only the explicit `quantize` and rounding calls are.
- An execution reads the control row inside its own serialized transaction; a pause that commits while it runs comes before or after it.
- Each portfolio write is one serialized, committed transaction and an exception rolls it back. Row locks, savepoints, the session's identity map and the integrity-error fallbacks behind them are not modelled.
- Hashes are injective: request fingerprints are the bound arguments themselves, derived contract fingerprints the identity. Token checks are an input. Intermediate collisions with a unique fingerprint column during migration 0006 are not modelled.
- Clocks are parameters. `updated_at` of the bootstrap control row is fixed at zero.
- The control protocol's compare-and-swap, inserts and commit are one step; sessions that hold a transaction open across other calls are not modelled.
- The eligibility reasons about market state, evidence and freshness reach an execution as one list; only pause, contract acceptance and expiry are read in detail.
- Settlement evidence is the fields the derivation reads; raw payload shape, observation sets and their hash comparisons, the daily maximum and the Fahrenheit conversion are collapsed into the reading. Agreement between fetcher and deriver is not claimed.
- The legacy `open_paper_position` and `settle_paper_position`, with their own fixed balance, and settlement rows without a request id.
- Evidence attempts, calibration tables and the Brier score's use after a settlement.
- Bucket labels: what the regular expression reads from a label is a parameter; only canonicalization and the shapes it yields are modelled. Upper and lower case are the ASCII ones.
- Of `calculate_probabilities`: ensemble spread and uncertainty, and the Fahrenheit helpers.
- Of `estimate_crypto_probability`: bootstrap draws, EWMA volatility and quantiles; the sampled final prices are inputs.
- Of `normalize_candles`: coercion of raw rows; an accepted timestamp is microseconds and a close is a real. Logarithms of the ratios, the series cache and provider endpoints.
- The order-book walk's callers: matching books to outcomes, candidate ranking and signal reasons.
- The retry delay's size (`Retry-After`, exponential back-off) is an input of the client; concurrent callers of one breaker are not bounded, since those admitted before it opens all run. Which exceptions of the transport escape is not modelled, only that one can.
- GateBindsThePool: stated for events whose ensembles have valid members of exactly the weighed models, each in some bucket; a model that misses an event changes the normalization there. Storing and loading the weights is taken as exact.
- AttemptsAreSpaced: about release times; network delay between release and sending is outside the client. `asyncio.sleep` is taken to sleep at least as long as asked.
- LockoutBound: calls are one after the other on one committed credential; lost updates of concurrent sessions and `rotate` are not modelled.
- SplitIsTemporal: three fifths is exact where the code multiplies by the float 0.6; log loss and bootstrap intervals are left out.
- Routes, dashboard, CLI, MCP adapters, Telegram, WebSocket, schedulers, live submission and configuration.
