# Lenclaw: the lending ledger and the services around it

A Dafny model of the parts of Lenclaw that keep money and state: the credit
ledger and the workers that write to it, credit scoring and its features, the
revenue bridge, liquidations, the x402 receipt list, the fiat ramp and the USDT
codec. `dafny verify dfyconfig.toml` checks everything.

## How it is modelled

- Money is in whole micro-units (Numeric(18,6)), times are microseconds, floats
  are reals. `Rounding` is the exact quotient rounded to nearest, ties to even:
  what `Decimal.quantize` does by default (roundTiesToEven, section 4.3.1 of
  IEEE 754-2008). Python's 28-digit intermediate context is idealised away: a
  product or ratio is exact until it is quantised. Request amounts are taken to
  be whole micro-units.
- Tables are maps or sequences in a `Database` object that the services update
  (`Tables`); a row's id is its position, standing for a fresh UUID. Each
  committed session is one atomic step. Every operation is given twice: as a
  function on states, and as a method that does it step by step and is proved
  to do the same.
- `Books` is the ledger under every writer at once: draws and repayments through
  the API, re-scoring, status changes, the overdue sweep and on-chain events, in
  any order. Its runs carry history: what the API repaid on each draw, how many
  repayments were accepted, what was paid in, the largest limit ever.
- `ChainSync` runs an execution to completion or lets it die before the commit,
  or between the commit and the cursor write. The chain head is assumed never to
  go backwards and blocks never to change.
- The network, clocks, signatures and connectors are parameters. SHA-256 is
  injective on payloads. log10 is any monotone function, exact at powers of ten
  where a value is stated.

## What is proved, in short

- In every run, whoever writes, the cached `used_amount` is within half a
  micro-unit per repayment of the exact outstanding principal plus the principal
  paid on chain, through the clamp at zero. The chain handler releases no
  credit, so what is paid on chain stays counted as used; without on-chain
  payments of the agent's draws the drift is rounding alone, and that bound is
  attained for every even number of repayments.
- The chain worker applies every event exactly once, whatever the log, while no
  execution dies between its commit and its cursor write; it is crash-safe for
  every schedule if and only if the log contains no repayment of an existing
  draw and no deposit withdrawn only before it was recorded. The comment
  "Idempotent by tx_hash" is false of repayments.
- Every window the bridge daemon moves past was reported and acknowledged
  exactly as collected, or held nothing valid, or covered no time; a polled
  agent's start moves if and only if one of its cycles did not fail. A connector
  error is not a failure, though: that connector's revenue is passed over.
- The one-pass drawdown is the largest fall over all pairs of days exactly when
  the running total never goes negative after being positive, or is furthest
  below zero on a day before which all positive totals were equal. A losing day
  is shown real only for a direct call of the extractor: the API admits amounts
  above 0 (`backend/src/revenue/schemas.py:11`), the lockbox sync records what
  the chain reports (`backend/src/workers/revenue_sync_worker.py:109-119`), and
  `backend/src/credit/ml_scoring.py:168-194` sums those records. Without losing
  days the drawdown is always 0.
- A payment nonce pays once, however verifications interleave, if and only if no
  request comes while another with its nonce awaits the facilitator.
- The USDT codec prints natural amounts exactly and reads them back; of negative
  ones it reads back only those whose fraction is 0 or has five digits, because a
  minus sign reaches the whole part only.
- Later sweeps absorb earlier ones; credit terms are monotone exactly up to the
  minimum-revenue step; debt is conserved; poll windows tile time; payloads are
  canonical; liquidation, pagination and order-binding invariants hold over
  every run.

Where the comments disagree with the code the model follows the code:
`scoring.py:82` says 1000, 10000 and 50000 dollars score 500, 800 and 1000, the
code scores them 400, 600 and at most 800;
`chain_sync_worker.py:97` says handling is idempotent by transaction hash,
which is false of repayments; `features.py:103-104` reads a positive value as
growth, which fails for a negative mean because the slope is divided by it;
`features.py:172` gives drawdown the range 0 to 1, which fails when a running
total turns negative after having been positive.

## Model

| member | source | states |
|---|---|---|
| Rounding.RoundIsNearestEven | backend/src/credit/service.py:134 | a quantised value is no further than half a unit from the exact one, and even on a tie |
| Rounding.NearestEvenUnique | backend/src/credit/service.py:223-225 | nearest-even determines the rounded value |
| Rounding.RoundMonotone | backend/src/credit/scoring.py:123 | rounding preserves order |
| Rounding.RoundError | backend/src/credit/service.py:223-225 | the rounding error as a real number is at most one half |
| Scoring.TierLookupFindsTier | backend/src/credit/scoring.py:136-140 | the lookup returns the tier whose threshold is reached while every earlier one is missed |
| Scoring.TierLookupMonotone | backend/src/credit/scoring.py:48-72 | a higher score never reaches a later tier |
| Scoring.ScoreIsWeightedMean | backend/src/credit/scoring.py:41-45 | the composite lies between bounds its four scaled components respect |
| Scoring.VerificationBonus | backend/src/credit/scoring.py:99-109 | verified code is worth exactly 100 points, capped at 1000 |
| Scoring.InputsWorth | backend/src/credit/scoring.py:41-45 | 4n of reputation, 0.4n of consistency and 2.5n of revenue score are each worth exactly n points, capped at 1000 |
| Scoring.ScoreMonotone | backend/src/credit/scoring.py:81-109 | the score lies in 0..1000 and never falls when any input improves |
| Scoring.TermsInRange | backend/src/credit/scoring.py:111-133 | ranges of the terms; below the minimum revenue all are 0; above it the line is 0 exactly when the score is below 200 |
| Scoring.TermsOfScore | backend/src/credit/scoring.py:48-72 | the line in monthly revenues, to the nearest cent, and both rates for every score, from 100 dollars of revenue on |
| Scoring.NothingBelowMinimum | backend/src/credit/scoring.py:111-119 | below 100 dollars an agent is scored and offered nothing |
| Scoring.CreditLineMonotone | backend/src/credit/scoring.py:78-133 | improving inputs never lowers score or credit line, at any revenue, through floor, tiers and quantize |
| Scoring.RatesMonotoneUnlessQualifying | backend/src/credit/scoring.py:111-133 | improving inputs never raises either rate, if and only if it does not lift revenue over the minimum |
| Scoring.TenfoldIsTwoHundred | backend/src/credit/scoring.py:81-91 | from 10^k to 10^(k+1) dollars the revenue score runs from 200 (k-1) to 200 k within 0..1000, for any logarithm exact at powers of ten |
| Scoring.TenDollarsScoreNothing | backend/src/credit/scoring.py:81-91 | up to ten dollars of revenue score 0 |
| Credit.InterestIsProRata | backend/src/credit/service.py:131-135 | interest is amount times annual rate times tenor over 365 days, to half a micro-unit |
| Credit.CreditService.ScoreAgent | backend/src/credit/service.py:44-115 | refuses absent or inactive agents; otherwise installs the computed terms and keeps what is used |
| Credit.CreditService.DrawCredit | backend/src/credit/service.py:117-161 | the error cases in order, or a new draw and the raised used amount |
| Credit.CreditService.RepayCredit | backend/src/credit/service.py:180-248 | the error cases in order, or the credited draw, the clamped release and what remains due |
| Credit.CreditService.GetOutstandingTotal | backend/src/credit/service.py:250-263 | the sum of remaining balances over the agent's active draws |
| Monitoring.MonitoringWorker.CreateAlertIfNew | backend/src/workers/monitoring_worker.py:231-252 | raises an alert unless one with the title is open |
| Monitoring.MonitoringWorker.FlagDelinquent | backend/src/workers/monitoring_worker.py:170-196 | the first pass leaves active agents delinquent exactly when they have an overdue draw, in any order of draws |
| Monitoring.MonitoringWorker.FlagDefaults | backend/src/workers/monitoring_worker.py:198-223 | the second pass defaults exactly the draws past 30 days and their agents |
| Monitoring.MonitoringWorker.CheckOverdueDraws | backend/src/workers/monitoring_worker.py:161-225 | both passes together equal the pointwise description of a sweep, with its two counts |
| Monitoring.SweepMoves | backend/src/workers/monitoring_worker.py:178-214 | any agent with a draw in default becomes Defaulted, an active one with an overdue draw Delinquent, and no other moves |
| Monitoring.SweepAlerts | backend/src/workers/monitoring_worker.py:231-252 | after a sweep an alert of a title is open for an agent if and only if it was or one of its draws calls for it; none is lost |
| Monitoring.CountsAreExact | backend/src/workers/monitoring_worker.py:170-225 | the two counts are the numbers of overdue and of defaulting draws |
| Monitoring.DefaultsSeenOnce | backend/src/workers/monitoring_worker.py:198-209 | an earlier sweep neither hides nor invents an agent's default |
| Monitoring.OverduePersists | backend/src/workers/monitoring_worker.py:170-187 | an overdue draw stays overdue until it defaults, and the earlier sweep leaves it alone |
| Monitoring.SweepAbsorbsEarlier | backend/src/workers/monitoring_worker.py:161-225 | sweeping at t1 then t2 leaves the statuses of sweeping at t2 alone, for t1 <= t2 |
| Monitoring.SweepIdempotent | backend/src/workers/monitoring_worker.py:161-252 | sweeping twice at one time changes nothing more, alerts included; open alerts stay unique per agent and title |
| ChainSync.ChainSyncWorker.ProcessEvent | backend/src/workers/chain_sync_worker.py:94-193 | what each of the four handlers does to the tables, unknown events doing nothing |
| ChainSync.ChainSyncWorker.ProcessEvents | backend/src/workers/chain_sync_worker.py:72-79 | the loop applies every event in order and counts them |
| ChainSync.ChainSyncWorker.ExecuteOnce | backend/src/workers/chain_sync_worker.py:60-88 | one execution, whole or dying before the commit or before the cursor write |
| ChainSync.BetweenIsFlat | backend/src/workers/chain_sync_worker.py:72 | a query returns the events of its blocks, each once and in order |
| ChainSync.DrawsFrame | backend/src/workers/chain_sync_worker.py:155-193 | an event writes only a draw's hash, and on an effective repayment its balance and status |
| ChainSync.RecordedDeposit | backend/src/workers/chain_sync_worker.py:114-153 | a recorded deposit is never recorded again and only ever becomes withdrawn |
| ChainSync.FirstDeposit | backend/src/workers/chain_sync_worker.py:114-153 | a new deposit comes from its first event and sees only later withdrawals |
| ChainSync.DrawAfter | backend/src/workers/chain_sync_worker.py:155-193 | after a batch a draw has every payment added and the hash of the last borrow |
| ChainSync.ReplayHarmlessIffSettled | backend/src/workers/chain_sync_worker.py:94-193 | applying a batch to its own result changes nothing if and only if the batch is settled |
| ChainSync.ExecuteKeepsOnePass | backend/src/workers/chain_sync_worker.py:60-88 | an execution after crashes still leaves one in-order pass up to the committed block |
| ChainSync.RunKeepsOnePass | backend/src/workers/chain_sync_worker.py:60-88 | over any schedule the cursor never passes the committed block, and on a clean log the tables are one pass |
| ChainSync.AppliedOnceInStep | backend/src/workers/chain_sync_worker.py:60-88 | if no execution dies between commit and cursor write, the cursor is the committed block and the tables are one pass, for every log, repayments included |
| ChainSync.CursorReachesHead | backend/src/workers/chain_sync_worker.py:82 | after any crashes an execution that does not die brings the cursor to the head it saw |
| ChainSync.CommittedTwice | backend/src/workers/chain_sync_worker.py:80-82 | dying between commit and cursor write applies the blocks twice |
| ChainSync.CrashSafeIffClean | backend/src/workers/chain_sync_worker.py:60-193 | crash safety for every schedule holds if and only if the log is clean |
| ChainSync.RepaymentBookedTwice | backend/src/workers/chain_sync_worker.py:171-187 | one on-chain repayment can be booked twice |
| Books.StepSound | backend/src/credit/service.py:199-228 | every writer keeps the tables sound: positive debts, a line behind each draw, REPAID exactly when covered |
| Books.DrawFallsDue | backend/src/credit/service.py:137 | a draw for n days is due after n days, overdue past n + 7 and defaulted by a sweep past n + 30, with its agent's status and alerts |
| Books.ClampedRelease | backend/src/credit/service.py:223-228 | the clamp never worsens the drift; the rounding adds at most one half |
| Books.RepayTracks | backend/src/credit/service.py:208-228 | one repayment keeps the used amount within the bound |
| Books.NextKeeps | backend/src/credit/service.py:117-228 | every operation of every writer keeps the books |
| Books.Run | backend/src/credit/service.py:117-228 | the books hold after every run from empty tables |
| Books.DriftLaw | backend/src/credit/service.py:117-228 | in every run, with every writer, used_amount is within k/2 micro-units of the exact outstanding principal plus the principal paid on chain, which is never negative |
| Books.DriftBound | backend/src/credit/service.py:208-228 | without on-chain payments of the agent's draws, used_amount is within k/2 micro-units of the exact outstanding principal after k repayments |
| Books.DriftOnceRepaid | backend/src/credit/service.py:215-228 | once every draw is repaid, used_amount is within k/2 micro-units of the principal paid on chain, so at most k/2 when none was |
| Books.DriftBoundAttained | backend/src/credit/service.py:223-228 | for every m a run of 2 m repayments leaves exactly m used and nothing outstanding |
| Books.CreditNeverOverstated | backend/src/workers/chain_sync_worker.py:171-193 | with every writer interleaved, used_amount is at least the outstanding principal less k/2 |
| Books.ChainRepaymentsReleaseNothing | backend/src/workers/chain_sync_worker.py:171-193 | an instance: a draw settled on chain leaves its whole principal counted as used |
| Books.DebtConserved | backend/src/credit/service.py:199-213 | all that was due plus all overpaid equals all paid plus active and defaulted balances; nothing is overpaid without on-chain repayments |
| Books.RepaidIffCovered | backend/src/credit/service.py:208-213 | in every run a draw is REPAID exactly when its payments cover what is due |
| Books.UsedWithinLargestLimit | backend/src/credit/service.py:126-151 | used_amount never exceeds the largest limit ever in force |
| Books.LimitWasInForce | backend/src/credit/service.py:77-91 | the largest limit is one that was in force, and none in force was larger |
| Books.OverLimitNeverRises | backend/src/credit/service.py:126-151 | only an accepted draw raises used_amount, and never past the current limit |
| Features.SpreadClosedForm | backend/src/credit/features.py:121-123 | the slope's denominator is n (n^2 - 1) / 12 |
| Features.ChebyshevRising | backend/src/credit/features.py:121-123 | a series that never falls has a non-negative covariance with its index, zero only if constant |
| Features.TrendSign | backend/src/credit/features.py:100-124 | the trend's sign tells growth from decline for a positive mean, and in general relative to the mean's sign; zero exactly when constant or mean 0 |
| Features.SlopeIsLeastSquares | backend/src/credit/features.py:103-123 | no line fits the series with less squared error than one with the extracted slope |
| Features.TrendIsRelativeSlope | backend/src/credit/features.py:108-124 | the trend times the mean is the least-squares slope; with under 7 days or a mean of 0 the trend is 0 |
| Features.GrowthShowsIff | backend/src/credit/features.py:103-124 | revenue that never falls gives a trend of at least 0 if and only if its mean is not negative or it is constant |
| Features.ShrinkingLossesShowDecline | backend/src/credit/features.py:103-104 | a growing week of losses whose trend is negative |
| Features.RunningPeakIsAllPairs | backend/src/credit/features.py:169-188 | the one-pass drawdown is the largest fall over all pairs of days if and only if the total never goes negative after being positive, or is furthest below zero on a day before which all positive totals were equal |
| Features.RunningPeakNeverOverstates | backend/src/credit/features.py:179-188 | it is never above the largest fall over all pairs |
| Features.RunningPeakMissesPairs | backend/src/credit/features.py:179-188 | a concrete series on which the two differ |
| Features.DrawdownRange | backend/src/credit/features.py:169-188 | the drawdown is non-negative, and at most 1 if and only if the total never goes negative after being positive |
| Features.NoLossNoDrawdown | backend/src/credit/features.py:169-188 | without a losing day the drawdown is 0 |
| Features.PaymentConsistency | backend/src/credit/features.py:127-143 | the fraction of repayments made on time, 0.5 without history |
| Features.ConsistencyRange | backend/src/credit/features.py:127-132 | it lies in 0..1 and is 1 exactly when all were on time |
| Decimals.TotalPermutes | bridge/oracle/service.py:138-140 | a running decimal total, printed digits included, does not depend on order |
| Decimals.TotalIsExact | bridge/oracle/service.py:138-140 | the running total is the exact sum |
| Decimals.BelowIsOrder | bridge/oracle/service.py:166-175 | decimals compare as numbers, whatever their scales |
| Text.SortPermutes | bridge/oracle/service.py:204 | sorted ids agree exactly when the ids do as multisets |
| Text.AtMostIff | bridge/oracle/service.py:204 | strings are ordered by code points: a prefix first, otherwise by the first difference |
| Text.LowerFolds | backend/src/x402/service.py:162-165 | lower-casing leaves no capital, changes nothing else and forgets case |
| Oracle.OracleService.AddTransactions | bridge/oracle/service.py:134-140 | a connector's transactions are appended, totalled and counted |
| Oracle.OracleService.AggregateRevenue | bridge/oracle/service.py:110-158 | the transactions of the agent's answering connectors in order, their total and count, who answered and who failed; other exceptions end the cycle |
| Oracle.OracleService.ValidateRevenue | bridge/oracle/service.py:164-196 | accepts exactly non-negative, non-empty, large enough aggregates with distinct ids |
| Oracle.ValidIffEnough | bridge/oracle/service.py:164-196 | a collection is accepted if and only if it is not empty, repeats no id, and its exact sum is at least 0 and at least the minimum |
| Oracle.OracleService.SignAttestation | bridge/oracle/service.py:217-252 | the attestation carries the hash and the next nonce; without a key, or with one that cannot sign, it raises |
| Oracle.OracleService.ProcessAgent | bridge/oracle/service.py:258-271 | fails exactly when a connector crashes or valid revenue cannot be signed; reports nothing exactly when what was collected is not valid; else attests what was collected |
| Oracle.HashIffSameRevenue | bridge/oracle/service.py:202-215 | hashes agree if and only if agent, window, total, count, currency and the multiset of ids do |
| Oracle.CollectedPermutes | bridge/oracle/service.py:126-136 | the order of connectors does not change what is collected |
| Oracle.CollectedIff | bridge/oracle/service.py:126-136 | a transaction is collected if and only if one of the agent's own connectors answered it |
| Oracle.PayloadLists | bridge/oracle/service.py:202-215 | the payload names agent, window, printed total and count and lists every id in code point order |
| Oracle.PayloadIsCanonical | bridge/oracle/service.py:126-215 | permuting connectors or transactions leaves the attested payload unchanged |
| Oracle.TotalOfCollected | bridge/oracle/service.py:126-145 | the total is the exact sum over what was collected, failing connectors aside |
| Oracle.EveryConnectorAccounted | bridge/oracle/service.py:126-145 | each connector of the agent reports with all its transactions or is listed as failing, one entry per connector |
| Daemon.BridgeDaemon.SubmitWithRetries | bridge/daemon.py:199-230 | stops at the first acknowledgement within max_retries; backoff sums to base (2^(n-1) - 1) |
| Daemon.BridgeDaemon.ProcessAgent | bridge/daemon.py:152-197 | a crash, or valid revenue unsigned or unacknowledged, changes nothing; any other cycle moves past its window, remembering the report if there was a new one |
| Daemon.CycleComesTo | bridge/daemon.py:160-197 | what each of the six ways through a cycle leaves of last poll and submitted hashes |
| Daemon.BridgeDaemon.PollCycle | bridge/daemon.py:138-150 | the agents' cycles, with what each was answered, compose into a run |
| Daemon.RunTiles | bridge/daemon.py:152-197 | each agent's windows are contiguous and end at its last poll |
| Daemon.WindowsTileTime | bridge/daemon.py:152-197 | no moment lies in two windows, and every moment after the first start and before the last poll, boundaries aside, lies in one |
| Daemon.FirstWindowReachesBack | bridge/daemon.py:155-158 | an agent's first window starts one poll interval before its end |
| Daemon.RetriedFromSameStart | bridge/daemon.py:152-197 | once polled, an agent's next window starts where it would have, through any further cycles, if and only if all its own failed |
| Daemon.CollectedRevenueAcknowledged | bridge/daemon.py:160-197 | in every run each window moved past was reported and acknowledged exactly as collected, or held nothing valid, or was empty |
| Daemon.ConnectorErrorsMovePast | bridge/oracle/service.py:142-145 | when all of an agent's connectors report errors the window is still moved past, with nothing in it |
| Daemon.RunAcknowledgesOnce | bridge/daemon.py:172-187 | no attestation is acknowledged twice |
| Daemon.RepeatedHashMeansEmptyWindow | bridge/daemon.py:172-180 | the idempotency check fires only for a window of no length |
| Liquidation.LiquidationService.CreateLiquidationForAgent | backend/src/liquidation/service.py:129-184 | the refusals, or a new pending liquidation |
| Liquidation.LiquidationService.TriggerLiquidation | backend/src/liquidation/service.py:78-125 | a pending liquidation goes to auction at 150% and 30% of the debt |
| Liquidation.LiquidationService.SettleLiquidation | backend/src/liquidation/service.py:188-256 | loss, rate, status and auction after settlement, in the three cases |
| Liquidation.LiquidationService.GetSummary | backend/src/liquidation/service.py:260-295 | the number of liquidations and of running auctions, the totals and the truncated overall rate |
| Liquidation.BpsTruncates | backend/src/liquidation/service.py:223-225 | rates are truncated towards zero, of negative amounts too |
| Liquidation.LifecycleCoherent | backend/src/liquidation/service.py:90-245 | at most one active liquidation per agent; status matches auction if and only if not settled with debt <= recovered <= 0 |
| Liquidation.SettledForNothingHappens | backend/src/liquidation/service.py:213-245 | a run that settles a debt of 0 with nothing, leaving a settled row with an expired auction |
| Liquidation.PortfolioBalances | backend/src/liquidation/service.py:213-281 | in every run debt is recovered, lost or open, up to recoveries outside 0..debt |
| Liquidation.TotalsBracket | backend/src/liquidation/service.py:223-225 | truncated individual rates bracket the totals |
| Liquidation.PortfolioRecovery | backend/src/liquidation/service.py:260-295 | when all are finished within their debts, debt is recovered plus lost and the overall rate lies between the smallest and largest |
| Usdt.FractionValue | agents/wdk-agent/src/config.ts:75-76 | six digits hold the fraction times 10^6, rounded down |
| Usdt.ParseIsFloor | agents/wdk-agent/src/config.ts:71-77 | every well-formed non-negative decimal parses to its value times 10^6, rounded down |
| Usdt.NegativeDecimal | agents/wdk-agent/src/config.ts:71-77 | a minus sign reaches the whole part only: a negative decimal parses to its value if and only if its first six decimals are 0 |
| Usdt.SecondPointIgnored | agents/wdk-agent/src/config.ts:72-73 | what follows a second point is ignored |
| Usdt.FormatIsExact | agents/wdk-agent/src/config.ts:82-87 | a non-negative amount prints as its exact value with six decimals and no leading zero |
| Usdt.RoundTripExactly | agents/wdk-agent/src/config.ts:71-87 | parsing a formatted amount gives it back for every natural, and for a negative exactly when its fraction is 0 or has five digits |
| X402.X402Service.RecordPayment | backend/src/x402/service.py:56-115 | the stored receipt, settled exactly when it has a hash, and its nonce marked used |
| X402.X402Service.IsNonceUsed | backend/src/x402/service.py:121-123 | true exactly when some receipt has the nonce |
| X402.X402Service.Admit | backend/src/x402/service.py:243-252 | the part before the await admits exactly authentic payments whose nonce no receipt has |
| X402.X402Service.VerifyPaymentReceipt | backend/src/x402/service.py:217-269 | uninterrupted, an authentic payment with an unused nonce is recorded, and nonces stay unique |
| X402.PaidOnceIffNoOverlap | backend/src/x402/service.py:251-269 | over every interleaving, nonces stay unique if and only if none is checked while another verification of it awaits the facilitator |
| X402.OverlapPaysTwice | backend/src/x402/service.py:251-269 | a request that overlaps another with its nonce pays a second time |
| X402.X402Service.VerifySettlement | backend/src/x402/service.py:189-215 | what a settlement query answers and changes |
| X402.SettlementQueryOnlyReads | backend/src/x402/service.py:205-215 | in reachable stores it never changes anything |
| X402.X402Service.ListPayments | backend/src/x402/service.py:140-183 | the requested page of the filtered, sorted listing and its total |
| X402.FilterFinds | backend/src/x402/service.py:161-167 | filters compare addresses without regard to case, an absent one lets all pass |
| X402.X402Service.GetTotalRevenue | backend/src/x402/service.py:353-361 | the sum of settled amounts, for one payee or all |
| X402.RevenueOfPayment | backend/src/x402/service.py:353-361 | a payment adds its amount to the revenue of its payee and of all if and only if it has a hash |
| X402.PagesTile | backend/src/x402/service.py:173-176 | the pages in order give the whole list and later pages are empty |
| X402.PagesAreFull | backend/src/x402/service.py:174-176 | every page is full but the last, which holds the rest |
| X402.NewestFirstSorts | backend/src/x402/service.py:170-171 | the sort keeps the receipts and puts the newest first |
| X402.NewestFirstStable | backend/src/x402/service.py:170-171 | receipts of one moment keep their order |
| X402.PaginationComplete | backend/src/x402/service.py:160-183 | all pages together show exactly the matching receipts, each as often as stored, newest first |
| Fiat.FiatRampService.CreateSession | backend/src/fiat/service.py:71-195 | unsupported requests are refused; otherwise a CREATED transaction without an order |
| Fiat.FiatRampService.ProcessWebhook | backend/src/fiat/service.py:218-283 | finds the transaction by order or by wallet and updates it, or is refused |
| Fiat.StatusTable | backend/src/fiat/service.py:47-58 | which provider statuses mean which status, without regard to case |
| Fiat.WebhookWrites | backend/src/fiat/service.py:231-273 | everything a webhook writes to its transaction, and that it writes nothing else |
| Fiat.TargetIsFree | backend/src/fiat/service.py:231-254 | a webhook reaches its order's transaction or an unbound one, and no other transaction has the order |
| Fiat.RunBinds | backend/src/fiat/service.py:86-283 | in every run CREATED means unbound, orders are distinct, completed transactions have a completion time |
| Fiat.RunKeeps | backend/src/fiat/service.py:254-273 | a binding, the user, the wallet and the type never change later |
| Fiat.OrderStaysBound | backend/src/fiat/service.py:231-235 | every later webhook of an order goes to the same transaction |
| Fiat.FirstWebhookTakesNewest | backend/src/fiat/service.py:237-254 | an order's first webhook takes the newest unbound transaction of its wallet, if any |

## Left out

- Arithmetic context: Python's 28-digit rounding of intermediate products and ratios, and amounts finer than a micro-unit.
- Update in place: rows are values that the tables' maps and sequences are reassigned with, so sharing of one row object between callers is not captured.
- Concurrency between sessions: each committed session is atomic; interleavings inside one request are modelled only for x402 verifications.
- Liquidation.LiquidationService.SettleLiquidation: does not model `pool_loss` (`backend/src/liquidation/service.py:226`, `:231`), because it is no column of the table: the assignment is never stored and nothing reads it.
- HTTP, SQL, Redis, RPC and retry plumbing, circuit breakers, logging and metrics.
- Chain reorganisations and a chain head that goes backwards; events without the fields the handlers need.
- Writers other than the chain worker during a crash schedule: a borrow event for a draw created meanwhile would be seen only by the replay.
- Signatures, SIWE and token authentication, HMAC checks; the facilitator's answer and on-chain submission are inputs.
- Numbers the scoring does not read (60 and 90 day revenue), and how revenue summaries and reputation are computed.
- Timestamps `last_scored_at`, `triggered_at`, `settled_at` of liquidations and transaction hashes stored but never read.
- Alert severities and messages, and the revenue-drop and utilisation checks of the monitoring worker.
- Features with a single branch (mean, tenure, utilisation, debt ratio, lockbox health) and the standard deviation, which needs square roots.
- The gradient-boosted model, its training data and portfolio risk reports.
- Ties in `created_at` among fiat transactions: rows are in strict creation order.
- Fiat `provider_tx_id`, widget URLs and rate quotes.
- Usdt.BigInt: strings with surrounding white space or in hexadecimal, octal or binary, which BigInt also accepts, are read as errors here.
- Lower- and upper-casing beyond ASCII.
- Solidity contracts, the zk prover, the wallet service, the lending agent and the frontend.
