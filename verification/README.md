# A model of the trading agent's ledgers, loops and locks

The agent opens and closes liquidity positions, sells what a close leaves behind, and lets a language
model drive tools. This project models the parts of it that keep state and must not lose anything: the
settlement ledger with its liquidation queue and sweep, the exit machine of a position, the reasoning
loop with its once-per-session lock, the async mutex and the daemon's busy flags, and four smaller
cores (per-pool memory, smart-wallet vetoes, signal weights, the `.env` printer and parser).

State that the program updates in place is a class with those fields, and each method states its whole
new state through a function of the old one. What holds over many operations is proved about those
functions, over arbitrary sequences of operations, readings, replies, steps or sweeps.

| files | what they model |
|---|---|
| `Ledger`, `LedgerTheorems`, `SettlementTheorems` | closed trades: booking, settling, writing down, reconciling, marking to market, the summary |
| `LiquidationQueue`, `QueueTheorems`, `Swaps`, `SaleTheorems`, `Sweeper`, `SweepTheorems` | the backlog of unsold tokens and its histories, one sale with retries, one sweep, any number of sweeps |
| `Positions`, `PositionTheorems`, `ExitTheorems` | confirmed peak, trailing exit, debouncer, out-of-range timer, poller tick, swap-failure breaker |
| `Text`, `ToolNames`, `AgentTurn`, `TurnTheorems`, `AgentLoop` | tool-name clean-up, interleaved tool calls and their lock, the loop with its message history |
| `Mutex`, `DaemonLocks` | the promise-chain mutex and the busy flags, as step systems |
| `PoolMemory`, `PoolTheorems`, `PoolLedger` | figures and pauses per pool and token, and how the ledger feeds them |
| `EnvFile`, `EnvFileTheorems` | escaping, updating and parsing the `.env` file |
| `SmartWallets` | baseline, deployed and vetoed smart-wallet positions |
| `SignalWeights`, `SignalTheorems` | lifts, quartiles, boost and decay |
| `Money`, `Options` | rounding and absent values |

Money and weights are exact reals with the program's rounding written out. `now` is a parameter.
Ledger operations are atomic, as they run under the write-tools lock. `""` is an absent address.
Wallet contents, swap answers, model replies and tool results are arbitrary inputs.

## What the proofs show about the code

Most laws hold as intended. Where one does not hold on all inputs, the model keeps the code as it is and
states exactly when it does:

- A close whose final value was never fetched (zero) while priced tokens are held arrives with figures
  that do not add up, and so does one with a negative final value; all others add up
  (`LedgerTheorems.AccountingArrivesBalanced`; `LedgerTheorems.UnfetchedValueArrivesUnbalanced` is such a close).
- Settling or abandoning a token through a queue entry that names a position leaves the other trades of
  that token pending, and the next complete sweep writes those down to their cash
  (`LedgerTheorems.ClosingAMintClearsItIff`, `LedgerTheorems.SiblingStaysPending`,
  `LedgerTheorems.ReconciliationLeavesOnlyTracked`). In the same way a sale of a token without a queue
  entry is not booked (`LiquidationQueue.TokenQueue.MarkSuccess`).
- The agent loop cleans a tool name once and the executor cleans it twice more. The pattern does not
  cross a line break, so a name with decorations on two lines is one tool to the loop's
  once-per-session table and another to the executor. The rule that a deploy goes through at most once
  holds for a spelling exactly when both agree on it (`AgentTurn.DeploysOnceIff`); names on one line
  always qualify. The write lock is decided for the tool that runs, except exactly when a write tool runs
  whose name still had a decoration after two passes (`ToolNames.LockedIff`), as three lines of
  decorations give (`ToolNames.ThreeLineDecorationsMissTheLock`).
- An `.env` update goes through `String.replace`, which expands `$` patterns. A value survives in every
  plain file that does not set the key again further down exactly when it has no line feed and no such
  pattern (`EnvFileTheorems.SurvivesIff`).
- A screening cycle that an opportunity tick asks for is suppressed when another one ran out of capital
  since the tick looked, and then returns with its busy flag raised
  (`DaemonLocks.OneSuppressedCycleLosesTheFlag`). After one such return no screening cycle and no poll
  starts again (`DaemonLocks.SuppressedScreeningStopsPolling`); without that race every flag is given
  back (`DaemonLocks.NoRaceNoLoss`).
- A low-yield close overwrites a longer stop-loss pause of the same pool. It cuts the pause short exactly
  when the pause it sets ends first; that is four hours after it, unless it is also a stop loss or a
  repetition rule applies (`PoolMemory.LowYieldCutsPauseIff`). With the default settings a stop loss an hour
  earlier loses seven of its twelve hours (`PoolMemory.LowYieldCutsDefaultPause`).
- An abandoned token is pending again exactly when it was registered as pending later and nothing ended
  that (`QueueTheorems.PendingAgainIff`). Its attempts and age are kept, unless its tombstone was cleared in
  between: then it starts afresh (`QueueTheorems.AbandonedMintComesBack`, `QueueTheorems.ClearedTombstoneStartsAfresh`).
- A pool can be known without a single settled trade: a snapshot of an open position or a note enters it.
  It is known exactly when one of them did or a trade of it settled; figures and pauses come from settled
  trades alone (`PoolLedger.PoolFiguresAreItsTrades`, `PoolLedger.SnapshotMakesKnown`).

## Model

| member | source | states |
|---|---|---|
| Ledger.TradeLedger.RecordPerformance | packages/core/src/domain/lessons.ts:60-177 | a close is dropped or appended with its figures, and reaches its pool's history at once only when it is settled |
| Ledger.TradeLedger.RecordPoolDeploy | packages/core/src/domain/pool-memory.ts:107-155 | one line is appended to the pool's history, and none without a pool; `PoolLedger` ties the figures and pauses to these lines |
| Ledger.TradeLedger.SettleTradeLiquidation | packages/core/src/domain/lessons.ts:720-836 | the trades singled out by position or mint are closed with the proceeds credited to the first of them; `SettlementTheorems.SettlementPaysTheFirst` gives the amounts |
| Ledger.TradeLedger.AbandonTradeLiquidation | packages/core/src/domain/lessons.ts:847-956 | the same trades are written down to their cash |
| Ledger.TradeLedger.ReconcileOrphanedPendingSwaps | packages/core/src/domain/lessons.ts:976-1046 | every pending trade whose mint is not pending in the queue is written down |
| Ledger.TradeLedger.UpdatePendingTradesMarkToMarket | packages/core/src/domain/lessons.ts:1052-1103 | exactly the pending trades with a price are revalued, to the values of `SettlementTheorems.MarkingValuesUnsoldTokens`, and the answer says whether any was |
| Ledger.TradeLedger.GetPerformanceSummary | packages/core/src/domain/lessons.ts:1170-1216 | the one-pass counts, totals, averages and win rate are those of all trades and of the settled ones, or nothing without trades |
| LedgerTheorems.SummaryAddsUp | packages/core/src/domain/lessons.ts:1170-1216 | after any history of the five operations, total profit is cash profit plus unsold value, to a cent per trade and the output rounding |
| LedgerTheorems.PriceAndFeesAddUp | packages/core/src/domain/lessons.ts:1179-1206 | after any history, without a condition, total profit is price profit plus fees, to a cent per trade and the output rounding |
| LedgerTheorems.FiguresAlwaysAgree | packages/core/src/domain/lessons.ts:759-785 | in every reachable ledger each trade's profit, with and without fees, its percentages and its value agree up to rounding, and a trade settled later is worth its cash |
| LedgerTheorems.AccountingArrivesBalanced | packages/core/src/adapters/blockchain/pnlHelpers.ts:168-207 | a close report arrives with value = cash + unsold value to half a cent if and only if its final value is positive, or is zero to half a cent without priced inventory |
| LedgerTheorems.UnfetchedValueArrivesUnbalanced | packages/core/src/adapters/blockchain/pnlHelpers.ts:168-207 | a close with unfetched value and tokens worth forty dollars arrives with figures that do not add up |
| LedgerTheorems.EachSettledTradeIsRememberedOnce | packages/core/src/domain/lessons.ts:149-177 | after any history a pool's deploy history is, as a multiset, exactly the final figures of its settled trades |
| LedgerTheorems.SettledTradesAreFinal | packages/core/src/domain/lessons.ts:853-865 | no later operation changes a settled trade, and none drops a trade or changes its identity, cost or fees |
| LedgerTheorems.SettlementConservesValue | packages/core/src/domain/lessons.ts:729-773 | a settlement raises the group's cash by the proceeds' value once plus the other residuals, to half a cent per trade |
| LedgerTheorems.EmptySettlementKeepsEachTrade | packages/core/src/domain/lessons.ts:745-773 | with zero proceeds each settled trade keeps cash plus residual to half a cent |
| LedgerTheorems.SaleBooksOneValue | packages/core/src/domain/lessons.ts:745-773 | a sale books the same value in SOL as in dollars, up to the two roundings |
| LedgerTheorems.ClosingAMintClearsItIff | packages/core/src/domain/lessons.ts:724-741 | nothing is left awaiting the mint if and only if no position is singled out or it was the only one |
| LedgerTheorems.SiblingStaysPending | packages/core/src/domain/lessons.ts:724-741 | with two closes of one token, settling or abandoning it for the first position leaves the second trade waiting |
| LedgerTheorems.ReconciliationLeavesOnlyTracked | packages/core/src/domain/lessons.ts:976-1046 | afterwards every pending trade awaits a pending mint, and the others are untouched |
| LedgerTheorems.CloseAllPointwise | packages/core/src/domain/lessons.ts:743-825 | closing a list of trades changes each listed trade once, by its place in the list, and no other |
| SettlementTheorems.DroppedIff | packages/core/src/domain/lessons.ts:60-106 | a close is dropped if and only if it claims to be settled, at least twenty dollars went in, and it is worth at most two dollars a SOL for a quarter of a SOL or more, or with fees at most a tenth of what went in without mentioning a stop loss |
| SettlementTheorems.CloseIsBookedAsReported | packages/core/src/domain/lessons.ts:107-135 | every other close is appended as it was reported; without cash figures a settled one is all cash and a waiting one none |
| SettlementTheorems.SettlementPaysTheFirst | packages/core/src/domain/lessons.ts:724-785 | the first trade meant gets the SOL at the given price, else at the price of its own entry, else at 150 dollars, and keeps unsold value only without proceeds; the other trades meant turn theirs into cash, all others stay |
| SettlementTheorems.SolPutInReturnsDollarsPutIn | packages/core/src/domain/lessons.ts:755-764 | a sale without a price that brings back the SOL put in raises the cash by the dollars put in, to half a cent |
| SettlementTheorems.AbandoningWritesDown | packages/core/src/domain/lessons.ts:847-900 | exactly the trades meant are written down to the cash they had |
| SettlementTheorems.ReconciliationWritesDown | packages/core/src/domain/lessons.ts:976-1046 | exactly the pending trades whose mint is absent or none of those still to be sold are written down to their cash |
| SettlementTheorems.MarkingValuesUnsoldTokens | packages/core/src/domain/lessons.ts:1052-1103 | a pending trade with a price is worth its cash plus what the wallet shows of its token at that price, to a cent; of any other trade at most the unsold amount is refreshed |
| SettlementTheorems.RevaluedIffPriced | packages/core/src/domain/lessons.ts:1058-1079 | a trade counts as revalued if and only if it is pending, something of it is unsold and its token has a price of at least zero |
| SettlementTheorems.SummaryIsOfItsTrades | packages/core/src/domain/lessons.ts:1170-1216 | the summary has the sums of the trades' own figures, their average percentages over all of them and the win rate among the settled ones, each up to its rounding |
| LiquidationQueue.TokenQueue.Enqueue | packages/core/src/domain/liquidation-queue.ts:77-131 | a token is registered, or re-registered with its attempts, age and everything the request leaves unsaid |
| LiquidationQueue.TokenQueue.Refresh | packages/core/src/domain/liquidation-queue.ts:35-54 | live figures replace those of a pending entry and of no other |
| LiquidationQueue.TokenQueue.MarkSuccess | packages/core/src/domain/liquidation-queue.ts:136-179 | a sold entry is marked and settles its trades with the proceeds; without an entry both files stay as they were |
| LiquidationQueue.TokenQueue.MarkAttempt | packages/core/src/domain/liquidation-queue.ts:185-246 | a failed attempt is counted; at the limit, after the window or at once the entry and its trades are given up |
| LiquidationQueue.TokenQueue.MarkDust | packages/core/src/domain/liquidation-queue.ts:252-266 | an entry becomes dust and its trades are left alone |
| LiquidationQueue.TokenQueue.Prune | packages/core/src/domain/liquidation-queue.ts:276-312 | exactly the old settled entries go, except tombstones of held tokens, and the count is that of the removed |
| QueueTheorems.ReturnsIff | packages/core/src/domain/liquidation-queue.ts:77-266 | after any history of queue operations an entry that was not pending is pending if and only if some registration asked for it and no later operation sold it, found it dust, gave it up or registered it as settled |
| QueueTheorems.AttemptsAndAge | packages/core/src/domain/liquidation-queue.ts:77-246 | after any history an entry has its age and attempts from the last registration that found no entry, or from the beginning, plus one for each failure since |
| QueueTheorems.RestartsIffDropped | packages/core/src/domain/liquidation-queue.ts:276-312 | an entry that is there starts afresh if and only if some clearing dropped it |
| QueueTheorems.AbandonedComesBack | packages/core/src/domain/liquidation-queue.ts:77-312 | an abandoned token that is pending again kept age and attempts, with all failures counted, unless its tombstone was cleared; then both date from its last registration |
| QueueTheorems.ClearedTombstoneStartsAfresh | packages/core/src/domain/liquidation-queue.ts:276-312 | a tombstone a day old of a token not held is dropped, and the next registration starts with no attempt and a new age |
| QueueTheorems.LastFailureIff | packages/core/src/domain/liquidation-queue.ts:185-246 | after any history, one more failure leaves a pending entry pending if and only if it was not told to give up, the failures since its registration stay below the limit and the hours of the window have not passed since |
| QueueTheorems.CarriesWhatWasSaid | packages/core/src/domain/liquidation-queue.ts:35-131 | over any history in which it is kept, an entry carries the last positive amount, the last known price and the last pool and position that a registration, or for the figures a refresh while pending, stated, with the moment of the last action on it and how it was last sold |
| QueueTheorems.EachMintFollowsItsOps | packages/core/src/domain/liquidation-queue.ts:35-312 | over any history of the whole queue each mint's entry is what the operations on it and the clearings make of it, whatever happens to the others |
| QueueTheorems.PendingAgainIff | packages/core/src/domain/liquidation-queue.ts:77-266 | a mint that is not pending in the queue is pending after a history of it if and only if one of its operations asked for it and no later one that concerns it ended that |
| QueueTheorems.AbandonedMintComesBack | packages/core/src/domain/liquidation-queue.ts:77-312 | an abandoned mint that is pending in the queue again kept age and attempts, unless a clearing dropped it in between |
| Swaps.Swapper.SwapBaseToSolWithRetry | packages/core/src/adapters/ToolExecutor.ts:716-927 | the retry loop comes to the sale its answers determine (`SaleTheorems.SaleFollowsItsAnswers`), and the queue and ledger change only as that outcome says |
| Swaps.OrdersAreBounded | packages/core/src/adapters/ToolExecutor.ts:748-880 | at most one order per attempt, each for a positive part of a balance the wallet showed, at default or 200 to 1000 basis points |
| SaleTheorems.SaleFollowsItsAnswers | packages/core/src/adapters/ToolExecutor.ts:748-880 | a sale ends at the first attempt that does not go on, in the way its wallet and venues say; each readable attempt before offered its balance halved once per partial route so far, not below a tenth, at no set slippage or 100 basis points doubled once per slippage refusal, up to 1000 |
| SaleTheorems.SaleLeaves | packages/core/src/adapters/ToolExecutor.ts:806-895 | a sale marks the entry sold with the venue's figures, leaves it alone when there was nothing to sell, and otherwise registers the token with age and attempts kept, as abandoned if and only if there was no liquidity at all |
| Sweeper.TokenSweeper.ReconcileWallet | packages/core/src/adapters/ToolExecutor.ts:972-1000 | each sellable untracked token is registered once, tombstones are not, and prices are those of the last priced token |
| Sweeper.TokenSweeper.HandleEntry | packages/core/src/adapters/ToolExecutor.ts:1014-1106 | one pending entry is skipped, found gone, found dust, sold or counted as failed; only its own entry changes, and the ledger gets the settlement or write-down of that case and nothing else |
| Sweeper.TokenSweeper.HandlePending | packages/core/src/adapters/ToolExecutor.ts:1000-1107 | every entry pending when the loop began is handled once, in some order, and queue, report and bookings are those of that order |
| Sweeper.TokenSweeper.SweepUnsoldTokens | packages/core/src/adapters/ToolExecutor.ts:944-1145 | each mint's entry evolves on its own, and exactly the mints of `SweepTheorems.HandedOverIff` are handed to a swap; the ledger gets the revaluation, the bookings of the handled entries and the reconciliation, and nothing else; after a complete scan every pending trade's mint is pending in the queue |
| Sweeper.OrderIsIrrelevant | packages/core/src/adapters/ToolExecutor.ts:1000-1107 | in whatever order the entries are met, queue, counts and swaps are those of handling each once as it was before the loop |
| Sweeper.TrackIsPerMint | packages/core/src/adapters/ToolExecutor.ts:972-1000 | tracking a mint does not depend on the other tokens of the wallet |
| Sweeper.SweepIsPerMint | packages/core/src/adapters/ToolExecutor.ts:944-1145 | what a sweep does to one mint is a function of that mint's entry |
| Sweeper.TallyCounts | packages/core/src/adapters/ToolExecutor.ts:1000-1107 | the report counts each handled entry under its verdict and no other |
| SweepTheorems.TombstoneIsDroppedIff | packages/core/src/domain/liquidation-queue.ts:276-301 | a sweep drops a tombstone if and only if a complete scan no longer shows the token and it is a day old; it is never handed to a swap |
| SweepTheorems.TombstonesStay | packages/core/src/adapters/ToolExecutor.ts:1109-1119 | over any run of sweeps in which the token may still be held, its tombstone is unchanged and never sold |
| SweepTheorems.HeldTokenIsSoldOrDust | packages/core/src/adapters/ToolExecutor.ts:1014-1056 | a held pending mint outside the skip list is handed to a swap if and only if it is priced below zero or at the threshold or more, or is unpriced with unknown decimals or more than one raw unit; otherwise it becomes dust and nothing is booked |
| SweepTheorems.HandedOverIff | packages/core/src/adapters/ToolExecutor.ts:962-1056 | over all mints, entries and wallets: exactly the mints outside the skip list that are held, worth trying by those figures, and pending, or unknown or sold and taken up from the wallet |
| SweepTheorems.TakenUpIsRegistered | packages/core/src/adapters/ToolExecutor.ts:972-998 | a token taken up from the wallet is registered as pending with its balance and price, a sold one with the attempts, age, pool and position it had |
| SweepTheorems.PendingEntriesHaveAttemptsLeft | packages/core/src/domain/liquidation-queue.ts:185-231 | in runs of sweeps with one limit every pending entry stays below it |
| SweepTheorems.FailuresAreAttempts | packages/core/src/domain/liquidation-queue.ts:185-231 | while an entry stays pending, its attempts are the failures counted for it |
| SweepTheorems.FailuresAreBounded | packages/core/src/domain/liquidation-queue.ts:185-231 | an entry fails at most as often as it had attempts left before it stops being pending |
| SweepTheorems.BookingIsPerMint | packages/core/src/adapters/ToolExecutor.ts:1000-1107 | what a sweep books about a mint depends on that mint's entry only, whatever the order |
| SweepTheorems.BookingsFollowTheSale | packages/core/src/adapters/ToolExecutor.ts:1014-1106 | a pending mint's trades are settled if and only if it was sold or found gone, with that sale's proceeds and the entry marked sold; they are written down if and only if the entry is given up |
| SweepTheorems.EachSaleIsBookedOnce | packages/core/src/adapters/ToolExecutor.ts:944-1145 | over any run of sweeps a mint is settled exactly as often as it was sold or found gone |
| Positions.PositionStore.ConfirmPeak | packages/core/src/domain/state.ts:291-338 | the branches on the pending peak come to one step of the confirmation, and the answer says whether the peak rose |
| Positions.PositionStore.RegisterExitSignal | packages/core/src/domain/state.ts:347-383 | one step of the debouncer |
| Positions.PositionStore.MarkOutOfRange | packages/core/src/domain/state.ts:194-203 | the first out-of-range sighting starts the timer, whatever the position's status, and later ones leave it |
| Positions.PositionStore.MarkInRange | packages/core/src/domain/state.ts:208-217 | an in-range sighting clears the timer and changes nothing else |
| Positions.PositionStore.UpdatePnlAndCheckExits | packages/core/src/domain/state.ts:483-583 | trailing and timer fields follow the reading, and the first exit that holds, as `ExitTheorems.UpdateFindsTheExit` lists them, is returned |
| Positions.PositionStore.PollTick | packages/daemon/src/Daemon.ts:830-870 | positions are polled in order up to and including the first that fires |
| Positions.PositionStore.SyncOpenPositions | packages/core/src/domain/state.ts:679-703 | exactly the open positions that are gone and past the grace period are closed |
| Positions.PositionStore.RecordSwapFailure | packages/core/src/domain/state.ts:621-634 | the failure counter goes up by one |
| Positions.PositionStore.RecordSwapSuccess | packages/core/src/domain/state.ts:641-649 | the failure counter goes down by one, not below zero |
| Positions.PositionStore.ResetConsecutiveSwapFailures | packages/core/src/domain/state.ts:656-663 | the counter is zero afterwards |
| Positions.PositionStore.GetHalted | packages/core/src/domain/state.ts:670-673 | the answer is the breaker's, and nothing changes |
| PositionTheorems.PeakRefinesHistory | packages/core/src/domain/state.ts:291-338 | over any mix of polls, management cycles, range marks and closes, under configurations that may change, the peak is the one that rising windows of candidates justify |
| PositionTheorems.PeakNeverFalls | packages/core/src/domain/state.ts:291-338 | no event lowers the peak |
| PositionTheorems.PositivePeakWasConfirmed | packages/core/src/domain/state.ts:291-338 | a peak above zero was confirmed by a window that never fell and ended in it |
| PositionTheorems.FiresIff | packages/core/src/domain/state.ts:347-383 | with a count that may change from tick to tick, an open position fires if and only if the last polls, as many as this tick needs, agree on their signal and none of the earlier ones fired |
| PositionTheorems.FiresOnMultiplesOfTheCount | packages/core/src/domain/state.ts:347-383 | when the count was the same at every poll, an open position fires if and only if the unbroken run of one signal has a positive multiple of the count as its length |
| PositionTheorems.ArmedIffPeakReached | packages/core/src/domain/state.ts:497-505 | the trailing exit is armed if and only if some poll or management cycle of the open position found its peak at the trigger with the exit switched on |
| ExitTheorems.UpdateFindsTheExit | packages/core/src/domain/state.ts:448-583 | an update of an open position returns the first of the four rule-based exits whose condition on reading, peak, timer and settings holds, and nothing if and only if none holds |
| ExitTheorems.LogFindsIff | packages/daemon/src/Daemon.ts:179-247 | over any history, a poll signals an exit if and only if that exit's condition held then and that of none of the exits tried before it, for all nine exits |
| ExitTheorems.CloseIsExplained | packages/core/src/domain/state.ts:347-583 | a position that fires does so for one exit, whose condition held at each of the last polls, as many as were needed, with none tried before it holding |
| ExitTheorems.ConfirmedExitFires | packages/core/src/domain/state.ts:347-383 | an exit found by as many polls in a row as the last of them needs makes the position fire at one of them |
| ExitTheorems.StopLossFires | packages/core/src/domain/state.ts:529-539 | as many trusted polls in a row as are needed with a profit at or below the threshold make the position fire, and it fires for its stop loss after nothing else |
| PositionTheorems.TrailingCloseIsExplained | packages/core/src/domain/state.ts:541-554 | a trailing close means the last polls, as many as it needed, all lay the drop configured then below the peak on credible readings, and that the peak is at the trigger that armed it and was confirmed |
| PositionTheorems.TimerRefinesHistory | packages/core/src/domain/state.ts:194-217 | over any mix of polls, management cycles and fetches that mark the range, the timer holds the earliest out-of-range sighting that no in-range one cancelled |
| PositionTheorems.OutOfRangeTooLongIff | packages/core/src/domain/state.ts:556-565 | the wait is over if and only if such a sighting, by a reading or by a fetch, is that many minutes old |
| PositionTheorems.ProfitAndLossExitsAreCredible | packages/core/src/domain/state.ts:448-554 | a position that fires for stop loss, take profit or the trailing drop was confirmed by polls in a row none of whose readings was suspect |
| PositionTheorems.ClosedPositionsAreFinal | packages/core/src/domain/state.ts:208-300 | after a close nothing fires and no event changes a field but the out-of-range timer, which only fetches still write |
| PositionTheorems.TickPollsAPrefix | packages/daemon/src/Daemon.ts:830-870 | a tick polls a prefix of the readings, at most one position fires, and the rest is untouched |
| PositionTheorems.CounterIsLargestExcess | packages/core/src/domain/state.ts:621-663 | the failure counter is the largest excess of failures over successes in any suffix since the last reset |
| PositionTheorems.HaltedIff | packages/core/src/domain/state.ts:670-673 | deploys are halted if and only if some suffix reaches the threshold |
| ToolNames.OneLineNamesAreCleanedOnce | packages/core/src/adapters/ToolExecutor.ts:1314-1326 | for names on one line, cleaning again changes nothing, so loop and executor agree |
| ToolNames.TwoLineDecorationsNeedTwoPasses | packages/core/src/application/agent-loop.ts:606-606 | a plain tool with decorations on two lines is missed by one pass and found by two |
| ToolNames.LockedIff | packages/core/src/adapters/ToolExecutor.ts:1314-1326 | for plainly named write tools the lock is decided for the tool that runs, if and only if no write tool runs whose name still had a decoration after two passes |
| ToolNames.OneLineNamesAreLocked | packages/core/src/adapters/ToolExecutor.ts:1314-1320 | a write tool written on one line runs under the write lock |
| ToolNames.ThreeLineDecorationsMissTheLock | packages/core/src/adapters/ToolExecutor.ts:1314-1326 | with decorations on three lines the lock is decided for a name that is not the tool that runs |
| AgentTurn.AtMostOneDeployGoesThrough | packages/core/src/application/agent-loop.ts:600-756 | for every interleaving, after a deploy that was not blocked ended, no deploy starts or ends in the session |
| AgentTurn.DeploysOnceIff | packages/core/src/application/agent-loop.ts:600-756 | the rule holds for all sessions in one spelling if and only if the loop recognises it as the tool the executor runs |
| AgentTurn.OneLineNamesDeployOnce | packages/core/src/application/agent-loop.ts:628-628 | every spelling on one line is recognised |
| AgentTurn.TwoLineDecorationIsNotRecognised | packages/core/src/application/agent-loop.ts:628-628 | decorations on two lines give spellings for which the rule fails |
| AgentTurn.PlayKeepsGuard | packages/core/src/application/agent-loop.ts:626-764 | whatever the order of steps, a deploy that went through is locked or about to be, and no other one can still end |
| AgentLoop.FindDuplicates | packages/core/src/application/agent-loop.ts:600-623 | the ids of exactly those deploy calls that another one precedes |
| AgentLoop.OrderAnswers | packages/core/src/application/agent-loop.ts:766-798 | one answer per call in call order; with distinct ids each carries its own call's outcome |
| AgentLoop.WellFormedAppend | packages/core/src/application/agent-loop.ts:800-800 | histories in which every call is answered at once and in full can be put together |
| AgentLoop.PlayKeepsRefusals | packages/core/src/application/agent-loop.ts:631-691 | a call refused before anything ran stays refused |
| AgentLoop.AgentRun.RunCalls | packages/core/src/application/agent-loop.ts:626-764 | the calls finish in any order, and the end state is that of some interleaving |
| AgentTurn.LockedToolStaysOut | packages/core/src/application/agent-loop.ts:667-691 | once a listed tool is locked, no later message starts or ends it, in any interleaving |
| AgentTurn.SuccessIsNotRepeated | packages/core/src/application/agent-loop.ts:746-756 | in any message and any interleaving, a swap or close that succeeded never starts again in a later message |
| TurnTheorems.EveryCallIsAnsweredRightly | packages/core/src/application/agent-loop.ts:600-764 | in whatever order tools run, a call is refused as duplicate, as invalid or as already attempted exactly in those cases, every other call begins and ends in the log, and the tools locked afterwards are those locked before and those the message booked |
| TurnTheorems.AttemptedIff | packages/core/src/application/agent-loop.ts:666-757 | over a session, a call is refused as already attempted if and only if its cleaned name is one of the three tools, an earlier message booked that tool and nothing else was wrong with the call; every other call with nothing wrong has run |
| AgentLoop.AgentRun.RunTurn | packages/core/src/application/agent-loop.ts:600-800 | the answers match the calls; with distinct ids each is the refusal its call is due, or the result of a run that the log shows, and the locked tools grow by those the message booked |
| AgentLoop.AgentRun.GiveUp | packages/core/src/application/agent-loop.ts:484-503 | an error takes away at most one feature, one still in use, and a change of mode rebuilds the history |
| AgentLoop.AgentRun.AskModel | packages/core/src/application/agent-loop.ts:472-518 | at most three calls plus one per feature given up, in spite of the retries that are not counted; exactly that many after a passing failure, and only passing failures and rejected features are retried |
| AgentLoop.AgentRun.Hear | packages/core/src/application/agent-loop.ts:548-800 | the history grows by the turn or the reminder that the message calls for, tools run, an answer is accepted, or it is rejected, the second time for good |
| AgentLoop.AgentRun.Run | packages/core/src/application/agent-loop.ts:461-829 | at most 3 maxSteps + 3 model calls; each request carries what the replies before it led to; exactly the tools the replies called ran; the outcome is justified by the replies, so where a tool is required a final answer follows some reply that called one and a refusal means none did |
| AgentLoop.RequestsAreValid | packages/core/src/application/agent-loop.ts:548-800 | every request starts with instructions, session and goal as its mode wants them, has a history in which each call is answered at once and in full, holds no rejected answer, and repeats nothing the provider rejected |
| AgentLoop.RunsDeployOnce | packages/core/src/application/agent-loop.ts:600-756 | over a whole run of the loop, after a deploy that was not blocked ended, no deploy starts or ends |
| Mutex.MutualExclusion | packages/core/src/shared/mutex.ts:20-50 | in every run at most one callback is in progress, and the flag says whether one is |
| Mutex.FirstComeFirstServed | packages/core/src/shared/mutex.ts:33-50 | callbacks start in the order of the calls, each once and after its predecessors released |
| Mutex.NoLostUpdate | packages/core/src/domain/state.ts:38-40 | the shared value is what the writes give when run one by one in that order, with callbacks that throw left out |
| Mutex.StepsMakeProgress | packages/core/src/shared/mutex.ts:20-50 | every step but a new call brings the callers closer to the end |
| Mutex.NextStep | packages/core/src/shared/mutex.ts:20-50 | while a caller is unfinished some step other than a new call is possible |
| Mutex.EveryoneFinishes | packages/core/src/shared/mutex.ts:20-50 | from every state all callers present can finish |
| Mutex.EveryScheduleServes | packages/core/src/shared/mutex.ts:20-50 | under any schedule a caller and those before it finish within as many of their own steps as they have work, whatever later callers do, and until then one of them can step |
| Mutex.WaiterIsNotOvertaken | packages/core/src/shared/mutex.ts:33-50 | once the awaited promise has settled a waiter may enter, and no schedule takes that away before it does |
| Mutex.AsyncMutex.Enqueue | packages/core/src/shared/mutex.ts:33-42 | the synchronous half of acquire joins the queue |
| Mutex.AsyncMutex.Enter | packages/core/src/shared/mutex.ts:44-45 | the rest of acquire lets the caller in once the awaited promise has settled |
| Mutex.AsyncMutex.Load | packages/core/src/domain/state.ts:38-40 | a callback reads the current shared value |
| Mutex.AsyncMutex.Save | packages/core/src/domain/state.ts:38-40 | a callback writes what it makes of the value it read |
| Mutex.AsyncMutex.Pass | packages/core/src/shared/mutex.ts:38-42 | a caller's promise settles after its release and everything before it |
| Mutex.AsyncMutex.Leave | packages/core/src/shared/mutex.ts:46-49 | release ends the caller's turn, also after a throw |
| DaemonLocks.CyclesStayApart | packages/daemon/src/Daemon.ts:369-395 | in every run each cycle is single-flight and no poll runs beside a management or health cycle |
| DaemonLocks.PollerRestoresItsOwnFlag | packages/daemon/src/Daemon.ts:857-868 | the flag the poller saves is always clear and no one else holds it, so restoring it takes it from no one |
| DaemonLocks.FlagsAreReturnedIff | packages/daemon/src/Daemon.ts:398-416 | when all cycles have ended a flag is up if and only if it is the screening flag after a suppressed cycle |
| DaemonLocks.OneSuppressedCycleLosesTheFlag | packages/daemon/src/Daemon.ts:885-973 | a run in which a tick passes its capital check, a screening cycle then runs out of capital and ends, and the tick's own screening cycle is suppressed leaves every cycle ended and the screening flag up |
| DaemonLocks.NoRaceNoLoss | packages/daemon/src/Daemon.ts:1384-1392 | unless a screening cycle runs out of capital while a tick that passed its check is under way, every flag is down when every cycle has ended |
| DaemonLocks.SuppressedScreeningStopsPolling | packages/daemon/src/Daemon.ts:1384-1392 | after a suppressed cycle no screening cycle, profit poll or opportunity poll can start again |
| DaemonLocks.CycleStartsIff | packages/daemon/src/Daemon.ts:369-395 | in every run a cycle starts if and only if the daemon was not shut down and no cycle in progress keeps it out |
| DaemonLocks.EveryCycleCanStart | packages/daemon/src/Daemon.ts:369-416 | without the race every cycle can start again once all have ended |
| DaemonLocks.Daemon.AcquireLock | packages/daemon/src/Daemon.ts:369-393 | a flag is taken if and only if its rule allows it, and nothing else changes |
| DaemonLocks.Daemon.ReleaseLock | packages/daemon/src/Daemon.ts:398-416 | exactly that flag is lowered |
| DaemonLocks.Daemon.BeginClose | packages/daemon/src/Daemon.ts:858-859 | the poller raises the management flag and remembers what it was |
| DaemonLocks.Daemon.EndClose | packages/daemon/src/Daemon.ts:866-868 | the remembered flag is put back and no other is touched |
| DaemonLocks.Daemon.BeginScreening | packages/daemon/src/Daemon.ts:1384-1392 | a silent cycle during the cooldown does not run but keeps the flag |
| DaemonLocks.Daemon.HandleScreeningStarvation | packages/daemon/src/Daemon.ts:1843-1845 | the cooldown runs for fifteen minutes from now |
| PoolMemory.PoolBook.RecordPoolDeploy | packages/core/src/domain/pool-memory.ts:107-255 | the four pause rules, applied in order, leave what the last one that applies sets |
| PoolMemory.PoolBook.SetBaseMintCooldown | packages/core/src/domain/pool-memory.ts:58-68 | the token is paused in exactly the entries that have it |
| PoolMemory.PoolBook.RecordPositionSnapshot | packages/core/src/domain/pool-memory.ts:342-393 | a snapshot with measurements enters an unknown pool without closes and leaves every other entry as it was |
| PoolMemory.PoolBook.AddPoolNote | packages/core/src/domain/pool-memory.ts:483-511 | a note that is not empty enters an unknown pool without closes and leaves every other entry as it was |
| PoolMemory.MemoryIsTheHistory | packages/core/src/domain/pool-memory.ts:107-255 | after any history of closes, snapshots and notes, under configurations that may change, an entry holds its closes in order, figures that are those of the whole list, the first token named and the end of the last pause set |
| PoolMemory.KnownIff | packages/core/src/domain/pool-memory.ts:290-306 | a pool is known if and only if a close, a snapshot or a note entered it |
| PoolMemory.PoolIsPausedIff | packages/core/src/domain/pool-memory.ts:260-266 | a pool is paused if and only if the last pause set for it has not ended |
| PoolMemory.TokenIsPausedIff | packages/core/src/domain/pool-memory.ts:268-278 | a token is paused if and only if the last pause set for it, in any pool, has not ended |
| PoolMemory.PauseIsCutIff | packages/core/src/domain/pool-memory.ts:51-56 | whatever snapshots, notes and closes of other pools came in between, a close brings its pool's stored pause forward if and only if it sets a pause that ends earlier; without one it leaves it alone |
| PoolMemory.LowYieldCutsPauseIff | packages/core/src/domain/pool-memory.ts:179-255 | for every configuration and any snapshots, notes and closes of other pools in between, the stored pause is still that of the stop loss, and a low-yield close of the same pool shortens it if and only if its own pause ends first; that is four hours later unless it is also a stop loss or a repetition rule applies |
| PoolMemory.LowYieldCutsDefaultPause | packages/core/src/config/defaultAgentConfig.ts:81-86 | with the default settings a low-yield close an hour after a stop loss ends the twelve-hour pause after five hours |
| PoolTheorems.ClosesSetThePauses | packages/core/src/domain/pool-memory.ts:179-255 | over any history, a close pauses pool and token by the closes of its pool: the last ones all earning fees, the last ones all out of range, a stop loss, and for the pool low yield, the first that applies |
| PoolTheorems.AdjustedRateIsOfCountedCloses | packages/core/src/domain/pool-memory.ts:160-172 | over any history, the adjusted count and win rate are those of the closes with a result and no excluded reason |
| PoolLedger.ReportsAreTheLines | packages/core/src/domain/lessons.ts:149-177 | over any history of the ledger, with snapshots and notes in between, the closes reported for a pool are its history lines in the same order |
| PoolLedger.ReportSaysWhatItsReasonSays | packages/core/src/shared/utils.ts:227-239 | a close is reported with its trade's profit and fees and is low yield, stop loss, out of range or excluded exactly when its reason says so in letters of either case |
| PoolLedger.PoolFiguresAreItsTrades | packages/core/src/domain/lessons.ts:795-829 | after any such history a pool is known if and only if a snapshot or a note entered it or one of its trades settled, and its count, average and win rate are those of its settled trades, zero without any |
| PoolLedger.SnapshotMakesKnown | packages/core/src/domain/pool-memory.ts:342-393 | one snapshot makes a pool known, with no settled trade and a count of zero |
| PoolLedger.ReportsAreOfSettledTrades | packages/core/src/domain/lessons.ts:795-829 | every close the memory was told of is that of a settled trade with the figures it still has in the ledger |
| PoolLedger.PoolIsPausedByItsTrades | packages/core/src/domain/pool-memory.ts:179-266 | a pool is paused if and only if the report of one of its settled trades set, by the rules of its moment, a pause that has not ended and that no later report replaced |
| PoolLedger.TokenIsPausedByItsTrades | packages/core/src/domain/pool-memory.ts:179-278 | the same for a token, whose pause a settled trade in any of its pools may have set |
| EnvFile.UnescapeUndoesEscape | packages/cli/src/firstSetup.ts:153-159 | unescaping undoes escaping for every string |
| EnvFile.EscapeIsOnePass | packages/cli/src/firstSetup.ts:153-155 | the two replacements escape each character once |
| EnvFile.ParseEnvFile | packages/cli/src/firstSetup.ts:172-187 | the map has exactly the keys some line sets, each with its last value |
| EnvFile.UpsertEnvVars | packages/cli/src/firstSetup.ts:161-170 | the loop over the updates applies each to the result of the ones before it |
| EnvFile.PrintedLineIsReadBack | packages/cli/src/firstSetup.ts:164-184 | a printed line is read as its key and value, with or without a carriage return |
| EnvFileTheorems.MatchIsFirstAssigning | packages/cli/src/firstSetup.ts:165-166 | over a plain file the multi-line pattern matches at the first line that starts with the assignment |
| EnvFileTheorems.UpdateIsReadUnlessShadowed | packages/cli/src/firstSetup.ts:161-187 | the parser reads the new value, or the last value that a line after the replaced one sets |
| EnvFileTheorems.OtherKeysAreKept | packages/cli/src/firstSetup.ts:161-187 | every other key reads as before |
| EnvFileTheorems.SurvivesIff | packages/cli/src/firstSetup.ts:161-187 | a value survives in every plain file without a later duplicate if and only if it has no line feed and no replacement pattern |
| EnvFileTheorems.AllUpdatesAreRead | packages/cli/src/firstSetup.ts:161-187 | in a plain file a batch with distinct keys that are not set again further down, and with values without line breaks and replacement patterns, is read back in full |
| EnvFileTheorems.UpdatesKeepOtherKeys | packages/cli/src/firstSetup.ts:161-187 | in a plain file a batch of values without line breaks and replacement patterns leaves all other keys alone |
| SmartWallets.DiffSmartWalletPositions | packages/core/src/domain/smart-wallets-screening.ts:82-119 | the loops over vetoes and positions come to one diff of the snapshot |
| SmartWallets.UpdateSnapshotPositions | packages/core/src/domain/smart-wallets-screening.ts:127-147 | the items are booked in order |
| SmartWallets.SnapshotRefinesHistory | packages/core/src/domain/smart-wallets-screening.ts:82-147 | in time order, the snapshot holds the committed positions and the last vetoes, but for expired ones |
| SmartWallets.OfferedIff | packages/core/src/domain/smart-wallets-screening.ts:82-119 | a position is offered if and only if it is there, was never baseline or deployed, and its last veto has run out |
| SmartWallets.CommittedIsNeverOffered | packages/core/src/domain/smart-wallets-screening.ts:82-119 | baseline and deployed positions are never offered again |
| SmartWallets.UnresolvedIsOfferedAgain | packages/core/src/domain/smart-wallets-screening.ts:127-147 | an offered position that was not resolved is offered at the next look |
| SignalWeights.NumericLiftIsGivenIff | packages/core/src/domain/signal-weights.ts:227-238 | a number has a lift if and only if it was read for wins and losses and often enough |
| SignalWeights.NumericLiftIsScaled | packages/core/src/domain/signal-weights.ts:227-249 | the lift of a number is the difference of the plain means in units of the range, within one |
| SignalWeights.BooleanLift | packages/core/src/domain/signal-weights.ts:251-278 | a win-rate difference between presence and absence, within one, given if and only if both occur and there are samples enough |
| SignalWeights.CategoricalLift | packages/core/src/domain/signal-weights.ts:280-306 | the best minus the worst win rate among the categories seen twice, given if and only if there are two of them and samples enough |
| SignalWeights.ComputeLifts | packages/core/src/domain/signal-weights.ts:145-150 | the list has the lift of every signal that has one, once, and no other |
| SignalTheorems.WindowIsSplit | packages/core/src/domain/signal-weights.ts:117-140 | the wins and the losses compared are, record by record, those dated at or after the cutoff, a record without a result among the wins |
| SignalTheorems.FlagLiftIsOfShares | packages/core/src/domain/signal-weights.ts:251-278 | the lift of a flag is the share of wins among the records with it less that among those without it |
| SignalTheorems.BucketsHoldMembers | packages/core/src/domain/signal-weights.ts:286-296 | a category counts its members among wins and losses, and as wins those among the wins |
| SignalTheorems.ComparedAreSeenTwice | packages/core/src/domain/signal-weights.ts:286-303 | exactly the categories that two entries have are compared |
| SignalWeights.RankIsDescending | packages/core/src/domain/signal-weights.ts:152-152 | the ranking has the same lifts, highest first |
| SignalWeights.QuartilesAreApart | packages/core/src/domain/signal-weights.ts:160-163 | each quartile has a quarter of the signals rounded up, the two are disjoint from two signals on, and top lifts are not below bottom lifts |
| SignalWeights.NextWeightMoves | packages/core/src/domain/signal-weights.ts:167-185 | rounding included, a weight stays in bounds, never falls in the top quartile, never rises in the bottom one |
| SignalWeights.QuartersAreScaled | packages/core/src/domain/signal-weights.ts:160-185 | the first quarter of the ranking is multiplied by the boost up to the ceiling, the last by the decay down to the floor, each to half a thousandth; the ones between stay |
| SignalWeights.WeightsStayInBounds | packages/core/src/domain/signal-weights.ts:167-185 | from the defaults, no run of recalculations leaves the bounds |
| SignalWeights.WeightTable.Apply | packages/core/src/domain/signal-weights.ts:165-185 | all ranked signals are reweighted and the changes name exactly those that differ |
| SignalWeights.WeightTable.Recalculate | packages/core/src/domain/signal-weights.ts:97-212 | without enough trades or without both outcomes nothing changes; otherwise the ranked lifts of the window reweight the table once, with one count and at most twenty history entries |

## Left out

- Lessons, thresholds and events derived from a closed trade: text and shallow rules; `recordPerformance` is modelled up to its record and its pool history.
- LedgerTheorems.EachSettledTradeIsRememberedOnce: `clearPerformance` (packages/core/src/domain/lessons.ts:596-602, called at packages/core/src/adapters/ToolExecutor.ts:348) empties the trades while pool memory stays, and is not among the five operations; the law holds for histories without it.
- LedgerTheorems.SettledTradesAreFinal: holds for histories without `clearPerformance`, which removes every trade.
- PoolLedger.PoolFiguresAreItsTrades: holds for histories without `clearPerformance`, as do the other laws of `PoolLedger`.
- Ledger.TradeLedger.GetPerformanceSummary: the average range efficiency and the number of lessons are not part of the model.
- The JSON store: state reads back what was written; corrupt files and backups are not modelled.
- Numbers that are not finite: figures are reals, so guards against NaN and infinity have no counterpart.
- Swap-failure breaker calls inside a sale, delays between attempts, fallback models and waiting times: they do not change the modelled state.
- Batch clean-up of the whole wallet (`swapAllTokensToSol`) and closing all positions: plain loops over operations that are modelled.
- Mint swaps after claiming fees, and notifications with their result lists.
- One sweep uses one moment for each handled entry, and lists pending entries in any order.
- Hooks that throw in the agent loop, prompt building and intent patterns: hooks return, and whether a tool is required is an input.
- Tool arguments are readable, beyond repair or absent; results are reduced to blocked and successful.
- AgentTurn.AtMostOneDeployGoesThrough: covers deploys only, because duplicate close and swap calls in one message are not filtered by the code.
- Mutex.NoLostUpdate: each callback reads once and writes at most once.
- DaemonLocks.CyclesStayApart: says nothing about screening beside a poll, or management beside a sweep, because the code lets the later one start.
- PoolMemory.PoolBook.RecordPoolDeploy: close reasons are given by what they contain.
- PoolMemory.PoolBook.RecordPositionSnapshot: that a pool gets an entry is modelled; the kept snapshots, the texts of notes, the per-pool metric files and the recall text are not.
- PoolLedger.ReportsAreTheLines: the text of the last error of an abandoned sale is a parameter, and reports are as atomic as the operation that makes them.
- EnvFileTheorems.SurvivesIff: keys are letters, digits and underscores, so they have no meaning in the pattern; files break lines with a line feed, with or without a carriage return before it.
- EnvFile.ParseEnvFile: the key `__proto__`, which a plain object does not store, is an ordinary key here.
- SmartWallets.OfferedIff: the retry time is fixed and looks happen in time order; veto reasons are not kept.
- SignalWeights.WeightsStayInBounds: the bounds are multiples of a thousandth with one between them, boost is at least one and decay at most one; other settings are outside the statement.
- SignalWeights.CategoricalLift: how a number is written as a category is a parameter.
- Chain, exchange, wallet, messaging, console and key-store code: foreign services and plumbing.
