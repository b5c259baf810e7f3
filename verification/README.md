# Accounting protocols, shared infrastructure and exact arithmetic of the option engine

A Dafny model of the parts of the engine whose correctness is not visible in any one function: the
journal protocols that decide how much coin may still be sold, the threads that share a cache and a
request budget, the files that must survive a crash, and the arithmetic that feeds reports. `dafny
verify dfyconfig.toml` checks everything.

Decimals are exact reals, timestamps integers, and the exchange, the clock, the operating system and
unseen helpers are inputs of a step: every theorem holds for all their answers. Code that assigns
fields is a class (`Group`, `Penalties`, `PublicReads`, `Disk`, `Adjustments`, `Ledger`, `Store`,
`File`, `Cache`) whose methods are proved equal to functions on the fields' values; the theorems are
about those functions. Concurrent code is a state machine whose steps are the code between two points
at which another thread may run.

| files | subject |
|---|---|
| `ProfitSweep.dfy`, `ProfitSweepGroup.dfy`, `ProfitSweepSafety.dfy`, `ProfitSweepRuns.dfy`, `ProfitSweepPool.dfy`, `ProfitSweepOutcomes.dfy` | the profit-sweep journal, one pass over it, whole runs with crashes and outages, own and pooled sales together, and what each end of an order leaves |
| `TradeCache.dfy`, `DustPool.dfy` | the run's cache of labelled sells; pooled remainders and the crediting of one sell |
| `ReadCache.dfy`, `SingleFlight.dfy`, `SingleFlightRuns.dfy`, `SingleFlightCalls.dfy`, `SingleFlightOverlap.dfy`, `SingleFlightWays.dfy` | the TTL cache, N threads reading through it, what one call amounts to, and exactly when loads of one key overlap |
| `Throttle.dfy`, `Pacing.dfy` | backoff penalties and N threads pacing requests |
| `AtomicIo.dfy` | replacing writes and appends on a file system that may crash at any step |
| `CrossBookFlow.dfy`, `CrossBookPasses.dfy`, `CrossBookDay.dfy`, `ThirdPass.dfy` | the greedy flow matcher, its three passes, and what a day leaves unexplained |
| `PremiumSwap.dfy`, `Wheel.dfy`, `WheelRuns.dfy`, `WheelCash.dfy` | the premium swap, the wheel's ledger and strike window, the gates that stop it, and its cash over whole runs |
| `Calendar.dfy`, `FeeDiscount.dfy`, `Fees.dfy` | calendar months and the discount window; fees and their inversion |
| `Backtest.dfy`, `BacktestRuns.dfy`, `BacktestDays.dfy`, `BacktestFees.dfy` | the backtest's position and equity ledger, what each day closes, opens and reports, and the fees it takes off |
| `MetricsStore.dfy`, `EnvText.dfy`, `EnvFile.dfy` | the daily PnL index; the `.env` editor and reader |

## What turned out false of the code

Each of these has a lemma with the exact condition and one with a concrete input.

- A pass oversells exactly on a full-premium queue that a lock kept from being reconciled with a
  partial fill (`OrderIsSafeExactly`, `LockedQueueOversells`). On two further kinds of row, a queue
  above the premium and a filled row whose pooled sales exceed it, the overloaded
  `profit_sweep_amount` is misread as well, but only the announced sweep is too large: the
  executor's cap makes the order safe (`PassIsSafeExactly`).
- A slippage skip leaves the order's size in the amount, where the next pass reads it as sold: without
  own fills a premium of 1 whose order of 0.6 is skipped is offered as 0.4 afterwards
  (`SkippedOrderReadAsSoldExactly`, `SkippedPartIsLost`).
- Own-label sales and pooled sales are not counted together. With part of a premium sold under the
  own label the next pass sells the rest as if nothing had been pooled. With nothing sold under it, a
  pooled credit is forgotten on an unqueued or failed row, on a filled row whose exchange total
  reaches the premium while its amount does not, and wherever the exchange total misses earlier pooled
  sales (`PoolThenPassExactly`, `PassAfterCreditExactly`; `PooledPremiumSoldAgain`,
  `FailedRowSoldAgain`, `FilledRowSoldAgain`).
- Loads of one key may overlap although none fails and no entry expires from now on, exactly when a
  lock that can still carry a load has lost its name, or is about to (`LoadsOverlapExactly`). A
  failed load and an expired entry both lead there from an empty cache (`FailedLoadFromTheStart`,
  `ExpiredEntryFromTheStart`).
- An append is durable exactly when the file's name is: the directory is synced only by the call
  that created the file, so a name left unsynced by an earlier call stays unsynced
  (`AppendDurableExactly`, `CompletedAppendMayVanish`).
- The third matching pass adds the adjustment to the delta where the residual is their difference
  (`deribit_engine/cross_book_flow.py:81` and `:86`); a book may then be explained twice
  (`AsWrittenOverExplainsExactly`, `ConversionExplainedTwice`).
- A swap row that still holds its target premium reads as fully spent once it leaves the queue
  without a fill (`ReadsBackExactly`, `StashedTargetReadsAsSpent`).
- The wheel's ledger deliberately skips a child without a positive recorded credit, though its
  buyback was paid: the window is covered by the cash exactly when the coin brought its strike on top
  of what such children cost beyond the premium they brought in (`SecuredExactly`,
  `UnrecordedBuybackUncovers`).
- Inferring a premium from premium plus fee is short between r/(1+c) and r/c, because
  `deribit_engine/fees.py:145` compares with `<=` (`InferredPremiumExactly`, `BandPremiumReadShort`).
- A backtest leg takes off its entry fee exactly when it does not expire, so final equity is too
  high by the entry fees of the expired legs (`EntryFeeTakenExactly`, `ExpiredFeesInflateEquity`,
  `ExpiredLegBooksItsFee`).
- A coin-settled backtest leg that expires in the money has its dollar payoff multiplied by the spot
  once more, so its result is right exactly for a worthless or dollar-settled leg, or at a spot of 1
  (`ExpiryIsFairExactly`, `CoinLegIsConvertedTwice`).
- Synchronising the daily index fails exactly when a realized group's book is named TOTAL
  (`SyncFromClosed`, `TotalBookFailsSync`).

## Model

| member | source | states |
|---|---|---|
| ProfitSweepGroup.Group.RefreshExchangeNative | deribit_engine/profit_sweep_ops.py:365-399 | the exchange totals become those of the fills attributed to the group, only for a filled row with an exchange fill |
| ProfitSweepGroup.Group.GuardAgainstOversell | deribit_engine/profit_sweep_ops.py:415-498 | the row after synchronising with the fills, and whether anything may be queued, for every status, lock and outage |
| ProfitSweepGroup.Group.CheckWouldSchedule | deribit_engine/profit_sweep_ops.py:723-758 | when a row may be queued at all, after its guard |
| ProfitSweepGroup.Group.EnsurePending | deribit_engine/profit_sweep_ops.py:761-831 | the queued row: what was already sold becomes its amount, and true only when it was newly queued |
| ProfitSweepGroup.Group.ScheduleRemaining | deribit_engine/profit_sweep_ops.py:906-942 | guard, remaining check and queueing of one group |
| ProfitSweepGroup.Group.Execute | deribit_engine/engine/covered_call.py:2288-2420 | what the executor leaves in the journal for every way the order can end |
| ProfitSweepGroup.ScheduleAll | deribit_engine/profit_sweep_ops.py:906-942 | every selected group is scheduled from its own row, no group disturbs another |
| ProfitSweepGroup.RunPass | deribit_engine/profit_sweep_ops.py:945-978 | the pass schedules all groups and then executes those still about to sell, each from its own row |
| ProfitSweepGroup.OnlyTheTargetMoves | deribit_engine/profit_sweep_ops.py:945-978 | a run for one group leaves every other row as it was |
| ProfitSweepSafety.CreditedAreFills | deribit_engine/profit_sweep_ops.py:282-345 | fills credited to a group are part of what was sold, and nothing is credited only if nothing was sold |
| ProfitSweepSafety.QueuedWithFills | deribit_engine/profit_sweep_ops.py:761-831 | after a partial fill the queued amount is exactly what was sold, unless a lock kept the row out |
| ProfitSweepSafety.OrderIsSafeExactly | deribit_engine/profit_sweep_ops.py:415-529 | for every row: labelled fills plus whatever the pass may order stay within the premium if and only if the row is not a full-premium queue locked after a partial fill |
| ProfitSweepSafety.PassIsSafeExactly | deribit_engine/profit_sweep_ops.py:661-677 | for every row: labelled fills plus the announced sweep stay within the premium if and only if the row is not one of three kinds |
| ProfitSweepRuns.OrderWithinSweep | deribit_engine/profit_sweep_ops.py:661-677 | the executor's order is never larger than the sweep announced |
| ProfitSweepRuns.SoundPassIsSafe | deribit_engine/engine/covered_call.py:2340-2360 | for every row without a lock marker, whatever its amounts, labelled fills plus the order stay within the premium |
| ProfitSweepRuns.ReconcileStaysWithin | deribit_engine/trade_journal_backfill.py:386-516 | reconciling from fills or a labelled order within the premium never lifts an amount above it |
| ProfitSweepRuns.StepStaysWithin | deribit_engine/profit_sweep_ops.py:834-978 | no step lifts a journal amount above the premium |
| ProfitSweepRuns.StepKeepsSafe | deribit_engine/profit_sweep_ops.py:834-978 | every step, including a crash back to any saved journal, keeps the labelled fills within the premium |
| ProfitSweepRuns.NeverOversold | deribit_engine/profit_sweep_ops.py:415-978 | from journals with any statuses and amounts and no lock marker, over every interleaving of passes, partial fills, re-queues, pooled credits, outages and crashes the labelled fills never exceed the premium |
| ProfitSweepRuns.LockedQueueOversells | deribit_engine/profit_sweep_ops.py:402-428 | a locked row queued at its premium is sold again after a partial fill |
| ProfitSweepPool.PoolThenPassExactly | deribit_engine/profit_sweep_dust.py:361-379 | for every unlocked row, credit and fills: own fills, all pooled sales and whatever the next pass may order stay within the premium if and only if the credit is remembered |
| ProfitSweepPool.PassAfterCreditExactly | deribit_engine/profit_sweep_ops.py:761-831 | the same over the passes themselves: after one more pooled credit every pass keeps own and pooled sales within the premium if and only if it is remembered |
| ProfitSweepPool.PartlySoldIsQueued | deribit_engine/profit_sweep_ops.py:761-831 | a partly sold unlocked row is queued for the rest of its premium, whatever the pool sold, unless its status is unknown |
| ProfitSweepPool.PooledPremiumSoldAgain | deribit_engine/profit_sweep_ops.py:393-398 | with 0.4 sold under the own label a pooled 0.6 is forgotten by the refresh and queued again |
| ProfitSweepPool.FailedRowSoldAgain | deribit_engine/profit_sweep_dust.py:376-379 | a whole premium credited to a failed row is queued again |
| ProfitSweepPool.FilledRowSoldAgain | deribit_engine/profit_sweep_dust.py:376-379 | a filled row whose exchange total alone reaches the premium is queued for all of it |
| ProfitSweepOutcomes.OrderLeaves | deribit_engine/engine/covered_call.py:2350-2412 | for every end of an order: filled, failed, queued, skipped or submitted; an accepted one adds its size to what was held as sold and its proceeds to what was paid |
| ProfitSweepOutcomes.PassRecordsItsSale | deribit_engine/engine/covered_call.py:2391-2412 | a whole pass whose order sold in full leaves an unlocked row filled at what was held plus the order, which with own fills is the labelled total, and nothing remaining once the order took the rest |
| ProfitSweepOutcomes.DueIsQueued | deribit_engine/profit_sweep_ops.py:906-942 | an unqueued group, or a partly sold one, is queued for exactly what is left of its premium |
| ProfitSweepOutcomes.NewlyQueuedIsReported | deribit_engine/profit_sweep_ops.py:906-942 | scheduling reports such a group as newly queued unless it was queued before, and reports nothing that is not queued |
| ProfitSweepOutcomes.PassCompletesThePremium | deribit_engine/profit_sweep_ops.py:945-978 | an unqueued group, or a partly sold one, is completed by one pass whose order finds room and fills: the labelled total is the premium |
| ProfitSweepOutcomes.SkippedOrderReadAsSoldExactly | deribit_engine/engine/covered_call.py:2350-2389 | after a slippage skip the next pass has as much to sell as before if and only if the group has own fills or the order happened to be as large as what was held, or as the whole premium |
| ProfitSweepOutcomes.SkippedPartIsLost | deribit_engine/engine/covered_call.py:2378-2383 | a premium of 1 whose order of 0.6 is skipped is offered as 0.4 by the next pass |
| ProfitSweepOutcomes.ReconciledRemains | deribit_engine/trade_journal_backfill.py:386-516 | one day of fills settles a row: filled, with the premium less the fills remaining |
| ProfitSweepOutcomes.LabelledRemains | deribit_engine/trade_journal_backfill.py:386-516 | without fills a labelled order settles it the same way, unless the row already holds proceeds of its order |
| ProfitSweepOutcomes.SoldOutIsFilled | deribit_engine/profit_sweep_ops.py:458-480 | a first day that sold the whole premium blocks the row, filled at the premium and with nothing left |
| ProfitSweepOutcomes.FailedIsRequeued | deribit_engine/profit_sweep_ops.py:834-850 | a failed row is queued again for exactly what its fills left |
| ProfitSweepOutcomes.RetryQueuesTheRest | deribit_engine/profit_sweep_ops.py:834-850 | the retry step of a run does so too, and loses no fill |
| ProfitSweepOutcomes.SavedRowComesBack | deribit_engine/state.py:656-669 | whatever happens after a save, a crash may bring that row back and takes no fill with it |
| ProfitSweepOutcomes.LedgerOnlyIsRequeued | deribit_engine/profit_sweep_ops.py:853-898 | only a filled row with nothing to show for it is queued again, for its whole premium |
| ProfitSweepOutcomes.NoOrderLeaves | deribit_engine/engine/covered_call.py:2294-2338 | without an order the row stays as it is, but a queue without a premium is skipped |
| ProfitSweepOutcomes.ExchangeFillExactly | deribit_engine/profit_sweep_ops.py:45-75 | what shows that a filled row was sold on the exchange |
| ProfitSweepOutcomes.FirstDayExactly | deribit_engine/profit_sweep_ops.py:282-345 | the first day's fills are those of the earliest day, each as often as reported |
| ProfitSweepOutcomes.RefreshCreditsItsOrder | deribit_engine/profit_sweep_ops.py:365-399 | the exchange total is what the row's own order sold, or the earliest day without one |
| TradeCache.Cache.EnsureCurrency | deribit_engine/profit_sweep_ops.py:114-152 | a currency's first answer, outage included, is the only one the run ever uses |
| TradeCache.Cache.TradesForGroupStrict | deribit_engine/profit_sweep_ops.py:100-105 | the group's fills of that one answer, or the error if it was an outage |
| TradeCache.Cache.TradesForGroup | deribit_engine/profit_sweep_ops.py:93-98 | the same, with an outage read as no fills |
| TradeCache.Cache.FetchFor | deribit_engine/profit_sweep_ops.py:238-279 | the fills of that one answer as the sweep's steps read them |
| TradeCache.FetchTotalExactly | deribit_engine/profit_sweep_ops.py:347-362 | the sum the guard works with is what was reported sold under the label, each trade id once |
| TradeCache.Collect | deribit_engine/profit_sweep_ops.py:136-151 | the grouping loop gives every label exactly its fills, in time order |
| TradeCache.FillsExactly | deribit_engine/profit_sweep_ops.py:136-151 | a label's fills are exactly the sweep sells under it, each trade id once and as first reported, in time order |
| TradeCache.SweepSellExactly | deribit_engine/profit_sweep_ops.py:136-151 | a sweep sell is any sell whose label carries the sweep's mark |
| DustPool.OrderWithinAllCaps | deribit_engine/profit_sweep_dust.py:423-453 | a pooled order is positive and within pool, exchange deficit and free balance |
| DustPool.AlignedNeverRoundsUp | deribit_engine/profit_sweep_dust.py:450-452 | aligning to the lot never rounds up |
| DustPool.OrderIsLargestLot | deribit_engine/profit_sweep_dust.py:448-453 | the order is the largest multiple of the lot within all caps, and is refused exactly when that is below the minimum |
| DustPool.SoldIsTheFill | deribit_engine/profit_sweep_dust.py:514-522 | what the groups are credited from is the reported fill, or the order where none is reported |
| DustPool.WantIsWhatIsLeft | deribit_engine/profit_sweep_dust.py:351-356 | a queued group can take what its executor would still sell, any other what its premium has left, as far as listed |
| DustPool.ChunksConserve | deribit_engine/profit_sweep_dust.py:345-358 | the coin credited is the smaller of what was sold and what the groups can take, and no group takes more than it can |
| DustPool.AllocationWithinDeficit | deribit_engine/profit_sweep_dust.py:514-522 | whatever fill is reported, the credits stay within pool and deficit |
| DustPool.ChunksInPoolOrder | deribit_engine/profit_sweep_dust.py:345-358 | a later group takes coin only when every earlier one is satisfied |
| DustPool.ProceedsFullyCreditedExactly | deribit_engine/profit_sweep_dust.py:359-360 | credited proceeds never exceed the proceeds, and are all of them exactly when all coin was placed |
| DustPool.CreditStaysWithinPremium | deribit_engine/profit_sweep_dust.py:361-379 | no credit lifts a group above its premium |
| DustPool.CreditSettles | deribit_engine/profit_sweep_dust.py:361-389 | a credited queue is filled once its exchange total reaches the premium, any other row keeps its status, and what it was paid grows by its share |
| DustPool.CreditGroup | deribit_engine/profit_sweep_dust.py:361-389 | the row after one credit, for queued and for settled groups |
| DustPool.ApplyAllocation | deribit_engine/profit_sweep_dust.py:334-391 | every listed group is credited its chunk and share in pool order, all others are left alone, and the ids returned are those that took coin |
| DustPool.EnoughForEveryGroup | deribit_engine/profit_sweep_dust.py:345-358 | coin for every listed remainder gives each listed group its full want, and returns its id |
| DustPool.FullQueueIsFilled | deribit_engine/profit_sweep_dust.py:356-375 | with coin for every listed remainder, a group queued and listed at its premium ends filled, with the premium sold on the exchange and nothing remaining |
| ReadCache.PublicReads.Get | deribit_engine/client.py:134-140 | the entry, if it is younger than the caller's TTL |
| ReadCache.PublicReads.Put | deribit_engine/client.py:143-158 | the new entry, with expired ones deleted at most once per interval |
| ReadCache.StoreDropsExactlyTheMisses | deribit_engine/client.py:143-158 | a store drops exactly the entries that a lookup under their own TTL would miss, when pruning is due |
| ReadCache.StoreLosesNoHit | deribit_engine/client.py:143-158 | no later lookup under an entry's own TTL is answered differently for the pruning |
| SingleFlight.LocksKept | deribit_engine/client.py:94-131 | who holds the global lock and each flight lock, and which key it serves, in every state |
| SingleFlight.LoadsUnderOneLockNeverOverlap | deribit_engine/client.py:112-123 | two loads under one flight lock are one thread's |
| SingleFlight.OnlyTheOwnMarkerIsRemoved | deribit_engine/client.py:126-131 | a marker is removed only by the thread holding the lock it names |
| SingleFlight.NeverDeadlocks | deribit_engine/client.py:94-131 | while any call is under way some thread inside a call can step |
| SingleFlightRuns.ServedFromMemoryIsFresh | deribit_engine/client.py:101-141 | a value served from memory was stored less than the TTL ago, and its data is younger than both TTLs together plus the delay before the store |
| SingleFlightRuns.RefsKept | deribit_engine/client.py:105-124 | no stored object is one a caller holds or will be given |
| SingleFlightRuns.SingleFlightPerKey | deribit_engine/client.py:94-131 | for any threads and interleaving: while no load of the key fails and its entry is not met expired, it is loaded at most once |
| SingleFlightRuns.ReachableStatesAreGood | deribit_engine/client.py:94-166 | locks, ages and object identities are in order in every reachable state |
| SingleFlightCalls.LoadsCountedExactly | deribit_engine/client.py:113-121 | a load happens exactly when a call under its flight lock finds no shared entry younger than its TTL |
| SingleFlightCalls.UndisturbedCall | deribit_engine/client.py:94-131 | a call nobody disturbs ends with one new object given out: a memory hit changes nothing, a fresh shared entry is cached without a load, otherwise one load is cached and published |
| SingleFlightOverlap.OverlapAllTheWayBack | deribit_engine/client.py:94-131 | if quiet steps lead to two loads of a key at once, the state they started from was already overlapping |
| SingleFlightWays.OverlapIsReached | deribit_engine/client.py:94-131 | from an overlapping state and a spare thread, a quiet run to two loads at once |
| SingleFlightWays.LoadsOverlapExactly | deribit_engine/client.py:94-131 | in every reachable state with the key not cached, quiet steps can bring two loads of it together if and only if the state is overlapping |
| SingleFlightWays.FailedLoadFromTheStart | deribit_engine/client.py:126-131 | from an empty cache one failed load and two callers end in two loads at once |
| SingleFlightWays.ExpiredEntryFromTheStart | deribit_engine/client.py:113-131 | from an empty cache, without any failure, an expired entry ends in two loads at once |
| Throttle.Penalties.NoteRateLimited | deribit_engine/exchange_throttle.py:39-51 | one identity's penalty doubles up to the cap, all others stay |
| Throttle.Penalties.NoteSuccess | deribit_engine/exchange_throttle.py:54-66 | one identity's penalty halves or clears, all others stay |
| Throttle.PenaltyStaysInBounds | deribit_engine/exchange_throttle.py:39-76 | after any responses a penalty is absent or above the base and at most the cap |
| Throttle.PenaltyAfterStraightLimits | deribit_engine/exchange_throttle.py:39-51 | k straight 429s from rest leave min(cap, base * 2^k) |
| Throttle.IntervalAfterStraightLimits | deribit_engine/exchange_throttle.py:69-76 | the interval is the base from rest and min(cap, base * 2^k) after k straight 429s |
| Throttle.PenaltyAfterStraightSuccesses | deribit_engine/exchange_throttle.py:54-66 | j straight successes clear a penalty p exactly when p is at most base * 2^j |
| Throttle.CapClearsExactlyAtLog2 | deribit_engine/exchange_throttle.py:54-66 | from the cap the penalty clears at the ceiling of log2(cap/base) successes and not before |
| Throttle.WindowBound | deribit_engine/exchange_throttle.py:96-116 | a window of length w holds at most w/base + 1 slots that are a base interval apart |
| Pacing.RequestsArePaced | deribit_engine/exchange_throttle.py:85-116 | for any threads, penalties and interleavings the slots of an identity are at least the base interval apart |
| Pacing.PenaltyIsWaitedOut | deribit_engine/exchange_throttle.py:85-116 | over any run, a request that chose its interval under a penalty is recorded at least that penalty after its identity's previous slot |
| Pacing.PenaltyFollowsResponses | deribit_engine/exchange_throttle.py:39-66 | over any run an identity's penalty is what its own responses make of it, in order |
| Pacing.SleepsNoLonger | deribit_engine/exchange_throttle.py:96-116 | and it sleeps to the later of now and one interval after that slot |
| AtomicIo.Disk.AtomicWriteText | deribit_engine/atomic_io.py:40-64 | every state the disk passes through, for an error at any step |
| AtomicIo.Disk.DurableAppendText | deribit_engine/atomic_io.py:67-83 | the same for an append, which catches nothing and syncs the directory only for a new file |
| AtomicIo.ReplaceIsAtomic | deribit_engine/atomic_io.py:40-64 | in every state on the way the target is an old or the new text in whole; on success it reads as the new text, on an error as before, and with the directory synced only the new text can come back |
| AtomicIo.FailedReplaceKeepsTarget | deribit_engine/atomic_io.py:57-63 | an error at any step leaves the target, now and after a crash, as it was |
| AtomicIo.TempFileLeftExactly | deribit_engine/atomic_io.py:40-64 | the temporary file stays behind exactly when the write failed after there was one and its removal failed too; no other name is touched |
| AtomicIo.RunsLeaveWholeVersions | deribit_engine/atomic_io.py:1-9 | through any run of writes, errors and crashes the target is one of the texts written whole since the last durable write |
| AtomicIo.WithoutFsyncAnyPrefixSurvives | deribit_engine/atomic_io.py:3-8 | the same steps without the file fsync let a crash leave any prefix, down to an empty file |
| AtomicIo.AppendLosesNothing | deribit_engine/atomic_io.py:67-83 | an append, however it ends and wherever a crash strikes, loses no byte that was durable |
| AtomicIo.AppendAddsAStart | deribit_engine/atomic_io.py:67-83 | however an append ends, the file reads as before plus a start of the text, all of it once it was written |
| AtomicIo.AppendDurableExactly | deribit_engine/atomic_io.py:77-83 | a completed append survives every crash exactly when the file's name does |
| AtomicIo.CompletedAppendMayVanish | deribit_engine/atomic_io.py:77-83 | after a first append failed in its fsync, a completed second one may vanish with the whole file |
| CrossBookFlow.SortedIsSorted | deribit_engine/cross_book_flow.py:104-105 | the lists are permuted into descending value |
| CrossBookFlow.Adjustments.MatchFlows | deribit_engine/cross_book_flow.py:95-136 | the two-index loop computes the recursive matching, dictionary included, and terminates |
| CrossBookFlow.MatchedAccounts | deribit_engine/cross_book_flow.py:125-136 | what leaves the lists is what is booked for each book, and both lists lose the same value |
| CrossBookFlow.MatchedConserves | deribit_engine/cross_book_flow.py:125-129 | the adjustments' value over the books does not change |
| CrossBookFlow.MatchedIsMaximal | deribit_engine/cross_book_flow.py:109-136 | however the loop ends, also at an unpriced book, every source or every sink is left below the threshold |
| CrossBookFlow.PassMovesAlmostAll | deribit_engine/cross_book_flow.py:95-136 | a pass moves at least min(S - n * threshold, T - m * threshold) |
| CrossBookPasses.CrossBookFlowAdjustments | deribit_engine/cross_book_flow.py:21-92 | the three passes over one dictionary, with the zero entries dropped |
| CrossBookPasses.RoutedWithinResidual | deribit_engine/cross_book_flow.py:55-90 | a pass books for a book no more than its residual, in its direction, and nothing for others |
| CrossBookPasses.AdjustmentsConserve | deribit_engine/cross_book_flow.py:53-92 | after all three passes the adjustments are worth zero net and name only the day's books |
| CrossBookPasses.TwoPassesNeverOverExplain | deribit_engine/cross_book_flow.py:55-77 | after two passes each adjustment has its delta's sign and no larger magnitude |
| CrossBookPasses.CorrectedNeverOverExplains | deribit_engine/cross_book_flow.py:78-90 | with delta less adjustment as residual the third pass keeps that |
| CrossBookDay.RoutedIsMaximal | deribit_engine/cross_book_flow.py:95-136 | after one pass every source book, or every sink book, has less than the threshold of its residual left |
| CrossBookDay.TwoPassesExplainAlmostAll | deribit_engine/cross_book_flow.py:53-77 | after two passes stable losses or crypto gains are explained up to the threshold, and so are crypto losses or stable gains |
| CrossBookDay.ThirdPassIsMaximal | deribit_engine/cross_book_flow.py:78-90 | the third pass as written leaves one side of the residuals it is given below the threshold |
| CrossBookDay.CorrectedExplainsAlmostAll | deribit_engine/cross_book_flow.py:78-90 | with the corrected residual stable losses or stable gains end explained up to the threshold |
| CrossBookDay.ExternalFlowsAreNeutral | deribit_engine/cross_book_flow.py:35-51 | a deposit booked as an external flow changes no adjustment |
| ThirdPass.OneSource | deribit_engine/cross_book_flow.py:109-136 | a single source serves the sinks in turn, by a closed form |
| ThirdPass.OneSink | deribit_engine/cross_book_flow.py:109-136 | a single sink is served by the sources in turn, by the same closed form |
| ThirdPass.OneSideTotal | deribit_engine/cross_book_flow.py:109-136 | the single source or sink itself moves the sum of those shares |
| ThirdPass.AsWrittenOverExplainsExactly | deribit_engine/cross_book_flow.py:78-90 | as written, no book is over-explained if and only if no stable book that the first passes adjusted trades more than the part of its delta they left |
| ThirdPass.UnadjustedBooksAreSafe | deribit_engine/cross_book_flow.py:78-90 | a stable book the first passes left alone trades no more than its delta |
| ThirdPass.ConversionExplainedTwice | deribit_engine/cross_book_flow.py:78-90 | a lost 100 USDT is explained as 200, and as 100 by the corrected residual |
| PremiumSwap.Group.ScheduleSwap | deribit_engine/csp_premium_swap_ops.py:148-174 | the row and the budget returned, for every status |
| PremiumSwap.Group.ApplyFill | deribit_engine/csp_premium_swap_ops.py:177-198 | the row after a fill and what remains above the dust floor |
| PremiumSwap.Group.MarkDustComplete | deribit_engine/csp_premium_swap_ops.py:207-233 | filled when anything was bought, skipped otherwise |
| PremiumSwap.ReadyIsSchedulable | deribit_engine/csp_premium_swap_ops.py:122-140 | the readiness check passes exactly when scheduling queues something, and what it queues is the whole leftover |
| PremiumSwap.NothingLeftIsTerminal | deribit_engine/csp_premium_swap_ops.py:161-170 | scheduling with nothing left ends the swap, filled exactly when there was a premium |
| PremiumSwap.WholePremiumSwaps | deribit_engine/csp_premium_swap_ops.py:148-198 | a fresh premium above dust is swapped by scheduling, submitting and one fill, with nothing left |
| PremiumSwap.ReadsBackExactly | deribit_engine/csp_premium_swap_ops.py:64-76 | for every row and step the spending read back grows by exactly the fill, if and only if the row is not an old target leaving the queue unfilled |
| PremiumSwap.SpentIsSumOfFills | deribit_engine/csp_premium_swap_ops.py:64-198 | from a fresh row, after any steps, the spending read back is the sum of all fills |
| PremiumSwap.BoughtIsSumOfFills | deribit_engine/csp_premium_swap_ops.py:177-233 | over any run the coin recorded is the coin bought, and a swap that ends skipped bought and spent nothing |
| PremiumSwap.NeverOverspent | deribit_engine/csp_premium_swap_ops.py:79-90 | with fills within what remains, spending never passes the realized premium and the rest is the leftover |
| PremiumSwap.TerminalStaysTerminal | deribit_engine/csp_premium_swap_ops.py:148-174 | a finished swap is never queued or spent on again |
| PremiumSwap.LateFillReopensExactly | deribit_engine/csp_premium_swap_ops.py:177-198 | a fill after the end re-opens a swap exactly when more than dust is unspent |
| PremiumSwap.StashedTargetReadsAsSpent | deribit_engine/csp_premium_swap_ops.py:207-233 | an old target of 100, marked as dust unspent, reads as 100 spent |
| Wheel.CashSecuredChildren | deribit_engine/cash_secured_ops.py:634-653 | the loop lists the children |
| Wheel.ChildrenExact | deribit_engine/cash_secured_ops.py:634-653 | the children are exactly the linked groups, each id once and as its first occurrence |
| Wheel.LinkedExactly | deribit_engine/cash_secured_ops.py:634-653 | a child is a group that names the parent, or one the parent knows by id |
| Wheel.PremiumLedger | deribit_engine/cash_secured_ops.py:55-86 | the loop sums what each child banked |
| Wheel.BankedIsLeftoverPlusFee | deribit_engine/cash_secured_ops.py:55-86 | what a child adds to the ledger is its unswapped premium and the close fee |
| Wheel.WindowIsOrdered | deribit_engine/cash_secured_ops.py:18-52 | the strike window is never inverted or negative |
| Wheel.LadderStaysSecured | deribit_engine/cash_secured_ops.py:44-52 | a put of at most the window's quantity at a strike inside it promises at most the sale notional plus the ledger, and the ceiling just that |
| WheelCash.FlowIsLedgerPlusUnbanked | deribit_engine/cash_secured_ops.py:55-86 | what the children brought in and cost is the ledger, each child once, plus exactly what the ledger leaves out |
| WheelCash.CashIsProceedsPlusLedger | deribit_engine/cash_secured_ops.py:55-86 | after any run of entries, with or without a recorded credit, closes, losing rolls and premium swaps the wheel's cash is the sale's proceeds plus the ledger plus what it leaves out |
| WheelCash.SecuredExactly | deribit_engine/cash_secured_ops.py:18-86 | with no put open, after any run: the cash covers every put the window offers if and only if the window is shut or the coin brought its strike on top of what skipped children cost beyond their unrecorded premium |
| WheelCash.UnrecordedBuybackUncovers | deribit_engine/cash_secured_ops.py:80-85 | a run from the sale on in which a put without a recorded credit is bought back and the window is left uncovered |
| WheelRuns.RollBlocked | deribit_engine/cash_secured_ops.py:678-699 | the first reason that stops the wheel, in the code's order |
| WheelRuns.BlockedReason | deribit_engine/cash_secured_ops.py:678-699 | the reason is that of the first child to give one, then the cover's, then the operator's |
| WheelRuns.BlockedExactly | deribit_engine/cash_secured_ops.py:678-699 | a roll is blocked exactly when the cover is back or on its way or some child ended the wheel |
| WheelRuns.MayFundExactly | deribit_engine/cash_secured_ops.py:220-273 | the readiness check passes if and only if the call is closed with its coin sold, neither cover nor put is on its way or back, every child is spent, and one without children has entered no put |
| WheelRuns.GateMeansNoneOpen | deribit_engine/cash_secured_ops.py:220-273 | the readiness check passes only with no open child and no child that ended the wheel |
| WheelRuns.SubmittedIsQuiet | deribit_engine/engine/covered_call.py:1282-1380 | an order is in flight, in this cycle or a later one, only while no put is open and no child ended the wheel |
| WheelRuns.AtMostOneOpenPut | deribit_engine/cash_secured_ops.py:220-273 | over any run of gated entries, orders that fill later, rolls, aborts and closes at most one put of a parent is open |
| WheelRuns.QuietWheelOpens | deribit_engine/cash_secured_ops.py:220-273 | a parent that passes the check gets its put: the order parks, fills, and is the one open child |
| WheelRuns.RollReplaces | deribit_engine/engine/covered_call.py:3148-3170 | a roll that both gates pass closes the open put and makes the new one the open child |
| WheelRuns.OpeningsAreClean | deribit_engine/engine/covered_call.py:1447-1500 | a put opens only by a fill, with no child closed by an operator or in the money, before or after it |
| WheelRuns.NoPutAfterTheEnd | deribit_engine/engine/covered_call.py:3148-3170 | whenever a run opens a put no child has ended the wheel, the one just bought back included |
| WheelRuns.StoppedForGood | deribit_engine/cash_secured_ops.py:656-699 | once a child was closed by an operator or in the money, no step of any run opens another put |
| WheelRuns.AbortEndsTheWheel | deribit_engine/admin_server/actions.py:347-374 | the operator's abort of a child that closed in no named way stops the wheel and its parent is refused |
| WheelRuns.AbortRefuses | deribit_engine/admin_server/actions.py:347-349 | any abort keeps the parent from entering or rolling another put |
| Calendar.NextMonth | deribit_engine/fee_discount.py:73-78 | months follow each other without gap or overlap |
| Calendar.OrdinalRoundTrip | deribit_engine/fee_discount.py:73-80 | dates and day numbers are in one-to-one correspondence over the years 1 to 9999 |
| FeeDiscount.EpochIsZero | deribit_engine/fee_discount.py:73-80 | timestamp 0 is the first instant of 1970-01-01 |
| FeeDiscount.AddMonthsLands | deribit_engine/fee_discount.py:69-80 | the time of day is kept and the result lies in the following month of that number, on its day or its last |
| FeeDiscount.AddMonthsFailsExactly | deribit_engine/fee_discount.py:69-80 | the addition fails exactly when the calendar ends first |
| FeeDiscount.AddMonthsSpan | deribit_engine/fee_discount.py:69-80 | m months span 28m to 31m days, the default six 181 to 184 |
| FeeDiscount.AddMonthsComposes | deribit_engine/fee_discount.py:69-80 | a then b months never land later than a + b, and land together exactly when the month between is long enough, as it is for days up to 28 |
| FeeDiscount.DiscountHoldsOnOneWindow | deribit_engine/fee_discount.py:83-148 | from a known anchor the rate holds on exactly one half-open window, as long as the months are, and on none once the calendar ends |
| FeeDiscount.DiscountWithoutAnchor | deribit_engine/fee_discount.py:104-148 | with no anchor: never under registration, always under first trade |
| Fees.InferredPremiumExactly | deribit_engine/fees.py:133-153 | the inference is exact up to the first kink and from the second, and between them short by exactly r - c * p, less than r/(1+c) |
| Fees.ReversedInferenceIsExact | deribit_engine/fees.py:101-153 | with the comparison reversed it undoes the fee for every premium |
| Fees.BandPremiumReadShort | deribit_engine/fees.py:133-153 | a premium of 4 that costs 6 is inferred as 3, and as 4 with the comparison reversed |
| Fees.DiscountTakesItsShare | deribit_engine/fees.py:33-38 | a discount takes its share off a fee, none below 0 and all from 1 on |
| Fees.DiscountOnTheTotal | deribit_engine/fees.py:113-130 | the discount takes its share off the whole fee |
| Fees.FeeWithinCaps | deribit_engine/fees.py:101-130 | a fee is never negative and never above the rate or the capped share of the premium |
| Backtest.Ledger.CloseLeg | deribit_engine/backtest.py:409-619 | the first of the five close paths that applies is booked, or none |
| Backtest.Ledger.ManageLegs | deribit_engine/backtest.py:406-620 | the day's closes and the legs left open, in order |
| Backtest.Ledger.RunDay | deribit_engine/backtest.py:368-984 | closes, cap, one entry at most, and the day's row |
| Backtest.Ledger.CloseAll | deribit_engine/backtest.py:986-1024 | the forced close of every leg still open |
| Backtest.Ledger.Run | deribit_engine/backtest.py:336-1024 | the whole run, day by day |
| BacktestFees.EntryFeeTakenExactly | deribit_engine/backtest.py:409-619 | for every leg and close path: the booked result takes off the entry fee if and only if the leg did not expire or had none |
| BacktestFees.ExpiredFeesInflateEquity | deribit_engine/backtest.py:336-1024 | final equity exceeds the capital and the fully charged results by exactly the entry fees of the expired legs |
| BacktestFees.ExpiredLegBooksItsFee | deribit_engine/backtest.py:419-428 | a leg sold for 10 with a fee of 1 that expires worthless books 10 |
| BacktestDays.DayOpensTheBest | deribit_engine/backtest.py:621-906 | when fewer legs than the cap survive and the first highest candidate is listed, exactly that leg opens, after the closes; otherwise none |
| BacktestDays.QuietDayOpensNothing | deribit_engine/backtest.py:621-906 | a day without candidates opens nothing and reaches its end unless the cap stopped it |
| BacktestDays.MostUrgentPathCloses | deribit_engine/backtest.py:409-619 | a leg stays open exactly when no close path applies, otherwise the most urgent one closes it that day |
| BacktestDays.LossStopsExactly | deribit_engine/backtest.py:470-475 | a leg with margin is stopped by its loss exactly when buying it back costs that share of the margin more than it brought in |
| BacktestDays.TimeExitWithoutMark | deribit_engine/backtest.py:579-617 | a leg closed on time without a mark books its two fees alone |
| BacktestDays.ForcedCloseExactly | deribit_engine/backtest.py:986-1024 | each remaining leg is bought back at its mark, at the last spot or else its entry spot |
| BacktestDays.CallLessPutIsForward | deribit_engine/backtest.py:419-423 | at expiry a call and a put of one strike differ by the spot less the strike, and one is worthless |
| BacktestDays.ExpiryIsFairExactly | deribit_engine/backtest.py:421-430 | the expiry result pays a coin-settled leg in coin of its day if and only if the leg is dollar-settled or worthless, or the spot is 1 |
| BacktestDays.CoinLegIsConvertedTwice | deribit_engine/backtest.py:421-430 | a coin-settled call that made 1 books a loss of 1089 |
| BacktestDays.RowsReportTheirDays | deribit_engine/backtest.py:368-376 | in every run row k holds where day k began, how many legs it closed and opened, and where it ended |
| BacktestRuns.ClosesPartition | deribit_engine/backtest.py:406-620 | a day's closes and survivors are together exactly the legs that were open |
| BacktestRuns.BestIsFirstHighest | deribit_engine/backtest.py:868-879 | the entry is the first candidate of the highest score |
| BacktestRuns.EveryBoundaryBalances | deribit_engine/backtest.py:336-984 | at every day boundary equity is capital plus all booked results, opens equal closes plus open legs, the cap holds and no expired leg is open |
| BacktestRuns.RunClosesEverythingOnce | deribit_engine/backtest.py:986-1024 | at the end every leg opened has been closed exactly once |
| BacktestRuns.DrawdownIsWorstFall | deribit_engine/backtest.py:976-984 | the reported drawdown is the worst fall from the running peak, over the days that reached their end |
| MetricsStore.Store.SyncFromClosed | deribit_engine/metrics_store.py:68-119 | the scope's rows become the index of the groups, other scopes stay, and it fails, changing nothing, exactly when a realized group's book is TOTAL |
| MetricsStore.TotalBookFailsSync | deribit_engine/metrics_store.py:76-104 | one realized group whose book is spelled "total" fails the sync |
| MetricsStore.Scan | deribit_engine/metrics_store.py:76-90 | the accumulating loop gives every day's and every book's sum and the realized count |
| MetricsStore.DayIsSumOfBooks | deribit_engine/metrics_store.py:79-90 | a day's PnL is the sum over its books |
| MetricsStore.LoadedTotalsAgree | deribit_engine/metrics_store.py:127-176 | what loads back is the scan's total for each day, and the sum of that day's per-book rows |
| MetricsStore.DaysAddUp | deribit_engine/metrics_store.py:76-90 | the days' totals add up to everything realized |
| MetricsStore.BookFollowsCollateral | deribit_engine/metrics_store.py:76-90 | the collateral names a group's book in any case of letters, the currency only in its absence, USDC in the absence of both |
| MetricsStore.DayHoldsTheClose | deribit_engine/metrics_store.py:76-90 | a group's day is the one its close falls in |
| EnvText.SplitUndoesJoin | deribit_engine/investor_ops.py:822-837 | lines joined and ended are read back as the same lines |
| EnvText.LineBreaksExactly | deribit_engine/investor_ops.py:822-825 | the ten characters that end a line |
| EnvText.StripExactly | deribit_engine/investor_ops.py:825-836 | stripping takes off white space alone, all of it at both ends, line breaks included |
| EnvFile.File.UpdateEnvFile | deribit_engine/investor_ops.py:821-837 | the file's new text for every old text and set of updates |
| EnvFile.File.ReadEnvKey | deribit_engine/env_layout.py:440-451 | the trimmed value of the key's first row, or nothing |
| EnvFile.OtherLinesSurvive | deribit_engine/investor_ops.py:825-836 | lines without an updated key survive verbatim and in place, and only new rows follow |
| EnvFile.CommentsStay | deribit_engine/investor_ops.py:825-836 | a comment is neither edited nor read |
| EnvFile.UpdatedReads | deribit_engine/investor_ops.py:821-837 | an updated key reads its new value trimmed, any other key as before |
| EnvFile.UpdateIsIdempotent | deribit_engine/investor_ops.py:821-837 | a second identical edit changes no line |
| EnvFile.FileReadsBack | deribit_engine/investor_ops.py:821-837 | both of these through the file's text |

## Left out

- NeverOversold: assumes that fetched fills are complete (the source asks for the latest 100), that an order's fills are final when the executor returns, and that the reason carries no lock marker; `LockedQueueOversells` shows why the last is needed.
- ProfitSweepGroup.Group.Execute: wallet and lot sizing (deribit_engine/engine/covered_call.py:2163-2286) is one number that bounds the order; the proceeds come from a helper outside the model.
- ProfitSweepPool.PoolThenPassExactly: for rows without a lock marker; how much of a premium the pool has sold is no field of the journal, so the run carries it beside the journal.
- ProfitSweep: the free-text reason is the set of markers the code searches it for; statuses and ids are taken as already trimmed and lower-cased; the premium of a group is constant.
- The manage-cycle entry to the sweep (deribit_engine/engine/covered_call.py:1990-2093), `heal_reconciled_proceeds_drift` and `sync_filled_profit_sweep_amounts_to_premium`, which add the lock markers, the run's counters and action payloads, and the manual unlabelled sells.
- TradeCache.Cache.EnsureCurrency: labels and currencies are taken as given; the error's text is not kept.
- DustPool: where the pool's rows come from (`collect_dust_remainder_rows`, the alignment plan behind the deficit) is an input.
- SingleFlight: reads with a TTL of zero or less bypass the cache and are not steps; the shared store is any sequence of publications and evictions; payloads are object identities, so a shallow copy's inner objects may still be shared.
- Pacing.RequestsArePaced: for a positive base interval; with none the source does not pace.
- AtomicIo: a crash brings back the directory as it stood at some moment since its last fsync, so a rename is never half done; creating parent directories, encodings and two writers on one temp file are outside.
- AtomicIo.AppendDurableExactly: for a file that is only ever appended to.
- CrossBookFlow.PassMovesAlmostAll: needs a positive threshold, as the default is.
- PremiumSwap.SpentIsSumOfFills: the close result is fixed during the run, and the row starts with nothing spent or with an amount an earlier step left.
- PremiumSwap.NeverOverspent: a fill answers a queued order; the executor's guess that an order without trade legs was filled counts as a fill.
- PremiumSwap.Group.MarkDustComplete: the text of the reason is not modelled.
- Wheel: sizing, ranking, near-strike holds and crisis gates; group ids and statuses are taken as trimmed and lower-cased.
- WheelRuns.StoppedForGood: the group list only grows, whether the cover is restored is an input, and a closed group keeps its close reason and index but for the operator's abort; the backfill that relabels a `reconciled_external` close as an income exit (deribit_engine/trade_journal_backfill.py:815-840) is not a step.
- WheelCash.SecuredExactly: the window is taken for the parent's own strike and the ladder on; the trading fee of a premium swap is part of what the fill reports.
- FeeDiscount: exact on milliseconds, while the float conversion in the source may lose one off whole seconds; anchor names are taken as trimmed and lower-cased; the scans for the first trade and the configuration object are outside.
- Fees.InferredPremiumExactly: without a fee discount, as the source infers.
- Backtest: prices, fees, deltas, gates and candidates are inputs for each day and leg, so whether they are right is not modelled; the stress overlay changes no ledger field and is left out, as is a leg's last mark.
- BacktestDays.ExpiryIsFairExactly: the premium of a coin-settled leg is taken to be in coin, as its mark is (deribit_engine/backtest.py:387-405).
- BacktestDays.LossStopsExactly: for a leg with margin and a positive loss limit.
- SingleFlightCalls.UndisturbedCall: no other thread steps during the call and no flight of the key is under way; what concurrent calls may do is the subject of the interleaving theorems.
- MetricsStore: nested dictionaries are flat maps, values are numbers rather than text, days are numbers rather than date strings, and only ASCII letters are upper-cased.
- EnvFile: the text is what reading in text mode gives, and a missing file reads like an empty one.
- HTTP, JSON-RPC, OAuth, SQLite, scheduling, web serving, report rendering, option pricing, candidate selection and configuration parsing.
- The high-water mark of investor fees: it may fall (deribit_engine/investor_nav_snapshot.py:757) and its basis changes (deribit_engine/investor_fee_report_period.py:264-271), so monotonicity is not what the code does.
