# Bond trading strategies: verified models

Dafny models of the stateful core of the bond trading strategies server, with machine-checked proofs of what
that core promises. One module per component; `dafny verify dfyconfig.toml` checks everything.

| modules | component |
|---|---|
| `ClientOrderId` | the client order id: printer, listing prefix, stream filter; UUID text as in section 4 of RFC 9562 |
| `ExecLedger`, `ExecState`, `ExecRecovery`, `ExecFills` | the order ledger of an execution run: its arithmetic, the objects that hold and checkpoint it, a step machine of exchange, memory and disk with crashes, and its fills against the exchange's own |
| `Replay`, `ReplayBars`, `ReplayLaws`, `ReplayEntries`, `Breakout`, `BreakoutExits`, `BreakoutEntry`, `BreakoutSlide`, `MeanReversion` | the backtest replay loop over bars, trades and ticks, shared by two strategies that plug in their sizing and exits; what one bar does, where positions come from, the breakout exits in numbers, its decisions with their ATR window, and a worked replay |
| `Arming` | the breakout strategy's arming and confirmation machine |
| `CopyTrading`, `CopyTradingSizing`, `CopyTradingEquity`, `CopyTradingLog` | the copy-trading ledger: signed positions, average entry, leverage cap, compounding equity; the size of each order; when its running balance is the equity; and its trade log |
| `BarFeed`, `RegistryStream`, `CandleRegistry` | the closed-bar transducer, the bounded replay cache with its fan-out, and the refcounted registry of shared streams |
| `GraceTeardown`, `GraceOutcomes` | refcounted order-update subscriptions with a grace timer and teardown goroutines; what each call does, and that idle ones go away |
| `Notifications`, `NotificationDelivery`, `NotificationReconnect` | publish, subscribe, replay and live delivery of a user's notifications: step by step, over whole runs, and across a reconnect |
| `Keyset`, `CandleFold`, `CandleTable`, `BenchmarkIndex` | keyset pagination, the SQL candle fold with flat fill and its candles read off the table, and the cached benchmark curve |

`Prelude` holds the two result types all of them share.

How it is modelled. Objects whose methods update fields are classes whose methods are proved equal to a
specification function; loops are `while`/`for` loops proved against such a function; the laws are lemmas about
the functions. Goroutines, locks and the outside world are step machines: one step is one critical section or one
action of the environment, and the theorems quantify over every finite sequence of enabled steps. Decimals are
exact reals, times are integers, ids are numbers or strings. The exchange, the database, clocks and the strategies'
statistics are parameters.

Where the code and its own documentation disagree, the model follows the code, and a lemma says exactly when the
documented promise holds:

- An order that is already settled when it is imported is skipped by the reconcile pass, although the comment above
  the import leaves its fills to that pass. The restart sequence then misses exactly the fills of those orders
  (`ExecLedger.RestartShortfall`), so it counts everything iff they filled nothing (`ExecLedger.RestartCountsAllIff`);
  a later report that restates such an order does add its fill (`ExecLedger.RestatementCloses`). Over whole runs that
  end in a restart, `ExecFills.EveryRunCountsFills` measures this against the exchange.
- A grace timer's stop function is not reset after use: a second start after a restart closes a closed channel
  (`GraceTeardown.SecondRunPanics`). A teardown goroutine deletes by user, not by subscription, and can unmap a live
  one (`GraceTeardown.StaleTimerDropsLiveUser`).
- The profit of a closed copy-trading short is recorded with a long's sign. The balance that sizes orders stays the
  equity iff no buy ever closes a short away from its average entry (`CopyTradingEquity.EquityThroughoutIff`).
- The in-memory replay ring is said to cover a failed insert, but nothing reads it: such an event is delivered live
  and lost exactly where live delivery does not reach (`NotificationDelivery.FailedInsertOverRun`). Replayed events ignore
  the `types` filter (`Notifications.FilterIgnoredByReplay`).
- An event id is said to be a correct replay cursor. It is if one user's events are published one after the other in
  id order (`NotificationReconnect.NothingLostAcrossReconnect`); a lower id that comes out while the client is away is
  never sent (`NotificationReconnect.NeverSentIff`, `NotificationReconnect.LateLowerIdIsLost`).
- A breakout that the volume gate suppresses still disarms the machine (`Arming.SignalsExactlyAtBreakouts`,
  `Arming.GateSpendsBreakout`).
- Once a backtest's equity is negative its next entry has a negative quantity (`ReplayEntries.NegativeQuantityIff`),
  and its stops gain unless they fill exactly on their level (`Breakout.BandExitsPayTheirBandIff`). Seven bars and the
  strategy's own decisions are enough to get there (`BreakoutSlide.NegativeStopGains`); a mean-reversion exit at the
  bar extreme is then better than the close (`MeanReversion.ExtremeFillIsWorst`).
- The first fill of the benchmark cache is neither sorted nor deduplicated. `BenchmarkIndex.FirstFillIsRightIff` says
  for which lists that is harmless; one without repeated days is repaired by the next merge, whatever its order
  (`BenchmarkIndex.MergeIsUnion`).

The live exit check is off at a zero entry ATR and the bar check is not (`Breakout.ZeroATRDisagrees`), but no replayed
position has one: a signal needs a close away from the previous close, which the ATR window contains
(`BreakoutEntry.PositionsHaveATR`).

Copied orders apply the leverage to a headroom that already includes it. With no maximum size and a share times
leverage above one, no order ever fits, and a backtest never trades (`CopyTradingSizing.OverleveragedNeverOpens`).

## Model

| member | source | states |
|---|---|---|
| ClientOrderId.TextRoundTrip | strategy/decision.go:109-120 | reading the printed text of a run id gives the id back, and the text holds no dot |
| ClientOrderId.TextInjective | strategy/decision.go:109-120 | two run ids with the same text are the same |
| ClientOrderId.TextForm | strategy/decision.go:109-120 | the text is 36 characters, dashes at 8, 13, 18 and 23, and each byte's two lower-case digits in order, the high one first |
| ClientOrderId.ParsesExactly | notifications/orderupdates/filter.go:68-108 | a 36-character run segment parses iff it has those dashes and digits of either case that spell the id's bytes, and as no other id |
| ClientOrderId.SplitBuild | notifications/orderupdates/filter.go:68-108 | splitting a printed order id recovers name, run and suffix iff the strategy name has no dot |
| ClientOrderId.PrefixIffSplit | strategy/decision.go:118-120 | a raw id starts with a run's listing prefix iff it splits into that name and that run |
| ClientOrderId.PrefixExact | strategy/decision.go:109-120 | a prefix matches a printed id iff strategy and run agree or the other name itself begins like the prefix, which no dot-free name does |
| ClientOrderId.DottedNameCollides | strategy/decision.go:109-120 | a name with dots can be taken for another strategy's run |
| ClientOrderId.TranslateBuild | notifications/orderupdates/filter.go:68-108 | a printed id of a dot-free strategy is forwarded iff the strategy is known and the run is running or paused and the user's own |
| ClientOrderId.TranslateParts | notifications/orderupdates/filter.go:68-108 | any id of three parts, however spelled, is forwarded iff its name is known and its run segment parses to a running or paused run of the user |
| ClientOrderId.ForwardedHasParts | notifications/orderupdates/filter.go:68-108 | nothing else is forwarded |
| ClientOrderId.ForwardedIsListed | notifications/orderupdates/filter.go:68-108 | a forwarded id is found again by its run's listing prefix iff its run segment is in canonical text |
| ExecLedger.ApplyFillSums | strategy/exec/exec.go:220-268 | the exact change of TotalFilled and of the settled fills by one report |
| ExecLedger.UpdateIsRight | strategy/exec/exec.go:220-268 | after a stream update the last entry with the event's client id carries the event's fill and status, every other entry and TotalSubmitted are as before, and TotalFilled grows by the whole fill of a newly settled order, by what a restatement added, and else not |
| ExecLedger.UpdateKeeps | strategy/exec/exec.go:220-268 | a stream update keeps ids distinct, TotalSubmitted equal to the requested sum and TotalFilled at least the settled fills; equality survives iff the report is absorbing |
| ExecLedger.UpdateIdempotent | strategy/exec/exec.go:220-268 | applying the same event twice is applying it once |
| ExecLedger.ReconcileKeeps | strategy/exec/exec.go:315-364 | a reconcile pass keeps the ledger sound, and exact if it was |
| ExecLedger.ReconcileEntry | strategy/exec/exec.go:315-364 | after a pass each entry is unchanged if settled or unanswered, else carries the exchange's answer |
| ExecLedger.ReconcileTotal | strategy/exec/exec.go:315-364 | a pass moves TotalFilled by exactly the change in settled fills, for any ledger and any answers |
| ExecLedger.ImportKeeps | strategy/exec/exec.go:383-433 | an import keeps the ledger sound and exact, only appends, and learns exactly the importable ids |
| ExecLedger.ImportKnown | strategy/exec/exec.go:383-433 | importing a listing whose orders are all known changes nothing |
| ExecLedger.ImportTwice | strategy/exec/exec.go:383-433 | a second import of any listing changes nothing |
| ExecLedger.ImportedEntry | strategy/exec/exec.go:383-433 | every entry an import adds is a listed order with its quantity and status and no fill |
| ExecLedger.ImportedFillIsSeen | strategy/exec/exec.go:366-433 | after import and a truthful pass an imported order's entry carries the exchange's fill iff it was not settled when listed or filled nothing |
| ExecLedger.TruthfulPassShortfall | strategy/exec/exec.go:309-364 | after a truthful pass over an exact ledger TotalFilled is short of the exchange by exactly what its settled entries lacked |
| ExecLedger.RestartShortfall | strategy/exec/exec.go:366-433 | after import and a truthful pass TotalFilled is short by exactly the fills of the imported orders that were settled when listed |
| ExecLedger.RestartCountsAllIff | strategy/exec/exec.go:366-433 | the restart sequence counts every fill iff those orders had filled nothing |
| ExecLedger.RestatementCloses | strategy/exec/exec.go:250-256 | a later report that restates a settled order adds exactly what was lacking on it |
| ExecLedger.SettledOrphanIsMissed | strategy/exec/exec.go:366-433 | a concrete settled orphan whose ten units the restart sequence misses and a restating report adds |
| ExecState.RunState.AppendOrder | strategy/exec/exec.go:123-126 | appends at the returned index and changes nothing else |
| ExecState.RunState.FindOrderByClientID | strategy/exec/exec.go:128-135 | returns the first entry with the id, or nothing iff there is none |
| ExecState.RunState.SetOrder | strategy/exec/exec.go:137-143 | overwrites fill and status in place; an index out of range is ignored |
| ExecState.Executor.PlaceOrder | strategy/exec/exec.go:178-210 | appends the order and adds its quantity to TotalSubmitted iff the exchange accepted it |
| ExecState.Executor.ProcessOrderUpdate | strategy/exec/exec.go:220-268 | the last entry with the event's client id takes its fill and status, settled or not, all else stays, TotalFilled moves as above; the state is saved unless the order is unknown |
| ExecState.Executor.ReconcilePendingOrders | strategy/exec/exec.go:315-364 | the loop over the mutating list equals the specified pass, then saves |
| ExecState.Executor.ImportOrphanedOrders | strategy/exec/exec.go:383-433 | the loop equals the specified import; a failed listing changes nothing and an empty import does not save |
| ExecState.Executor.SaveState | strategy/exec/exec.go:437-450 | a failed write leaves the previous checkpoint |
| ExecState.Executor.LoadState | strategy/exec/exec.go:453-458 | returns the last checkpoint, or an empty state |
| ExecRecovery.RoundingError | strategy/dora_client.go:228-229 | sending three decimals moves a quantity by at most 0.0005 |
| ExecRecovery.RoundedToNearestEven | strategy/dora_client.go:228-229 | what is sent is the nearest three-decimal number, the even one of two equally near |
| ExecRecovery.SubmitOutcome | strategy/exec/exec.go:178-210 | a positive quantity the exchange takes is there within 0.0005; memory learns it as requested only if the reply with its id arrives; the checkpoint never does |
| ExecRecovery.StreamOutcome | strategy/exec/exec.go:220-268 | a stream update moves memory as its event says, nothing at the exchange, and the checkpoint only for a known order |
| ExecRecovery.CheckpointSurvives | strategy/exec/exec.go:437-458 | save, crash, load gives back what was saved; a crash alone goes back to the checkpoint, or to an empty ledger without one |
| ExecRecovery.StepKeeps | strategy/exec/exec.go:178-458 | every submit, exchange move, save, crash, load, import, reconcile and update keeps ledger and checkpoint sound, each of their orders being one of this run's at the exchange for its quantity up to rounding |
| ExecRecovery.EveryRunIsSound | strategy/exec/exec.go:178-458 | over every run from a fresh start, saves that fail included, memory and checkpoint hold distinct ids that are all at the exchange, TotalSubmitted is the sum of the requested quantities, and TotalFilled covers every settled fill |
| ExecRecovery.RunsStayExact | strategy/exec/exec.go:178-458 | if updates of settled orders are absorbing, TotalFilled is exact in memory and on disk over every run |
| ExecRecovery.RecoveryIsComplete | strategy/exec/exec.go:366-458 | from any crashed state, load and import of a complete listing give exactly the exchange's ids of this run, once each, TotalSubmitted within 0.0005 per order of the exchange's total, and a second import is silent |
| ExecRecovery.OnlyThisRunIsOwn | strategy/decision.go:109-120 | with a dot-free strategy's prefix, a printed order is taken for this run's iff strategy and run agree |
| ExecRecovery.EveryRunRecovers | strategy/exec/exec.go:178-458 | any run from a fresh start followed by a crash recovers exactly the run's orders, however stale the checkpoint |
| ExecFills.SettledFillsAgree | strategy/exec/exec.go:309-364 | entries that are exactly the run's orders sum, by the exchange's answers, to the run's settled fill there |
| ExecFills.RecoveryCountsFills | strategy/exec/exec.go:309-433 | after load, import of a complete listing and a pass the exchange answers, TotalFilled is the run's settled fill at the exchange less exactly what already settled entries lacked |
| ExecFills.EveryRunCountsFills | strategy/exec/exec.go:178-458 | the same after any run from a fresh start with absorbing updates, a crash and the three restart steps |
| Replay.TickWindow | strategy/breakout/backtest.go:378-391 | the lazy cursor returns exactly the ticks in (from, to], however far it lagged |
| ReplayBars.WindowIff | strategy/breakout/backtest.go:378-391 | a window has exactly the ticks with from < time ≤ to |
| ReplayBars.WindowIsStretch | strategy/breakout/backtest.go:378-391 | on a sorted tape it is one unbroken stretch of it, all earlier ticks too early and all later ones too late |
| Replay.IngestTradesUpTo | strategy/breakout/backtest.go:534-548 | advances over exactly the trades up to the cutoff |
| ReplayBars.IngestedIsPrefix | strategy/breakout/backtest.go:534-548 | what is ingested is the prefix of the trades up to the cutoff, inclusive |
| Replay.CloseDecision | strategy/breakout/backtest.go:145-247 | the in-place close decision equals the specified one when the carried tick flag is right |
| Replay.ReplayTicks | strategy/breakout/backtest.go:250-277 | either no tick of the window exits and nothing changes, or the first that does closes the position at its own time, at that exit's price and reason, with one more closed trade |
| Replay.TickPhase | strategy/breakout/backtest.go:250-277 | the window replay, and the flag left for the next bar is true iff a tick lies between the two closes |
| Replay.Run | strategy/breakout/backtest.go:75-339 | on ordered tapes the loop with three lazy cursors and a carried flag equals the cursor-free definition, in which each bar sees exactly its window and its covering |
| Replay.FirstExitCloses | strategy/breakout/backtest.go:263-275 | over any window an open position survives every tick unchanged, or is closed by the first tick that exits it |
| ReplayBars.CoveredIff | strategy/breakout/backtest.go:145-195 | a bar counts as covered iff some tick lies after the previous close and up to its own |
| ReplayBars.HeldBar | strategy/breakout/backtest.go:145-277 | a bar that starts with a position: the bar exit closes it at the bar's close time, otherwise it survives all ticks of the window or the first exiting one closes it |
| ReplayBars.FlatBar | strategy/breakout/backtest.go:196-277 | a bar that starts flat: an error iff the update fails or it wants to open at a zero price; it opens, for the whole bonds the budget is worth, iff it wants to and they are not zero, and its ticks decide from there |
| ReplayBars.StillOpen | strategy/breakout/backtest.go:250-277 | a position still open after a bar was exited by no tick after that bar's close and up to the next close |
| ReplayBars.CashInNumbers | strategy/breakout/backtest.go:196-339 | the balance is the capital plus price difference × quantity of every closed trade, less what the open long cost or plus what the open short brought |
| ReplayBars.EndCloses | strategy/breakout/backtest.go:281-322 | a position left open at the end is closed at the last bar's close price and time with the forced reason |
| ReplayLaws.CashConserved | strategy/breakout/backtest.go:196-339 | at every bar, balance with the open position at cost is capital plus all closed profit and loss |
| ReplayLaws.OutcomeChained | strategy/meanreversion/backtest.go:149-320 | each trade's entry balance is capital plus the profit and loss of all trades before it |
| ReplayLaws.TimelineKept | strategy/breakout/backtest.go:99-322 | at every bar, trades and records are in time order and none lies past the replay clock |
| ReplayLaws.OutcomeOrdered | strategy/breakout/backtest.go:99-322 | Open_k ≤ Close_k ≤ Open_{k+1}, record times never decrease, and entries lie in (TradeFrom, TradeTo] |
| ReplayLaws.WindowsPartition | strategy/breakout/backtest.go:250-277 | every instant after the first close lies in exactly one tick window, so no tick is checked twice or skipped |
| ReplayLaws.OutcomeGood | strategy/breakout/backtest.go:196-339 | what holds of every single exit decision holds of every closed trade of every replay |
| ReplayLaws.OutcomePaired | strategy/meanreversion/backtest.go:149-436 | one entry row and one exit row per closed trade, in order, with its times, prices and quantity |
| ReplayLaws.LongEntryAffordable | strategy/breakout/backtest.go:196-247 | a long entry never spends more than the balance |
| ReplayLaws.EntrySign | strategy/breakout/backtest.go:196-247 | the quantity is positive iff the budget buys one bond and negative iff the budget is negative |
| ReplayEntries.EntriesTraced | strategy/breakout/backtest.go:196-247 | every position a replay holds was opened at one of its bars, on that bar's decision, at its close, for the whole bonds its budget buys |
| ReplayEntries.NegativeQuantityIff | strategy/breakout/backtest.go:196-247 | a trade at a positive price has a negative quantity iff capital plus all earlier profit and loss, times its size, is negative |
| Breakout.BarStopIffLiveStop | strategy/breakout/backtest.go:402-477 | with positive ATR the bar check stops iff some price in [Low, High] stops live |
| Breakout.BarProfitIffLiveProfit | strategy/breakout/backtest.go:402-477 | it takes profit iff no traded price stops and some takes profit live |
| Breakout.ZeroATRDisagrees | strategy/breakout/strategy.go:1051-1087 | at ATR zero, which no replayed position has, the live check would never fire and the bar check would stop iff the bar reached the entry price |
| Breakout.BandFillIsTraded | strategy/breakout/backtest.go:450-477 | the gap-capped fill lies in [Low, High] |
| BreakoutExits.TickExitInNumbers | strategy/breakout/strategy.go:1051-1087 | a tick exits at its price iff it moved the stop's multiple of the entry ATR against the position, else iff it moved the take-profit's for it; never at a zero ATR |
| BreakoutExits.BarExitInNumbers | strategy/breakout/backtest.go:402-477 | a bar without ticks stops on its worst price, else takes profit on its best, filled on the band or at an open beyond it, else is reversed at its close; a bar with ticks is only reversed |
| BreakoutExits.OpenMetNoBand | strategy/breakout/backtest.go:250-277 | a breakout position still open after a bar met no tick up to the next close that reached its stop or take-profit distance |
| BreakoutExits.EndsWithStrategyExit | strategy/breakout/backtest.go:281-322 | a breakout position left open at the end is closed at the last close as a strategy exit |
| Breakout.BandExitsPayTheirBandIff | strategy/breakout/backtest.go:402-477 | in every replay a stop loses at least quantity × multiple × ATR, and a take-profit gains at least that, iff the equity before the trade times its size is not negative or the fill is exactly on the level |
| Breakout.BandExitsPayTheirBand | strategy/breakout/backtest.go:402-477 | in every replay both bounds hold for every trade with a non-negative quantity |
| Breakout.StopPnlBoundIff | strategy/breakout/backtest.go:607-624 | one stop's bound holds iff the quantity is not negative or the fill is exactly on the level |
| Breakout.ProfitPnlBoundIff | strategy/breakout/backtest.go:607-624 | the same for one take-profit |
| BreakoutEntry.StateIsIncremental | strategy/breakout/strategy.go:421-488 | the decision after a history uses the state its earlier updates left, whatever trades they had seen |
| BreakoutEntry.TrueRangeCovers | strategy/types/types.go:109-133 | a bar's true range is at least its move from a non-zero previous close |
| BreakoutEntry.TrueRangeIsSpread | strategy/types/types.go:109-133 | the true range is the spread of the bar's extremes and the previous close together, or of the extremes alone without one |
| BreakoutEntry.AtrIsMean | strategy/breakout/strategy.go:522-557 | the ATR times its bar count is the sum of the last true ranges, at most a window of them |
| BreakoutEntry.InputInWords | strategy/breakout/strategy.go:421-488 | each update sees its bar's close, is ready once the long window is full, and uses deviations and ATR of the bars so far |
| BreakoutEntry.AtrPositive | strategy/breakout/strategy.go:522-557 | the window's mean true range is positive when the last close moved |
| BreakoutEntry.SignalsHaveATR | strategy/breakout/strategy.go:421-520 | for positive prices every signal comes with a positive ATR |
| BreakoutEntry.PositionsHaveATR | strategy/breakout/backtest.go:196-247 | every position a replay holds was recorded with a positive ATR |
| BreakoutEntry.BarCheckIsLiveCheck | strategy/breakout/backtest.go:402-477 | at every bar of every replay, with no condition on the ATR, the bar check stops iff some traded price stops live, and takes profit iff none stops and some takes profit |
| BreakoutSlide.Decisions | strategy/breakout/strategy.go:421-520 | on seven one-price bars the strategy's own machine sells at 5, buys at 20 and sells at 10, with ATRs 2.5, 10 and 12.5 |
| BreakoutSlide.NegativeStopGains | strategy/breakout/backtest.go:196-247 | the replay of those bars: a short stopped into negative equity, an entry for minus twenty bonds, and a stop that gains three hundred |
| MeanReversion.BacktestReport | strategy/meanreversion/backtest.go:64-436 | on increasing bars: paired rows, ordered times, and entry balances that add up |
| MeanReversion.ExtremeFillIsWorst | strategy/meanreversion/backtest.go:617-626 | an exit at the adverse extreme does no better than the close, iff the quantity is not negative or the bar closed at that extreme |
| MeanReversion.TickExitIff | strategy/meanreversion/backtest.go:320-362 | a tick exits at its price iff it reports a yield whose spread over the bar's benchmark has a z-score that exits |
| MeanReversion.BarExitIff | strategy/meanreversion/backtest.go:120-180 | a bar exits at its low (a long) or high (a short) iff no tick covered it and its worst reported yield exits, else at its close iff the decision's z-score exits |
| Arming.Strategy.ResetArmed | strategy/breakout/strategy.go:611-616 | back to unarmed with zero counters and the last price kept |
| Arming.Strategy.EvaluateBreakout | strategy/breakout/strategy.go:572-609 | counters, decision and reset are those of the specified step |
| Arming.Strategy.Update | strategy/breakout/strategy.go:421-520 | the object's new state and decision are those of the specified update |
| Arming.AlwaysExplained | strategy/breakout/strategy.go:466-488 | over every history the state says exactly what happened since the last breakout: armed from the first compressed bar, counters below the confirmation count, its ratio remembered |
| Arming.SignalsExactlyAtBreakouts | strategy/breakout/strategy.go:466-520 | a breakout is announced exactly at the bar completing its side's count, with the arming ratio, and disarms even when the volume gate suppresses it |
| Arming.GateSpendsBreakout | strategy/breakout/strategy.go:496-520 | a two-bar history whose breakout the volume gate holds back, after which the machine is unarmed |
| Arming.CompressedInNumbers | strategy/breakout/strategy.go:466-488 | compression means the short deviation is below threshold × the long one, or a positive threshold when the long one is zero |
| Arming.CountsAreSets | strategy/breakout/strategy.go:572-609 | each side's count is the number of ready, volatile enough bars that closed more than multiple × ATR beyond the close before |
| CopyTrading.Backtester.AvailableForNewPos | strategy/copytrading/backtest.go:63-85 | the loop over the map, in any order, gives equity × leverage less all deployed notional, at least zero |
| CopyTrading.Backtester.ClosePosition | strategy/copytrading/backtest.go:496-563 | removes the position and books cash, running balance and record as specified |
| CopyTrading.Backtester.OpenOrExtend | strategy/copytrading/backtest.go:375-494 | opens or extends at average cost as specified |
| CopyTrading.Backtester.Simulate | strategy/copytrading/backtest.go:128-256 | the loop over source trades equals the specified run |
| CopyTrading.GrowMoney | strategy/copytrading/backtest.go:375-411 | an open or extension moves exactly its cost from cash into the averaged position |
| CopyTrading.RunsKeepBooks | strategy/copytrading/backtest.go:128-563 | over every run cash plus positions at cost is the start balance plus the profit really made, the running balance is start plus profit recorded, and each close starts from all recorded before it |
| CopyTrading.OpensStayUnderCap | strategy/copytrading/backtest.go:63-85 | in every run no open or extension leaves deployed notional above running balance × leverage |
| CopyTradingSizing.OpeningTrade | strategy/copytrading/backtest.go:185-225 | a trade not against the position is skipped iff its price is not positive, there is no room, the wanted amount is under the minimum or the ordered amount is over the room; else it ties up exactly the ordered amount more: room × share × leverage, cut to the maximum |
| CopyTradingSizing.ClosingTrade | strategy/copytrading/backtest.go:170-184 | a trade against the position closes all of it at its price whatever the limits; a zero price is skipped |
| CopyTradingSizing.StartsInCash | strategy/copytrading/backtest.go:36-44 | a run starts with the configured balance in cash, or with 10000 |
| CopyTradingSizing.OverleveragedNeverOpens | strategy/copytrading/strategy.go:648-667 | with no maximum and share × leverage above one no run ever opens a position |
| CopyTrading.NeverFlips | strategy/copytrading/backtest.go:306-494 | one source trade never turns a long into a short or back, and leaves other assets alone |
| CopyTrading.RunningBalanceIsEquityIff | strategy/copytrading/backtest.go:528-563 | the sizing balance is the realised equity iff the recorded profit of closed shorts sums to zero |
| CopyTradingEquity.StepDrift | strategy/copytrading/backtest.go:344-373 | a source trade moves the sizing balance away from the equity iff it is a buy that closes a short away from its average entry, and by how much |
| CopyTradingEquity.EquityThroughoutIff | strategy/copytrading/backtest.go:128-256 | the sizing balance is the realised equity all along a run iff no such buy occurs |
| CopyTrading.ProfitableShortIsRecordedAsLoss | strategy/copytrading/backtest.go:528-563 | a concrete short that earns 2000 and is recorded as losing 2000 |
| CopyTradingLog.LogReplays | strategy/copytrading/backtest.go:326-586 | after every run, replaying the trade log rebuilds the cash and every net position, and each row holds the cash before and the position after its trade |
| BarFeed.Loop | strategy/barfeed.go:47-80 | however the stream is batched, the channel loop emits the output specified for the flattened stream, up to where a stop request wins |
| BarFeed.FeedAppend | strategy/barfeed.go:47-80 | output does not depend on batching |
| BarFeed.PendingIsLatest | strategy/barfeed.go:47-80 | the pending bar is the last version of the newest timestamp seen |
| BarFeed.OutputIncreases | strategy/barfeed.go:47-80 | emitted times strictly increase and lie before the pending bar |
| BarFeed.OutputIsLastVersion | strategy/barfeed.go:47-80 | each emitted bar is the last version of its time seen before the first later time |
| BarFeed.LastVersionIsOutput | strategy/barfeed.go:47-80 | and every such last version is emitted |
| BarFeed.ReplayIsSilent | strategy/barfeed.go:47-80 | replaying the whole history emits nothing and leaves the pending bar |
| RegistryStream.BarCache.Add | strategy/candle_registry.go:228-235 | the in-place eviction leaves the last cap bars in order |
| RegistryStream.StepKeeps | strategy/candle_registry.go:172-254 | every critical section keeps the cache equal to the stream's tail and every channel in stream order, with no send to or close of a closed channel |
| RegistryStream.JoinedInv | strategy/candle_registry.go:172-185 | the snapshot replay fits its new channel, so it never blocks, and starts min(n, 4096) bars back |
| RegistryStream.JoinOutcome | strategy/candle_registry.go:172-185 | a subscriber starts with the latest 4096 bars of the stream, or all there are, in a channel with room for 16 more |
| RegistryStream.EmitOutcome | strategy/candle_registry.go:226-245 | a bar goes to the end of the stream and of every registered channel with room, and changes no other |
| RegistryStream.LeaveOutcome | strategy/candle_registry.go:186-254 | an exit closes every registered channel, a cancel its own, and what is in them stays readable |
| RegistryStream.NoGapNoDuplicate | strategy/candle_registry.go:172-245 | a subscriber that missed nothing received one unbroken stretch of the stream |
| RegistryStream.StretchThenSubsequence | strategy/candle_registry.go:172-245 | up to its first missed bar a channel received one unbroken stretch, at least cap bars in all, then a subsequence without that bar |
| CandleRegistry.DropRefKeeps | strategy/candle_registry.go:202-214 | the second unsubscribe section keeps counts exact and tears down at most once |
| CandleRegistry.StepKeeps | strategy/candle_registry.go:129-254 | every step under either lock keeps both the registry and the stream invariants |
| CandleRegistry.EveryInterleaving | strategy/candle_registry.go:129-254 | over every interleaving refs equals the unreleased handles, an entry is mapped iff in use, teardown is once, no closed channel is used |
| CandleRegistry.MissesNothingIff | strategy/candle_registry.go:226-245 | over every run from the empty registry a subscriber misses nothing iff its channel had room at every emission while registered |
| CandleRegistry.EverySubscriber | strategy/candle_registry.go:129-254 | on every such run a subscriber with room throughout holds an unbroken stretch of its entry's stream up to the present, and any other one an unbroken stretch of at least its buffer up to the first miss and a subsequence after it |
| CandleRegistry.LiveIffHeld | strategy/candle_registry.go:186-214 | with the registry lock free an entry is mapped iff someone holds it and torn down iff nobody does |
| CandleRegistry.StreamIsEmissions | strategy/candle_registry.go:216-245 | over every run from the empty registry an entry's stream is exactly what was emitted on it, in order |
| GraceTeardown.StepKeepsIff | notifications/orderupdates/manager.go:121-232 | for balanced callers a step keeps every user with runs served, every open subscription mapped and no panic, iff it neither stops a timer twice nor is a stale teardown |
| GraceTeardown.RunKeepsIff | notifications/orderupdates/manager.go:121-232 | a whole run stays good throughout iff none of its steps is one of those two |
| GraceTeardown.RunsAreServed | notifications/orderupdates/manager.go:168-222 | in a good state a user with runs has an uncancelled subscription with that count |
| GraceTeardown.SecondRunPanics | notifications/orderupdates/manager.go:136-144 | with runs active, one more start panics iff the subscription was ever armed |
| GraceOutcomes.EnsureOutcome | notifications/orderupdates/manager.go:121-166 | a new user gets an open subscription counted once; a known one is counted once more, or its running timer is stopped and waited for |
| GraceOutcomes.UnsubscribeOutcome | notifications/orderupdates/manager.go:168-222 | every stop but the last only counts down; the last leaves a goroutine with a running timer |
| GraceOutcomes.TeardownOutcome | notifications/orderupdates/manager.go:205-221 | a goroutine that gets the mutex cancels and unmaps an idle subscription and leaves one in use alone |
| GraceOutcomes.CloseOutcome | notifications/orderupdates/manager.go:224-232 | after Close nothing is mapped and every subscription ever opened is cancelled |
| GraceOutcomes.IdleIsTornDown | notifications/orderupdates/manager.go:185-222 | in every safe run an open subscription nobody uses has a goroutine whose own remaining steps, at most three, cancel and unmap it |
| GraceTeardown.HelperHelps | notifications/orderupdates/manager.go:136-144 | while a caller waits on the done channel with the mutex held, a goroutine can move and brings it closer |
| GraceTeardown.NothingDelays | notifications/orderupdates/manager.go:185-222 | every other step meanwhile leaves the caller waiting and no further from its turn |
| GraceTeardown.SecondRunAfterRestart | notifications/orderupdates/manager.go:136-144 | a balanced run that panics is reachable |
| GraceTeardown.StaleTimerDropsLiveUser | notifications/orderupdates/manager.go:205-221 | a balanced run that leaves a user's live subscription unmapped is reachable |
| Notifications.StepKeeps | notifications/hub.go:36-121 | every step of publishers, clients and closers keeps delivery in order, and no send meets a closed channel |
| Notifications.RunsKeep | notifications/notifier.go:105-112 | the same over every interleaving from the empty bus or any good state |
| Notifications.PageRows | notifications/log.go:64-83 | the replay page is the lowest 1000 matching ids, each once |
| Notifications.CopiesExactly | notifications/handler.go:76-114 | how often a client was sent an event: once if replayed, plus once if read live and allowed |
| NotificationDelivery.OfferOutcome | notifications/hub.go:113-121 | an offered event enters the client's channel iff fewer than 256 are unread, at its end, and nothing else of any client moves |
| NotificationDelivery.TakeOutcome | notifications/handler.go:95-114 | a read takes the oldest unread event and sends it iff the client asked for its type |
| NotificationDelivery.ReplayOutcome | notifications/log.go:64-83 | a replay sends the logged rows of the client's user past its last id in id order, and leaves one out only after 1000 lower ones |
| NotificationDelivery.MissedIff | notifications/hub.go:113-121 | a client misses an event in a run iff some offer of it found 256 of its channel unread |
| NotificationDelivery.DeliveredOverRun | notifications/handler.go:76-114 | over every run, a finished logged event past the last id was sent to a drained open client that replayed: once if the replay holds it, once more unless it began before the subscription, met a full channel or is unwanted; never only if it met a full channel, is unwanted or 1000 lower ids were replayed |
| NotificationDelivery.LiveCopyOverRun | notifications/notifier.go:105-112 | over every run an open drained client was sent a finished event of its user live exactly once, logged or not, or not at all iff its broadcast began before the subscription, its offer found 256 unread or its type is unwanted |
| NotificationDelivery.FailedInsertOverRun | notifications/notifier.go:105-112 | over every run an event whose insert failed is sent exactly as often as live, and lost iff one of those three holds |
| NotificationDelivery.OnlyOwnEvents | notifications/handler.go:76-114 | over every run a client is sent only its own user's events: live exactly those read and asked for, in the channel's order; replayed only logged ones past its last id, in id order |
| NotificationDelivery.LiveCopyReached | notifications/notifier.go:105-112 | a run from the empty bus that sends a client a live copy |
| Notifications.FailedInsertIsLost | notifications/notifier.go:70-112 | such an event never reaches a client that subscribed after its broadcast began, in any reachable state |
| Notifications.FailedInsertLosesEvent | notifications/notifier.go:105-112 | a run from the empty bus that ends with such a client |
| Notifications.FilterIgnoredByReplay | notifications/handler.go:84-114 | an unwanted type is sent iff the replay page held it |
| Notifications.FilteredEventIsReplayed | notifications/handler.go:84-114 | a run from the empty bus that sends a client a type it did not ask for |
| NotificationReconnect.NeverSentIff | notifications/notifier.go:39-42 | over every run a caught-up returning client whose offers found room was never sent a logged event iff its broadcast began before the return and its id is not past the last id |
| NotificationReconnect.SerialKeeps | notifications/notifier.go:105-112 | publishing one user's events one after the other in id order keeps every channel and replay in id order without holes |
| NotificationReconnect.SentUpTo | notifications/handler.go:76-114 | then a session that was sent one event was sent every earlier logged one it is owed, whether it replayed, failed to replay or gave no last id |
| NotificationReconnect.NothingLostAcrossReconnect | notifications/notifier.go:39-42 | then, over every run from the empty bus, coming back with the id of any event the first session was sent loses nothing that session is owed: past its last id if it gave one, and if broadcast before it subscribed only when it replayed; provided no offer of the event found either channel full |
| NotificationReconnect.LateLowerIdIsLost | notifications/notifier.go:39-42 | without that order, a run whose lower id is never sent in either session |
| Keyset.SortedIsOrdered | trades/store.go:146-157 | the ordered result is the selected rows, none lost or repeated, in key order |
| Keyset.AfterSorted | trades/store.go:153-157 | filtering by the cursor and ordering commute |
| Keyset.WalkIsWholeIff | trades/store.go:81-135 | paging through an ordered list yields it all iff no page boundary falls inside a tie |
| Keyset.StreamTrades | trades/store.go:81-164 | the paging loop terminates with the walk of the ordered window; with unique ids that is each row with start ≤ time ≤ end once, earlier times and lower ids first |
| Keyset.ConsumeBatch | strategy/copytrading/trades_history.go:231-259 | sends every row of the batch and reports its size and last key |
| Keyset.StreamIsWhole | strategy/copytrading/trades_history.go:148-226 | with unique ids the stream is every trade of the window once, in order |
| Keyset.ListDecisions | strategy/http/decision_store.go:192-267 | the two refusals; otherwise rows within the inclusive bounds and older than the cursor, newest first by time and then sequence, at most limit, each as often as stored; a row is left out only by a full page none of whose rows is older than it, and the cursor, the last row's key, is there iff one is |
| Keyset.CutIsRight | strategy/http/decision_store.go:200-267 | the page of the ordered rest is right in those terms |
| Keyset.StreamIsRight | trades/store.go:146-157 | and so is the stream |
| Keyset.NextIffRowsRemain | strategy/http/decision_store.go:189-267 | the next cursor is present iff rows remain and leads to exactly those |
| Keyset.NewerRowsDoNotDisturb | strategy/http/decision_store.go:200-213 | rows newer than the cursor do not change what is past it |
| Keyset.GrowingWalkIsWhole | strategy/http/decision_store.go:192-267 | a client that follows the cursors while newer rows are stored between requests gets exactly the rows it set out for |
| CandleFold.RowsOnGrid | candles/store.go:198-216 | every row of the window falls in a bucket of the grid |
| CandleFold.FoldIsSelect | candles/store.go:217-257 | aggregation with the latest-predecessor join equals one pass carrying the last populated close |
| CandleFold.QueryIsFold | candles/store.go:198-257 | the whole query is one left-to-right fold over the rows |
| CandleFold.VolumeConserved | candles/store.go:217-241 | the folded volume is the volume of the window's rows |
| CandleFold.QueryShape | candles/store.go:198-257 | no rows, no candles; otherwise one per bucket from the first populated one to the end of the grid |
| CandleFold.FlatFill | candles/store.go:234-255 | an empty bucket repeats the previous candle's close and close yield, with zero volume |
| CandleFold.PricesStayInRange | candles/store.go:217-241 | open and close stay between low and high |
| CandleFold.StartsIncrease | candles/store.go:254-257 | bucket starts strictly increase, so the timestamp is a cursor |
| CandleFold.LoadCandlesBucketed | candles/store.go:280-303 | an unknown resolution fails; otherwise the paging loop terminates with the whole series from year 1 on, for every page size |
| CandleTable.CandleOfRows | candles/store.go:217-257 | each candle covers exactly the table's rows in [start, end) and its own bucket, one stretch: the first open, the last close, the attained extremes, the volume of all, the yields with zero for none; without rows it is flat at the previous close |
| CandleTable.StartsOnGrid | candles/store.go:198-216 | starts are multiples of the size, one size apart |
| CandleTable.GridEnds | candles/store.go:198-257 | no row in the window, no candle; else the first candle holds the window's first instant with a row and the last one its last instant |
| CandleTable.BarLengths | candles/store.go:266-275 | candles of a folded series are 5 minutes, 15 minutes, 1 hour, 4 hours or a day apart |
| CandleTable.MinutesAreRows | candles/store.go:184-197 | the n-th one-minute candle is the window's n-th row |
| CandleTable.LoadsAll | candles/store.go:280-303 | the zero first cursor loses no candle after the start of year 1 |
| BenchmarkIndex.Benchmark.SetObservations | strategy/meanreversion/historical_data.go:323-340 | replaces the cache by the normalised list |
| BenchmarkIndex.Benchmark.MergeObservations | strategy/meanreversion/historical_data.go:366-404 | the cache becomes the specified merge |
| BenchmarkIndex.Benchmark.CachedYield | strategy/meanreversion/historical_data.go:342-361 | the bisection loop returns the specified lookup |
| BenchmarkIndex.FiledUnderItsDay | fred/benchmark.go:78-81 | an instant is filed under a day's midnight iff it lies in that day's 86400 seconds |
| BenchmarkIndex.LookupIsFloor | strategy/meanreversion/historical_data.go:342-361 | on an increasing cache the lookup is the entry at the greatest day not after the target |
| BenchmarkIndex.MergeIsUnion | strategy/meanreversion/historical_data.go:366-404 | merging into a non-empty cache without repeated days, in any order, leaves it increasing and yields the union, cached entries winning |
| BenchmarkIndex.MergedLookup | strategy/meanreversion/historical_data.go:342-404 | after such a merge every lookup is the floor in that union |
| BenchmarkIndex.RightIffIncreasing | strategy/meanreversion/historical_data.go:342-361 | with distinct days all lookups are right iff the stored list is increasing |
| BenchmarkIndex.SortedIsRightIff | strategy/meanreversion/historical_data.go:342-361 | for days in sorted order, repeated or not, all lookups are right iff the last entry of every day carries that day's map value |
| BenchmarkIndex.RightIffDaysFindThemselves | strategy/meanreversion/historical_data.go:342-361 | for any list all lookups are right iff each stored day finds itself |
| BenchmarkIndex.FirstFillIsRightIff | strategy/meanreversion/historical_data.go:323-384 | setting any list, or merging it into an empty cache, is right for all targets iff its own days are; for distinct days iff they increase, and in sorted order iff no day ends on another value than it began with |
| BenchmarkIndex.RepeatedDayTakesLast | strategy/meanreversion/historical_data.go:342-361 | in any sorted list a day that begins and ends on different values is answered with the last, against the map |

## Left out

- Decimal rounding and overflow: prices and quantities are exact reals, except the three-decimal order quantity.
- Context cancellation, scan and query errors in the paging loops: each ends its loop at once with the rows sent so far.
- The other encodings the UUID library parses (braced, URN, 32 digits): the model reads the 36-character form.
- TWAP runs: they reconcile but never import orphans (only VWAP does, strategy/vwap/strategy.go:143), so the recovery
  theorems are about runs that import.
- Rolling deviations and volume, `ShouldExit` and `zAgainstWindow`: uninterpreted functions of the bars and trades seen. The ATR is the exact mean of its window's true ranges.
- Loading and streaming of backtest tapes, and run summaries: the tapes are inputs and the statistics have no invariant.
- The strings that explain a decision, log lines and metrics.
- CopyTrading.Backtester.Simulate: positions are values in the map, not shared pointers; a position's object identity is not modelled.
- NotificationDelivery.DeliveredOverRun: does not model the retention purge, and a batch of replayed writes is one step, since nothing is read from the channel meanwhile.
- Notifications.StepKeeps: the hub's per-user sets are represented by the open listeners of a user, so removing an empty set is not visible.
- The in-memory replay ring of the notification bus: written but never read, so it has no effect to model.
- GraceTeardown.StepKeepsIff: assumes callers that stop calling after Close and never unsubscribe more often than they subscribed; the run-status cache and the stream reader are not part of the model.
- CandleRegistry.EveryInterleaving: the upstream handler and the closer goroutine appear only as the bars they emit and their end.
- Base64 and JSON of the decision cursor, HTTP handlers, authentication, rate limits and configuration parsing.
- Reconnect back-off, health checks, tenor names, generated fakes and the user interfaces.
