# Verified model of the TECO quantitative trading system

A Dafny model of the parts of the system where correctness depends on many steps taken together,
with proofs about every run or every input. `dafny verify dfyconfig.toml` checks all of it.

| component | files |
|---|---|
| option backtest replay and its metrics | `BacktestModels`, `ReplayEngine`, `ReplayRun`, `ReplayHistory`, `ReplayInvariants`, `ReplayTheorems`, `ReplayPromises`, `ReplayFates`, `ReplayValues`, `Metrics` |
| execution controller, ledger, paper broker | `ExecutionModels`, `ExecutionLedger`, `ExecutionSafety`, `ExecutionController`, `ExecutionProtocol`, `ExecutionPromises`, `ExecutionValues` |
| candle resampling | `Resampling`, `ResamplingLaws`, `ResamplingValues` |
| read-model store, update route, browser loop | `MarketUpdates` |
| live feed: wire format and supervisor | `FeedWire`, `FeedWireValues`, `FeedSupervisor` |
| acquisition worker's schedule | `AcquisitionScheduler` |
| position sizing | `PositionSizing` |
| instrument-master filter | `CatalogClosure` |
| change in open interest: producer and checker | `OptionChain`, `ChangeOiProvenance`, `ChainValues` |
| shared | `Outcomes`, `Ordering` |

Conventions. Decimals and prices are exact reals, instants integer microseconds, ids and symbols
strings. Objects that the source updates in place are classes whose methods are tied to functions
on values; the theorems are about those functions. Code that several threads run is a machine whose
steps are the lock sections, event operations and transactions of the source; a theorem about
`Run(actions)` covers every interleaving. The clock, the network, broker answers, the packet
consumer and fresh identifiers are inputs of the steps. Errors are `Result` or `Option` values. The
`*Values` modules say what the numbers are in terms of the inputs, without the functions by which
the other modules compute them.

Four results are about code that does less than one might expect. The lot search does not always
return the greatest affordable count (`BoundCanCutOff`); `GreatestUpToCap` and `RecommendedExactly`
say exactly when it does. Two different kept records with one exchange, segment and security id make
the filtered catalog depend on the order of the master (`TiedMaster`), and nothing else does
(`OrderMatters`). A live timeout leaves an unknown order and an uncertain signal if and only if the
lookup answers that there is no order and the unknown order's id is not already an order id
(`TimeoutResolution`). If the lookup raises as well (`LookupCanRaise`), or the id is taken
(`TimeoutCanBeLost`), the order was sent but the ledger never shows it; `SentAccounted` says exactly
which sent orders the ledger shows. And the state a caller is told is read off the broker's order state,
while the ledger reads its state off the filled quantity: they can differ (`ReportCanDiffer`), exactly
when the two readings of the broker's answer do (`ReportedAgrees`).

## Model

| member | source | states |
|---|---|---|
| `ReplayEngine.ValidateSequence` | backend/src/teco_quant/backtesting/engine.py:236-249 | accepts exactly the non-empty sequences with strictly increasing timestamps and globally unique signal ids |
| `ReplayEngine.AddIds` | backend/src/teco_quant/backtesting/engine.py:246-249 | the seen-set loop refuses exactly when an id repeats |
| `ReplayEngine.FillableMeaning` | backend/src/teco_quant/backtesting/engine.py:88-105 | a fill is whole lots within the participation cap, and when it is short one more lot would break the cap |
| `ReplayEngine.TotalNetPnl` | backend/src/teco_quant/backtesting/engine.py:223-233 | the accumulated net result is the sum over all trades |
| `ReplayHistory.FirstTriggerMeaning` | backend/src/teco_quant/backtesting/engine.py:108-121 | the exit reason is that of the first bar after the entry that is not calm: stop before target, levels before expiry before holding time |
| `ReplayHistory.CostsClosedForm` | backend/src/teco_quant/backtesting/engine.py:52-68 | the five cost components add up to brokerage with GST plus value times tax and GST-bearing fees |
| `ReplayHistory.PricesAreAdverse` | backend/src/teco_quant/backtesting/engine.py:71-85 | slippage never improves a price and a sale price is never negative |
| `ReplayHistory.ExitTallied` | backend/src/teco_quant/backtesting/engine.py:359-461 | one exit attempt adds at most one valid fill; the accumulators stay equal to what journal prices and input bars give; a closing attempt yields a trade with those figures, its risk and its risk multiple |
| `ReplayRun.OpenPosition.constructor` | backend/src/teco_quant/backtesting/engine.py:34-50 | a position opens at the ask plus slippage with its entry costs and empty exit accumulators |
| `ReplayRun.OpenPosition.ExecuteExit` | backend/src/teco_quant/backtesting/engine.py:359-461 | the in-place update of one position, its journal entries and the trade it closes are the specified outcome |
| `ReplayRun.Replay.AttemptExit` | backend/src/teco_quant/backtesting/engine.py:151-157 | an exit changes only that position, journal and trades; closing removes it from the dictionary |
| `ReplayRun.Replay.RunExits` | backend/src/teco_quant/backtesting/engine.py:145-157 | positions meet the frame in key order; objects under other instruments are untouched |
| `ReplayRun.Replay.EnterSignal` | backend/src/teco_quant/backtesting/engine.py:263-340 | one queued signal is kept, skipped, noted unfilled or opened as specified |
| `ReplayRun.Replay.ExecutePending` | backend/src/teco_quant/backtesting/engine.py:251-341 | the whole queue meets the frame in order and what stays becomes the new queue |
| `ReplayRun.Replay.QueueSignals` | backend/src/teco_quant/backtesting/engine.py:167-177 | the frame's own signals are queued after every entry decision |
| `ReplayRun.Replay.LiquidateAtEnd` | backend/src/teco_quant/backtesting/engine.py:182-193 | only a bar not older than the entry and not already used is offered at the end |
| `ReplayRun.ReplayFrames` | backend/src/teco_quant/backtesting/engine.py:141-177 | the mutable run over all frames equals the fold on book values |
| `ReplayRun.Run` | backend/src/teco_quant/backtesting/engine.py:130-233 | a run returns the specified report exactly on the sequences that validation accepts |
| `ReplayInvariants.LoopExit` | backend/src/teco_quant/backtesting/engine.py:145-157 | a frame's bar keeps the position invariant: trigger, due fills, tally and story all follow from the input |
| `ReplayInvariants.EndExit` | backend/src/teco_quant/backtesting/engine.py:182-193 | the end-of-data pass touches only positions that no bar triggered, with a bar they have not used |
| `ReplayTheorems.FrameInv` | backend/src/teco_quant/backtesting/engine.py:141-177 | every frame keeps the book invariant (stories, tallies, disjoint holdings, signal accounts) |
| `ReplayTheorems.FinalInv` | backend/src/teco_quant/backtesting/engine.py:130-233 | every finished replay satisfies the book invariant |
| `ReplayPromises.JournalReplay` | backend/src/teco_quant/backtesting/engine.py:302-339 | each closed trade has one ENTRY and one EXIT; its gross result is its exit-fill flows minus its entry flow in the journal; adding slippage gives the same flows at raw bid and ask; its costs are the fees of those entries |
| `ReplayPromises.EndingCapital` | backend/src/teco_quant/backtesting/engine.py:223-233 | ending capital is initial capital plus the net cash of the trades' journal entries; with nothing open it is the whole journal replayed as a cash ledger |
| `ReplayPromises.SignalConservation` | backend/src/teco_quant/backtesting/engine.py:141-222 | every signal has one SIGNAL entry and exactly one of four fates; closed, open, skipped and pending counts add up to all signals |
| `ReplayFates.SignalFates` | backend/src/teco_quant/backtesting/engine.py:251-341 | every ENTRY and SKIPPED is prompt and justified from the journal so far and the input: in every earlier frame the signal was live and either unquoted or, on an instrument not held, offered not one lot and noted so; entries take exactly the offered lots at the slipped ask on an instrument not held; skips have one of the four reasons; pending signals have waited like this through every later frame |
| `ReplayPromises.NoOverlap` | backend/src/teco_quant/backtesting/engine.py:251-340 | two trades on one instrument overlap at most by touching |
| `ReplayPromises.TradeCausality` | backend/src/teco_quant/backtesting/engine.py:264-408 | an entry is strictly later than its signal; the exit reason is the first trigger; the fills are exactly those the instrument's own bars call for, each bar used once, strictly after the entry unless the data ended |
| `ReplayPromises.OpenCausality` | backend/src/teco_quant/backtesting/engine.py:182-222 | the same for what is left open, and the remaining quantity is the quantity minus those fills |
| `ReplayPromises.FullFillsClose` | backend/src/teco_quant/backtesting/engine.py:88-105 | in full-fill mode nothing is left open |
| `ReplayValues.JournalPrices` | backend/src/teco_quant/backtesting/engine.py:71-105 | over every replay: each ENTRY price times 10000 is the ask of its bar times (10000 + entry basis points) plus 10000 times the fixed amount, each EXIT_FILL price is the bid lowered by the exit basis points and the fixed amount but never negative, both take no more than the participating share of the visible depth, and in full-fill mode an entry takes all its signal asks for; the raw ask of an open position is that of its bar |
| `ReplayValues.TradeCosts` | backend/src/teco_quant/backtesting/engine.py:52-68 | every cost component of a closed trade, by rate: one order and its value for the entry, one order per exit fill and their summed value for the exit; the journal closes it with its whole quantity at its average exit price |
| `ReplayValues.ReportEnds` | backend/src/teco_quant/backtesting/engine.py:195-233 | the report spans the frames, and its journal ends with one UNFILLED note per pending signal, in queue order |
| `Metrics.MaximumDrawdown` | backend/src/teco_quant/backtesting/metrics.py:55-63 | the running-peak pass gives the maximum of equity i minus equity j over all i <= j in exit order |
| `Metrics.ByExit` | backend/src/teco_quant/backtesting/metrics.py:55-63 | exit times never fall, trades of one exit time go by signal id, and none is lost |
| `Metrics.MergedLength` | backend/src/teco_quant/backtesting/metrics.py:66-82 | the sorted interval merge gives the measure of the union |
| `Metrics.ExposureRatio` | backend/src/teco_quant/backtesting/metrics.py:66-82 | the ratio is that measure over the replay length; the clamp never changes it for trades inside the replay |
| `Metrics.HoldingsMeaning` | backend/src/teco_quant/backtesting/metrics.py:72 | an instant is covered exactly when some trade was entered by then and not yet exited |
| `Metrics.EngineTradesWellFormed` | backend/src/teco_quant/backtesting/engine.py:182-211 | trades of every replay lie inside the replay, so their exposure is exact |
| `Metrics.GroupTrades` | backend/src/teco_quant/backtesting/metrics.py:46-48 | each label that occurs maps to exactly its trades in order |
| `Metrics.LabelledTrades` | backend/src/teco_quant/backtesting/metrics.py:46-48 | a group is the subsequence of the trades that carry its label |
| `Metrics.TradeBreakdown` | backend/src/teco_quant/backtesting/metrics.py:16-31 | counts, sums and averages of a group |
| `Metrics.SummaryMeans` | backend/src/teco_quant/backtesting/metrics.py:16-31 | a summary gives the number of trades, the number of those with a positive net result, and the gross and net sums; win rate, expectancy and average multiple times the count are the wins and the sums, and nothing for no trades |
| `Metrics.BuildBreakdown` | backend/src/teco_quant/backtesting/metrics.py:45-52 | exactly one row per label that occurs, in label order, each the summary of exactly its trades; the rows hold the whole net result |
| `Metrics.BreakdownConserves` | backend/src/teco_quant/backtesting/metrics.py:34-52 | over any distinct labels that cover the trades, the groups' net results add up to the total |
| `Resampling.Completed` | backend/src/teco_quant/analytics/indicators.py:26-44 | returns the completed candles in order, or refuses exactly when two overlap |
| `Resampling.FillBuckets` | backend/src/teco_quant/analytics/indicators.py:183-237 | files every candle under its bucket, refusing exactly when one crosses a boundary |
| `Resampling.EmitBuckets` | backend/src/teco_quant/analytics/indicators.py:183-237 | emits exactly the buckets that are fully and contiguously covered, in order |
| `Resampling.ResampleCompleted` | backend/src/teco_quant/analytics/indicators.py:183-237 | the whole operation computes the bucket-by-bucket value, errors included |
| `Resampling.NoRepaint` | backend/src/teco_quant/analytics/indicators.py:183-237 | an earlier evaluation time also succeeds and gives a prefix of the later result |
| `ResamplingLaws.Coarsen` | backend/src/teco_quant/analytics/indicators.py:183-237 | source candles cover a stretch of buckets exactly when the resampled ones do, with the same open, high, low, close and volume |
| `ResamplingLaws.ResampleComposes` | backend/src/teco_quant/analytics/indicators.py:183-237 | resampling a result to k times its interval equals resampling the source directly |
| `ResamplingLaws.AggregateValid` | backend/src/teco_quant/analytics/models.py:59-80 | an aggregated candle satisfies the candle invariant and bounds every source candle |
| `ResamplingValues.Accepted` | backend/src/teco_quant/analytics/indicators.py:26-44 | the interval is checked first; otherwise accepted exactly when the closed candles can be put one after the other and each lies inside one bucket, with the error that belongs to the one that fails |
| `ResamplingValues.ResampleMeaning` | backend/src/teco_quant/analytics/indicators.py:183-237 | a reference without buckets: the result is, in time order, exactly the candles that a gapless run of closed candles makes by filling one interval of the grid: first open, last close, extremes, whole volume |
| `ResamplingValues.ResampleIdentity` | backend/src/teco_quant/analytics/indicators.py:183-237 | closed candles that each fill a bucket come back unchanged |
| `ResamplingValues.ResampleVolume` | backend/src/teco_quant/analytics/indicators.py:183-237 | the result trades what the closed candles inside its buckets traded |
| `ExecutionLedger.Ledger.InsertSignal` | backend/src/teco_quant/execution/ledger.py:205-243 | commits a row unless the signal or correlation id exists; otherwise nothing changes |
| `ExecutionLedger.Ledger.SetSignalState` | backend/src/teco_quant/execution/ledger.py:251-267 | changes one existing row or nothing |
| `ExecutionLedger.Ledger.InsertApproval` | backend/src/teco_quant/execution/ledger.py:294-317 | one approval per existing signal |
| `ExecutionLedger.Ledger.InsertExecution` | backend/src/teco_quant/execution/ledger.py:326-433 | order, fills, position and state commit together or not at all |
| `ExecutionLedger.Ledger.Close` | backend/src/teco_quant/execution/ledger.py:453-496 | closes one open position with its realized result, or changes nothing |
| `ExecutionLedger.Ledger.DailyRealizedPnl` | backend/src/teco_quant/execution/ledger.py:498-504 | sums the results of positions closed on that UTC day |
| `ExecutionLedger.Ledger.CountConsecutiveLosses` | backend/src/teco_quant/execution/ledger.py:506-520 | counts the losing run from the latest close back |
| `ExecutionLedger.LosingRunMeaning` | backend/src/teco_quant/execution/ledger.py:506-520 | that run is the longest all-losing stretch at the end of the history |
| `ExecutionLedger.LatestFirstOrder` | backend/src/teco_quant/execution/ledger.py:506-520 | closed rows are visited latest first and none is lost |
| `ExecutionSafety.RecordExecutionInv` | backend/src/teco_quant/execution/ledger.py:326-433 | recording a coherent execution keeps every cross-table invariant |
| `ExecutionSafety.ClosePositionInv` | backend/src/teco_quant/execution/ledger.py:453-496 | closing keeps them |
| `ExecutionValues.ExecutionConstraints` | backend/src/teco_quant/execution/ledger.py:92-148 | the transaction commits exactly when the order, every fill in its turn and, if anything was filled at a price, the position meet the uniqueness, foreign-key and check constraints of their tables |
| `ExecutionValues.CloseLaw` | backend/src/teco_quant/execution/ledger.py:453-496 | succeeds exactly for a positive price and an open row of that id; it books exit times quantity less entry times quantity for a long row, the reverse for a short one, and changes nothing else |
| `ExecutionValues.DailyLaw` | backend/src/teco_quant/execution/ledger.py:498-504 | the day's result adds up the rows closed between one UTC midnight and the next |
| `ExecutionValues.DayLaw` | backend/src/teco_quant/execution/ledger.py:498-504 | an instant given as day, hour, minute, second and microsecond falls on that day |
| `ExecutionValues.StreakLaw` | backend/src/teco_quant/execution/ledger.py:506-520 | a close after all others makes the losing run one longer when it books a loss and ends it otherwise; of two closes at one instant the row inserted later counts as later |
| `ExecutionValues.LossesStand` | backend/src/teco_quant/execution/ledger.py:498-520 | in every run only a close changes what the loss limits look at |
| `ExecutionValues.LossKills` | backend/src/teco_quant/execution/controller.py:252-272 | from an empty history, closing one long position at a loss of at least the daily limit makes every check of that day kill, whatever happens in between short of another close |
| `ExecutionController.PaperQuantityMeaning` | backend/src/teco_quant/execution/paper.py:43-95 | a paper fill is the whole-unit share of the order, at least one unit for a positive ratio, and everything exactly when the ratio is one, or positive for a single unit |
| `ExecutionController.PaperCoherent` | backend/src/teco_quant/execution/paper.py:43-95 | paper orders and fills agree with each other and with the plan |
| `ExecutionValues.PaperPriceLaw` | backend/src/teco_quant/execution/paper.py:52-59 | a paper fill is priced above the limit for a buy and below it for a sell, by the basis points, to the nearest ten-thousandth, the even one of two |
| `ExecutionValues.PaperLaw` | backend/src/teco_quant/execution/paper.py:43-95 | the paper order is the plan's own, in the state that its fill says; one fill of all that was filled, complete exactly when the order is |
| `ExecutionController.LiveCoherent` | backend/src/teco_quant/execution/controller.py:331-398 | so do orders and fills built from a validated acknowledgement |
| `ExecutionValues.AckLaw` | backend/src/teco_quant/execution/controller.py:377-398 | an acknowledgement passes exactly when it is for this order and reports a part of it, with a price exactly when that part is not nothing |
| `ExecutionValues.LiveLaw` | backend/src/teco_quant/execution/controller.py:331-375 | the ledger takes such an acknowledgement whenever no row is in the way, and order, fill and position then show what it reports |
| `ExecutionValues.ReportedAgrees` | backend/src/teco_quant/execution/controller.py:346-353 | the state the caller is told agrees with the ledger's if and only if the broker's order state agrees with its fill |
| `ExecutionValues.ReportCanDiffer` | backend/src/teco_quant/execution/controller.py:346-353 | a concrete acknowledgement for which the ledger says filled and the caller is told submitted |
| `ExecutionValues.AcceptableWindow` | backend/src/teco_quant/execution/controller.py:201-248 | a plan passes exactly when it is sound (named, registered, within the quantity, notional and loss limits, event and expiry risk clear) and the time is in one stretch: from the later of data and signal time less the skew until the data is stale, the plan runs out or the contract is too close to expiry |
| `ExecutionValues.ObjectionLaw` | backend/src/teco_quant/execution/controller.py:201-250 | the controller objects exactly outside that stretch or while the security is held |
| `ExecutionController.CheckKillLimits` | backend/src/teco_quant/execution/controller.py:252-272 | refuses exactly when the switch is on, the day's loss or the losing run is at its limit, and then leaves the switch on |
| `ExecutionController.Submit` | backend/src/teco_quant/execution/controller.py:106-135 | in every mode: killed exactly on a breached limit, then only the switch changes; refused exactly when otherwise the signal or correlation id is on record, the plan is not acceptable or the security is held, then nothing changes; an order is sent exactly when live trading is unlocked and the plan got that far; the resulting signal state by outcome; the tables stay coherent |
| `ExecutionController.ExecuteLive` | backend/src/teco_quant/execution/controller.py:286-353 | one submission: recorded exactly when the answer (the lookup's after a timeout) is an acceptable acknowledgement that the ledger takes, with that order row; timed out exactly when the lookup found nothing and the id of the unknown order is free; otherwise lost and nothing changes |
| `ExecutionController.Approve` | backend/src/teco_quant/execution/controller.py:137-175 | killed exactly when the approval fits a waiting signal and a limit is breached; refused exactly when it does not fit or, without a breach, the signal was approved before, the plan is not acceptable or the security is held, then nothing changes; otherwise the approval is on record and the paper execution decides the state |
| `ExecutionProtocol.EveryRunSafe` | backend/src/teco_quant/execution/controller.py:106-175 | the system invariant holds after any interleaving of submits, approvals, closes and operator switches |
| `ExecutionPromises.LedgerSafety` | backend/src/teco_quant/execution/ledger.py:92-148 | in every such state: one open position per security, one order per signal and correlation id, position quantity = filled quantity = sum of fills, an order row exactly in the four executed states |
| `ExecutionPromises.RowsAgree` | backend/src/teco_quant/execution/ledger.py:92-148 | in every such state: an order has the symbol, security, side, quantity, limit price and correlation id of its signal's plan, no more than that is filled, the signal state says how much; a position has the side, symbol and average price of its order; exactly the orders that filled have a position |
| `ExecutionValues.EverythingPassed` | backend/src/teco_quant/execution/controller.py:106-175 | in every run each recorded signal passed every gate in a submitting call at some step before, each recorded approval stands for a passage in an approving call, and so does every call that may still write or send |
| `ExecutionValues.ModesHold` | backend/src/teco_quant/execution/controller.py:106-175 | in every run each order sent belongs to a submitting call in live mode with live trading enabled and a gateway; only paper trading and approvals reach the paper broker |
| `ExecutionValues.StepsAgree` | backend/src/teco_quant/execution/controller.py:137-175 | the steps of a call decide as the controller does: which policy reaches the live broker, and which approvals go on to the kill checks |
| `ExecutionPromises.SentOnce` | backend/src/teco_quant/execution/controller.py:286-325 | no correlation id is ever submitted to the broker twice |
| `ExecutionPromises.TimeoutStep` | backend/src/teco_quant/execution/controller.py:299-315 | the unknown order of an unresolved timeout is recorded if and only if no order row carries its id; otherwise nothing changes |
| `ExecutionPromises.TimeoutStaysUncertain` | backend/src/teco_quant/execution/controller.py:296-322 | from the unresolved timeout on, in every run: if that id is free the signal has exactly one order for ever, unknown, unfilled, without fill or position, and is uncertain after the call's next step; if it is taken the signal stays received without a trace although its correlation id was sent |
| `ExecutionPromises.TimeoutResolution` | backend/src/teco_quant/execution/controller.py:294-325 | from the lookup after a timeout, in every run: the call ends uncertain with exactly one unknown order if and only if the lookup finds nothing and that id is free when it is recorded; if the lookup raises or does not fit the plan, or the id is taken, the signal stays received without a trace for ever although its correlation id was sent |
| `ExecutionPromises.TimeoutCanBeLost` | backend/src/teco_quant/execution/controller.py:296-322 | a concrete run in which the broker named an earlier order so that the id is taken |
| `ExecutionPromises.LookupCanRaise` | backend/src/teco_quant/execution/controller.py:296-299 | a concrete run in which the lookup times out too: the order is lost although the id is free |
| `ExecutionPromises.SentAccounted` | backend/src/teco_quant/execution/controller.py:286-353 | every order ever sent has the call that sent it, and the ledger has an order row under its correlation id if and only if that call recorded it or timed out; a call that is lost after the send leaves the signal received and the order off the ledger |
| `ExecutionPromises.GatedStep` | backend/src/teco_quant/execution/controller.py:252-272 | a call before the check of a limit it meets records and sends nothing, stays before it and gets closer to its end; if it is killed the switch is on |
| `ExecutionPromises.LimitsHold` | backend/src/teco_quant/execution/controller.py:106-113 | a call that meets a limit at the step that reads it leaves, in every one of its steps and whatever other threads do, all tables but the switch and the sent orders as they are |
| `ExecutionPromises.ResetDoesNotLift` | backend/src/teco_quant/execution/controller.py:177-190 | among any actions, operator resets included, a call that meets a day or streak limit when it reads it is killed by its fourth step and the killing step leaves the switch on |
| `ExecutionPromises.ResetThenCheck` | backend/src/teco_quant/execution/controller.py:252-272 | reset, then the checks of one call: the switch is on again and nothing else has changed |
| `MarketUpdates.MarketReadModelStore.PublishSnapshot` | backend/src/teco_quant/api/market_read_model.py:201-256 | an error for a report, analysis or plan of another snapshot and for a closed store; otherwise a later source time is promoted, an earlier one answers false, equal ones go by sequence and then receipt time; every earlier publication is still there or replaced by one with no smaller source time |
| `MarketUpdates.MarketReadModelStore.PublishFeedTick` | backend/src/teco_quant/api/market_read_model.py:258-336 | accepts exactly the usable, known, newer (or enriching) packets within capacity, an error for an invalid depth; never touches a workspace |
| `MarketUpdates.MarketReadModelStore.Close` | backend/src/teco_quant/api/market_read_model.py:414-422 | closing ends publication and keeps what was published |
| `MarketUpdates.PublicationKept` | backend/src/teco_quant/api/market_read_model.py:238-256 | from its revision on, a publication's key holds it or a newer one |
| `MarketUpdates.NewestKept` | backend/src/teco_quant/api/market_read_model.py:238-256 | what a key holds was published under it, and has the largest source time, then sequence, then receipt time, of all that was |
| `MarketUpdates.PublishLaw` | backend/src/teco_quant/api/market_read_model.py:147-153 | on an open store a bound publication is taken exactly when its key is new or it is later: by source time, then sequence, then receipt time; otherwise nothing changes |
| `MarketUpdates.BoundLaw` | backend/src/teco_quant/api/market_read_model.py:215-231 | bound means that report, analysis and plan speak of this one snapshot id and of its content hash |
| `MarketUpdates.TickLaw` | backend/src/teco_quant/api/market_read_model.py:258-336 | which packets change the tick cache, by code, id, trade time, known securities and room, and what they change |
| `MarketUpdates.NoLostUpdate` | frontend/src/hooks/useLiveMarketData.ts:192-320 | whenever the client waits, with or without a selection, the catalog and workspace it shows were read at or after the revision it sends; every publication is behind those reads or makes the wait return |
| `MarketUpdates.BlockedIsCurrent` | backend/src/teco_quant/api/market_read_model.py:389-412 | a wait that cannot return means the client already shows what the store would serve |
| `MarketUpdates.ShownIsNewest` | backend/src/teco_quant/api/market_read_model.py:544-566 | what a blocked client shows has the largest source time of all that it could show |
| `MarketUpdates.ClientLaw` | frontend/src/hooks/useLiveMarketData.ts:192-320 | a wait returns exactly when the store is closed or something happened after the revision waited on; the client never forgets a revision; a reset is asked for exactly when the client is ahead |
| `MarketUpdates.NeverReset` | backend/src/teco_quant/api/wsgi.py:208-238 | within one server lifetime no reset is requested |
| `FeedWire.LayoutsCover` | backend/src/teco_quant/brokers/dhan.py:375-457 | field layouts tile every packet without gap or overlap |
| `FeedWire.DecodeFeedMessage` | backend/src/teco_quant/brokers/dhan_live.py:954-985 | the offset loop terminates and returns exactly the packets, or the error, of reading the message front to back |
| `FeedWire.DecodersAgree` | backend/src/teco_quant/brokers/dhan.py:375-457 | the general decoder accepts exactly the well-formed packets other than market status, the message loop accepts those too |
| `FeedWire.PacketRoundTrip` | backend/src/teco_quant/brokers/dhan.py:375-457 | decoding an encoded packet returns it; a market-status packet is refused here and read by the message loop |
| `FeedWire.BytesRoundTrip` | backend/src/teco_quant/brokers/dhan.py:375-457 | re-encoding an accepted packet returns its bytes |
| `FeedWire.MessageRoundTrip` | backend/src/teco_quant/brokers/dhan_live.py:954-985 | decoding any concatenation of encoded packets returns those packets |
| `FeedWire.MessageBytesRoundTrip` | backend/src/teco_quant/brokers/dhan_live.py:954-985 | re-encoding an accepted message returns its bytes |
| `FeedWire.AcceptedMessages` | backend/src/teco_quant/brokers/dhan_live.py:954-985 | a message is accepted exactly when it is a non-empty concatenation of well-formed packets |
| `FeedWireValues.PacketMeaning` | backend/src/teco_quant/brokers/dhan.py:375-457 | the general decoder returns a packet if and only if the bytes spell it: every field of every response code is a little-endian sum of bytes at fixed positions, likewise the header and the five depth levels |
| `FeedWireValues.MessageMeaning` | backend/src/teco_quant/brokers/dhan_live.py:954-985 | a message decodes to a list of packets if and only if it is not empty and its bytes spell them one after the other, market status included |
| `FeedSupervisor.RunInv` | backend/src/teco_quant/brokers/dhan_live.py:681-738 | the supervisor invariant holds after any interleaving of worker, stop, start and replace |
| `FeedSupervisor.HealthyMeansFresh` | backend/src/teco_quant/brokers/dhan_live.py:888-922 | healthy means connected, not closed, and for each expected instrument a primary packet accepted on this generation, after the last status change and connection, within the stale limit; the generation is the number of connections made |
| `FeedSupervisor.HealthyExactly` | backend/src/teco_quant/brokers/dhan_live.py:888-922 | healthy if and only if connected, the last status told on this attempt is not closed, and every expected instrument is recent; the same for a subset |
| `FeedSupervisor.WarmUp` | backend/src/teco_quant/brokers/dhan_live.py:681-862 | whatever happened before, an idle supervisor that is started, connects undisturbed and gets one accepted primary packet per instrument is healthy until the stale limit is over |
| `FeedSupervisor.RotationSkipsBackoff` | backend/src/teco_quant/brokers/dhan_live.py:696-711 | a failed connection is retried at once after a replacement and after a pause otherwise |
| `FeedSupervisor.StoppedNeverHealthy` | backend/src/teco_quant/brokers/dhan_live.py:559-591 | after the locked part of a stop nothing is healthy until the next start, even if the worker registers a socket or finishes a message late |
| `FeedSupervisor.SubsetHealth` | backend/src/teco_quant/brokers/dhan_live.py:652-679 | subset health is monotone and agrees with global health on the full set |
| `FeedSupervisor.Supervisor.WorkerStep` | backend/src/teco_quant/brokers/dhan_live.py:681-879 | each step of the worker thread updates the fields as the machine says and keeps its invariant |
| `FeedSupervisor.Supervisor.ReplaceInstruments` | backend/src/teco_quant/brokers/dhan_live.py:470-514 | an empty subscription is an error, an unchanged one is left alone, a changed one clears readiness and asks a running worker to reconnect |
| `FeedSupervisor.Supervisor.StartWorker` | backend/src/teco_quant/brokers/dhan_live.py:516-540 | starts only an idle worker, with both events cleared |
| `FeedSupervisor.Supervisor.RequestShutdown` | backend/src/teco_quant/brokers/dhan_live.py:559-591 | a stop forgets the connection, and no snapshot is healthy from then on |
| `FeedSupervisor.Supervisor.HealthSnapshot` | backend/src/teco_quant/brokers/dhan_live.py:593-600 | a healthy snapshot vouches for every expected instrument with an accepted, fresh primary packet of this generation; an unhealthy one on an open connection names a stale or silent instrument |
| `AcquisitionScheduler.Service.RequestFocus` | backend/src/teco_quant/ingestion/dhan_acquisition.py:530-547 | refuses unknown symbols; a changed focus is pending and the worker is woken; the invariant of every interleaving is kept |
| `AcquisitionScheduler.Service.WorkerCycleSymbols` | backend/src/teco_quant/ingestion/dhan_acquisition.py:1504-1537 | the batch and the new scheduling fields are the specified ones |
| `AcquisitionScheduler.Service.BeginCycle` | backend/src/teco_quant/ingestion/dhan_acquisition.py:1539-1546 | a cycle starts with the pending focus alone and never before every earlier cooldown is over |
| `AcquisitionScheduler.Service.FinishCycle` | backend/src/teco_quant/ingestion/dhan_acquisition.py:1411-1421 | a rate-limited cycle counts, sets the backoff and leads to a wait at least that long that must not be cut short |
| `AcquisitionScheduler.Service.WaitStep` | backend/src/teco_quant/ingestion/dhan_acquisition.py:1595-1612 | the worker is back at the top of its loop only after every cooldown deadline or for a stop |
| `AcquisitionScheduler.RotationVisitsOnce` | backend/src/teco_quant/ingestion/dhan_acquisition.py:1522-1537 | one turn of the cursor visits every element of its ring exactly once, from any cursor |
| `AcquisitionScheduler.BackgroundOrder` | backend/src/teco_quant/ingestion/dhan_acquisition.py:1527-1528 | the ring of the other symbols is the configured list with the focus taken out |
| `AcquisitionScheduler.NewFocusAlone` | backend/src/teco_quant/ingestion/dhan_acquisition.py:1513-1520 | in every interleaving the first batch after a focus change is that symbol alone |
| `AcquisitionScheduler.FairRotation` | backend/src/teco_quant/ingestion/dhan_acquisition.py:1522-1537 | while the focus does not change, every batch leads with it and the next n-1 batches pair it with each other symbol exactly once; without a focus n batches visit all n |
| `AcquisitionScheduler.NoLostWake` | backend/src/teco_quant/ingestion/dhan_acquisition.py:1539-1543 | a worker in its normal sleep with a focus pending wakes once no requester is on its way to set the event |
| `AcquisitionScheduler.CooldownNeverCutShort` | backend/src/teco_quant/ingestion/dhan_acquisition.py:1595-1612 | no cycle starts before the deadline of any earlier cooldown, nor before the backoff of any earlier rate-limited cycle, whatever focus requests arrive; only a restart forgets it |
| `AcquisitionScheduler.StartAndStop` | backend/src/teco_quant/ingestion/dhan_acquisition.py:476-528 | a started worker forgets an earlier stop and chooses its first batch at its third step; one that is stopped and woken leaves any wait and is idle |
| `AcquisitionScheduler.BackoffDoubles` | backend/src/teco_quant/ingestion/dhan_acquisition.py:1496-1502 | the backoff starts at the initial value, doubles up to the cap and never decreases |
| `AcquisitionScheduler.CooldownCoversBackoff` | backend/src/teco_quant/ingestion/dhan_acquisition.py:1571-1583 | the cooldown delay is at least the backoff and at most the maximum |
| `AcquisitionScheduler.FailureDoubles` | backend/src/teco_quant/ingestion/dhan_acquisition.py:1582-1586 | without a backoff a failed cycle waits one poll interval, doubled per further failure up to the cap and at most six times |
| `AcquisitionScheduler.CyclePace` | backend/src/teco_quant/ingestion/dhan_acquisition.py:1547-1612 | what a cycle does to the counters and the backoff, and until when the worker then waits: the normal cadence, the cadence put off by the backoff, or the failure delay |
| `PositionSizing.MaximumLotsFor` | frontend/src/domain/risk.ts:203-230 | the binary search terminates with the greatest fitting count up to its starting bound |
| `PositionSizing.GreatestUpToCap` | frontend/src/domain/risk.ts:203-230 | that is the greatest up to the safe-integer cap if and only if the bound is the cap or one lot above it does not fit |
| `PositionSizing.PaisaIsEnough` | frontend/src/domain/risk.ts:161-230 | with a fixed charge of at least one paisa the condition always holds |
| `PositionSizing.BoundCanCutOff` | frontend/src/domain/risk.ts:203-230 | without charges it can fail: a concrete ask, lot and budget |
| `PositionSizing.RecommendedExactly` | frontend/src/domain/risk.ts:254-279 | the recommendation meets both budgets, and is the greatest such count if and only if the same condition holds of the smaller bound |
| `PositionSizing.CalculatePositionSize` | frontend/src/domain/risk.ts:239-310 | rejects exactly the invalid requests, listing their faults; otherwise what is recommended keeps within both budgets and (with a paisa of fixed charge) every larger safe count goes over one; the budgets, the smaller of the two searches with its amounts, one lot's amounts, risk per unit, the three ascending targets, and the no-lot notice exactly when one lot does not fit (with a paisa of fixed charge) |
| `PositionSizing.MoreCapitalNeverFewer` | frontend/src/domain/risk.ts:254-279 | more capital never recommends fewer lots |
| `PositionSizing.TargetsAscend` | frontend/src/domain/risk.ts:281-284 | the three targets never fall back below the ask or each other |
| `PositionSizing.AmountMonotone` | frontend/src/domain/risk.ts:161-200 | rounded, charge-bearing amounts never fall as lots grow |
| `PositionSizing.RoundPaise` | frontend/src/domain/risk.ts:99-101 | whole paise round to themselves |
| `PositionSizing.RoundLaw` | frontend/src/domain/risk.ts:99-101 | rounding gives the nearest whole paisa after a nudge of 2^-52, the upper of two |
| `PositionSizing.AmountsLaw` | frontend/src/domain/risk.ts:161-200 | premium at the ask, entry charge on it, exit charge on the value at the stop, and from these capital and risk, each to the paisa; nothing for no lots |
| `PositionSizing.BudgetLaw` | frontend/src/domain/risk.ts:254-284 | the budgets are the risk and allocation percentages of the capital; the targets lie one, two and three rounded risks above the ask |
| `PositionSizing.SafeCap` | frontend/src/domain/risk.ts:210-212 | the safe cap is the greatest lot count whose quantity is at most 2^53 - 1 |
| `PositionSizing.ValidateRequest` | frontend/src/domain/risk.ts:109-158 | lists exactly the faults of a request, each once; none exactly for valid requests |
| `CatalogClosure.SelectSeeds` | backend/src/teco_quant/ingestion/dhan_catalog.py:482-495 | every matched record is selected and the related ids are exactly those of the selection |
| `CatalogClosure.GrowOnce` | backend/src/teco_quant/ingestion/dhan_catalog.py:500-515 | a pass keeps that, grows the selection when it changes anything, and otherwise leaves nothing related outside |
| `CatalogClosure.FilterSupportedInstruments` | backend/src/teco_quant/ingestion/dhan_catalog.py:476-522 | the loop terminates and returns exactly the records reachable from a seed, each as often as in the master, exchanges ascending, segments within them, and ids within those |
| `CatalogClosure.FamilyIsLeast` | backend/src/teco_quant/ingestion/dhan_catalog.py:497-515 | the reachable records are the least set that holds the seeds and is closed under shared ids |
| `CatalogClosure.LinkLaw` | backend/src/teco_quant/ingestion/dhan_catalog.py:486-512 | records belong together when they are of one exchange and are the same security, one is the underlying of the other, or both have the same underlying |
| `CatalogClosure.OrderIndependent` | backend/src/teco_quant/ingestion/dhan_catalog.py:517-522 | with unique keys the result does not depend on the order of the master |
| `CatalogClosure.OrderMatters` | backend/src/teco_quant/ingestion/dhan_catalog.py:517-522 | all permutations of a master filter to the same sequence if and only if no two different kept records share a key |
| `CatalogClosure.TiedMaster` | backend/src/teco_quant/ingestion/dhan_catalog.py:517-522 | a concrete two-record master whose two orders filter differently |
| `OptionChain.CompatiblePreviousQuotes` | backend/src/teco_quant/ingestion/normalization.py:369-412 | the dictionary with its ambiguous set holds a leg exactly when one recent leg carries its key |
| `OptionChain.NormalizeOptionChain` | backend/src/teco_quant/ingestion/normalization.py:190-366 | the normalizing loop yields the listed legs, each with the change against its one candidate baseline |
| `OptionChain.NormalizedProduced` | backend/src/teco_quant/ingestion/normalization.py:255-284 | every quote is either bare or derived from that baseline with its id and interval |
| `ChainValues.QuoteLaw` | backend/src/teco_quant/ingestion/normalization.py:247-284 | a leg carries a change exactly when it has a baseline (a named, earlier, recent snapshot of the same provider and contract in which one recent leg alone has its key, of the same security and expiry, both with open interest); change, source and interval are then the difference, that snapshot and the seconds between |
| `ChainValues.NormalizedExactly` | backend/src/teco_quant/ingestion/normalization.py:191-366 | one such quote for every leg of a listed strike and no other, strikes ascending, the call before the put |
| `ChainValues.IntervalLaw` | backend/src/teco_quant/ingestion/normalization.py:414-435 | an interval is positive, at most the limit, between aware instants, and counted in seconds |
| `ChangeOiProvenance.CheckReference` | backend/src/teco_quant/ingestion/validation.py:1079-1133 | remembered loads give the same verdicts as loading each time, except that a failing load is reported once |
| `ChangeOiProvenance.ValidateChain` | backend/src/teco_quant/ingestion/validation.py:806-900 | the issue list of the checking loop with its seen-sets is the quote-by-quote list |
| `ChangeOiProvenance.CleanMeansJustified` | backend/src/teco_quant/ingestion/validation.py:1028-1219 | no change-OI error if and only if every change is absent without trace or is the difference to the one matching leg of an earlier accepted snapshot |
| `ChainValues.ReportedExactly` | backend/src/teco_quant/ingestion/validation.py:808-1219 | for each of the twenty codes the exact condition under which a quote draws it, without early returns or remembered loads |
| `ChainValues.AcceptedExactly` | backend/src/teco_quant/ingestion/validation.py:808-960 | a chain is accepted if and only if it is not empty, no key or security id repeats, every quote is the contract's own listing and every change is justified |
| `ChangeOiProvenance.ProducerMeetsChecker` | backend/src/teco_quant/ingestion/service.py:58-101 | after any run of ingestions a built snapshot raises no change-OI error if and only if nothing was derived or the gap to its baseline is within the checker's age limit |
| `ChangeOiProvenance.ProducerAlwaysClean` | backend/src/teco_quant/ingestion/service.py:58-101 | so it never does when the producer's interval limit is within that age limit |
| `ChangeOiProvenance.ChangesTelescope` | backend/src/teco_quant/ingestion/validation.py:1150-1219 | following a leg's references back to a baseline, the changes add up to its open interest minus the baseline's |

## Left out

- REST and WebSocket transports, SQLite connections, WSGI parsing, headers and CORS: input and output. Of SQLite the model keeps the uniqueness, foreign-key and check constraints and transaction atomicity.
- React components, formatting, demo data and the field-by-field payload checks of the browser client: one-branch properties.
- Option pricing, realized volatility and the Sharpe-like ratio: floating-point formulas without state.
- RSI, EMA, WMA, ATR and VWAP: Decimal formulas over a candle list; they would only add members that restate their formula.
- Decimal context rounding (28 digits) and IEEE-754 effects: arithmetic is exact; only the explicit roundings (`roundMoney`, floors, whole lots, quantization of paper fills) are modelled.
- Journal message texts, the order of the open-position summaries and the copied labels of a trade other than through its signal.
- ReplayEngine.ValidateSequence: which of the three refusals is raised is not distinguished, because callers only learn that the sequence is invalid.
- Time zones: instants are already absolute; the local-midnight anchor of resampling is a function parameter, so daylight-saving arithmetic in it is not modelled, nor is subtraction of two timestamps across an offset change.
- The controller's threads, the browser loop and the worker loops are step machines rather than classes with threads; the scheduling of real threads, lock fairness and timing of wake-ups are not modelled.
- The audit event rows of the ledger and the actor and reason of a kill-switch change: they are written and never read back by the modelled code.
- Feed floats stay 32-bit patterns; their numeric value is not modelled.
- Feed telemetry: packet counters, trade-time bookkeeping, reconnect jitter and the display state of the supervisor.
- FeedSupervisor.Supervisor.ReplaceInstruments: rebuilding the subscription messages in batches and closing the old socket are not modelled.
- MarketUpdates.MarketReadModelStore.PublishFeedTick: the merged tick fields and depth are not kept, and whether every field is a finite number is one flag of the packet.
- AcquisitionScheduler.Service.FinishCycle: which lifecycle state a cycle leads to is one flag of its outcome.
- PositionSizing.CalculatePositionSize: the texts of the validation errors and of the no-lot notice are not modelled.
- Dynamic blockers and read status of the read model: payload shaping.
- The acquisition cycle itself (provider calls, caches, callbacks): a cycle is one step with an outcome.
- Alias matching of the catalog (upper-casing and word splitting of symbols) is a parameter of the filter, so its theorems hold for any matching rule; strike selection is not modelled.
- CatalogClosure.FilterSupportedInstruments: the kept records reach the sort in the order of the master; the source collects their positions in a set, whose iteration order only matters for records that tie.
- ChangeOiProvenance.ValidateChain: the five-strike topology and the checks unrelated to identity and change in open interest are one flag of the ingestion step.
- OptionChain.NormalizeOptionChain: parsing of provider numbers and the price, volume and Greek fields are not modelled; payload rows arrive parsed.
- Configuration, serialization, logging and health payloads: easy members.
