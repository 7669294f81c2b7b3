# Verification of the Curve FX simulation harness

This project models the C++ harness that simulates arbitrage, YieldBasis leverage, donations and user swaps
against a Curve two-coin pool, and proves what the harness relies on. Prices and amounts are `real`, times are
whole seconds. The pool itself is an installed SDK: it appears as the record of functions `PoolSdk.Sdk`, and
what every proof assumes of it is the predicate `PoolSdk.Sound` (square roots, the fee floor, the native fee being a
function of reserves, and circulating shares moving by exactly what mints and burns report and not by donations).
Following the ledger through a run of the loop assumes also `PoolSdk.SharesStay`: swaps and ticks leave the circulating
shares alone. Trade sizing assumes `TradeBounds.Faithful` of a market: nonnegative concave output and sound fee floors.
The tests in front of sizing assume `TradeReach.Promised`: no trade beats the spot price, and no fee is below the
floors. That the add leg mints its target is shown of a pool that mints in proportion (`Yb2LRoute.MintsInProportion`),
and that the hourly score is a geometric mean of functions that are an exponential and its logarithm
(`RollingWindows.Exponential`).

The main results, by component:

* **Event loop.** `Scalar` gives one event and a whole tape their meaning with no cache and no skipping.
  `EventLoop.Loop` is the loop with its geometry, fee and no-trade-band caches and its two cursors. Its `Run` ends
  in the meaning of the tape under either cursor: same trades, metrics, schedules, clock, context and stop.
  `LoopTerms` says in terms of the SDK and the configuration what that meaning is, stage by stage and over every run:
  arbitrage acts on the first of the most profitable reports, donations are fair and on schedule, user swaps are within
  tolerance, and no series lags. `LoopFacts` adds that an event's actions are ordered and at most one of a kind, and
  that the counters are those of the log.
* **YieldBasis actor.** The invariant is the larger root of its quadratic, and quote, proposals, decision and route go
  ahead exactly under conditions stated on reserves, prices and the ledger (`Yb2LTerms`). The no-trade gate and the
  cached band never hide a trade. A proposed fill is the unique
  optimum of its direction at its own edge price. An attempt is all or nothing; over every run of the loop the coin-0
  side of the ledger moves only by debt growth and donations, and the collateral gap stays bounded.
* **Trade sizing.** The concave screen fires exactly when its search says so, and it and the envelope cap drop only
  sizes without profit. The answer is the best of at most 24 sizes tried, and cap walk, ladder, scan, refinement and
  dip search are each accounted for. The ladder leaves no size in reach more than a factor 9, and the merging ratio,
  above a rung, and for concave profit, as under a flat fee, nothing outside the final bracket or end gap beats the
  answer.
* **Worker pool.** A step-by-step protocol in which caller and workers interleave freely: every job of every batch
  runs exactly once with its own function, nothing is lost, and every batch and the destructor finish.
* **Metrics.** The hourly ring, the daily ring and the hourly deque agree with the full history.
* **Grids, tapes, reports, previews.** Ordinals and coordinates are in bijection, overlays act in order, candle
  lists survive the round trip through tapes, events and feeds are causal, and report windows and the preview cache
  give exactly what a direct computation gives.

Two promises hold only under a condition, which is proved exactly. Report bounds stored in 32 bits equal the searched
ones at every time if and only if the tape has fewer than 2^32 reports (`ReportWindow.StoredBoundIsSearch`, with a
failing tape in `LongTapeHidesReports`); building a session refuses longer tapes, so every session meets it
(`Scenario.Build`). Attaching a feed fails, for events out of time order, also when an earlier event has already taken
a later point (`PriceFeed.AttachPriceFeed`, with failing events in `LaterEventFirstFails`); for ordered events, as
every session has, it fails exactly when the first event precedes the feed (`PriceFeed.OrderedStuck`).

Values come as datatypes and functions; what the source changes in place is a class or an array with a method proved
against such a function. Two bit masks of the source (`valid_`, and the override field masks) are read as the sets of
their bits.

## Model

| member | source | states |
|---|---|---|
| EventLoop.CompareCursors | cpp/include/harness/event_loop.hpp:656-666 | The fast cursor and the scalar cursor end in the same state, log, metrics and stopping event, for every tape in time order and every start |
| EventLoop.Loop.Run | cpp/include/harness/event_loop.hpp:766-872 | The loop, with its caches and either cursor, ends exactly where the cache-free meaning of the tape ends |
| EventLoop.Loop.NextEventIndex | cpp/include/harness/event_loop.hpp:656-666 | Passing over events leaves the rest of the run's meaning unchanged and touches no state; under the fast cursor every event passed over is before the deadline and cannot act, and the one returned is at the deadline or may act |
| EventLoop.Loop.HandleEvent | cpp/include/harness/event_loop.hpp:768-871 | One event through the caches is one event of the reference meaning, and the caches stay coherent |
| EventLoop.Loop.NextMandatory | cpp/include/harness/event_loop.hpp:538-584 | The deadline is the earliest of the sampling, donation, user-swap and idle-tick times |
| EventLoop.Loop.IndexedMayAct | cpp/include/harness/event_loop.hpp:639-655 | The cached test is the test on the current pool and ledger |
| EventLoop.Loop.ReportedSizingMayAct | cpp/include/harness/event_loop.hpp:591-624 | The scan of offered reports decides whether withholding or some offered report could be sized |
| EventLoop.Loop.YbMayTrade | cpp/include/harness/event_loop.hpp:626-638 | The banded gate equals the actor's own gate |
| EventLoop.Loop.RunYb | cpp/include/harness/event_loop.hpp:669-712 | The actor's turn is the reference attempt even when the fast cursor asks the gate first |
| EventLoop.Loop.FireYb | cpp/include/harness/event_loop.hpp:679-711 | A fill is committed and counted and leaves no cache valid, since a fired route always moved liquidity; a refusal changes nothing, caches included |
| EventLoop.Loop.ExecuteArb | cpp/include/harness/event_loop.hpp:425-489 | Arbitrage through cached geometry is the reference arbitrage, of which `LoopTerms.ArbitrageActs` says what it does |
| EventLoop.Loop.ChooseContext | cpp/include/harness/event_loop.hpp:438-477 | Comparing reports in place yields the reference choice |
| EventLoop.Loop.VisitOffered | cpp/include/harness/event_loop.hpp:363-372 | The reports visited through the stored bounds are exactly those the selection offers at the event |
| EventLoop.Loop.ApplySwap | cpp/include/harness/event_loop.hpp:382-423 | A committed preview updates pool, counters and log; a revert leaves the pool |
| EventLoop.Loop.EntryIsOpen | cpp/include/harness/event_loop.hpp:430-437 | The gate and the entry-edge threshold, from cached values |
| EventLoop.Loop.RefreshGeometry | cpp/include/harness/event_loop.hpp:267-277 | Afterwards the geometry is valid and is that of the current pool |
| EventLoop.Loop.RefreshEdgeFee | cpp/include/harness/event_loop.hpp:278-283 | Afterwards the cached fee is the pool's fee at the current context |
| EventLoop.Loop.ApplyDonation | cpp/include/harness/event_loop.hpp:313-322 | A due donation, with its cache invalidation, is the reference donation |
| EventLoop.Loop.ApplyUserSwap | cpp/include/harness/event_loop.hpp:324-360 | A due user swap, with its cache invalidation, is the reference user swap |
| EventLoop.Loop.ApplyIdleTick | cpp/include/harness/event_loop.hpp:491-519 | A due tick is the reference tick and leaves no cache valid; a tick that throws, however it left the pool, is put back, and pool, counters and caches are as before |
| Cursor.SkipIsNoop | cpp/include/harness/event_loop.hpp:585-588 | Every event the fast cursor may skip changes nothing but the clock and context the next event overwrites |
| Cursor.SkipKeepsRun | cpp/include/harness/event_loop.hpp:656-666 | Skipping such an event leaves the end of the run as it was |
| Cursor.NothingDue | cpp/include/harness/event_loop.hpp:538-584 | Before the deadline no sample, donation, user swap, tick or report is due |
| Cursor.ReportedArbitrageQuiet | cpp/include/harness/event_loop.hpp:591-624 | When neither withholding nor an offered report may act, arbitrage does nothing and records no loss |
| Cursor.OfferSizesNothing | cpp/include/harness/event_loop.hpp:610-622 | A report that may not profit is never sized into a trade |
| Cursor.SkippedArbitrageQuiet | cpp/include/harness/event_loop.hpp:639-650 | At a skipped event arbitrage leaves the pool core alone |
| LoopFacts.ChosenIsFirstBest | cpp/include/harness/event_loop.hpp:456-477 | The choice is the first of the most profitable ones over withholding and the offered reports; `LoopTerms.ArbitrageActs` ties arbitrage to it |
| LoopFacts.BestOfIsFirstBest | cpp/include/harness/event_loop.hpp:458-465 | Replacing only by a strictly better trade keeps the first maximiser |
| LoopFacts.EventIsOrderly | cpp/include/harness/event_loop.hpp:793-836 | One event appends at most one action of a kind, in the loop's order, at its own time, and no tick after a trade or fill; trades, notional, fees, profit, fills, fill profit, donations and their worth, and the user side keep matching the log |
| LoopFacts.RunIsOrderly | cpp/include/harness/event_loop.hpp:766-872 | Over every run the log only grows, is in time order, and trades, notional, fees, profit, fills, fill profit, donations and their worth, and the user side all match it |
| LoopFacts.UserStage | cpp/include/harness/user_swap.hpp:50-113 | The side of user swaps alternates with committed swaps only |
| LoopTerms.ArbitrageActs | cpp/include/harness/event_loop.hpp:425-489 | Arbitrage does nothing unless the gate and the entry threshold are cleared; then some choice is the first best over withholding and exactly the contexts offered, and if it trades and the pool accepts its preview in its own context, that is the new pool state, logged, and counted as offered or withheld by whether it brings a report |
| LoopTerms.EventIs | cpp/include/harness/event_loop.hpp:768-802 | An event sets block and context, samples the price error, and stops the run exactly when the sample says so; otherwise it makes a donation that is due, and at no price only samples growth |
| LoopTerms.EventTrades | cpp/include/harness/event_loop.hpp:783-871 | The whole of an event that trades, stage by stage in terms of the SDK and the configuration: report shown, best choice acted on, report hidden, actor, user swap, an idle tick when neither traded, samples |
| LoopTerms.RunIsEvents | cpp/include/harness/event_loop.hpp:766-872 | A run is its events one after the other up to the first that stops it or the last |
| LoopTerms.DonationGives | cpp/include/harness/donation.hpp:52-97 | A donation is due when its time has come and is worth the donation rate, over one period of a year, of the pool's value at the oracle, with the configured share in coin 1; the schedule advances one period whether or not it is taken |
| LoopTerms.RunDonatesOnSchedule | cpp/include/harness/donation.hpp:52-97 | Over every run the donation schedule stays on its grid, and each donation logged is on it, once, in order and not before its time |
| LoopTerms.UserIsServed | cpp/include/harness/user_swap.hpp:50-113 | A due user swap is of a daily share of the pool's value at the outside price scaled to the cadence, and is taken exactly when the pool quotes it within the user's tolerance and accepts it; its side then flips |
| LoopTerms.TicksWhenIdle | cpp/include/harness/idle_tick.hpp:17-60 | A tick happens when the pool has been idle for its period, and is logged when the pool completes it |
| LoopTerms.EventCatchesUp | cpp/include/harness/event_loop.hpp:168-188 | After an event that does not stop the run the price error is under an hour old, and with positive growth the hourly score under an hour and the daily one under a day |
| LoopTerms.NetSamples | cpp/include/harness/event_loop.hpp:168-188 | With positive growth each score is sampled exactly when it is a whole period behind, and otherwise nothing changes |
| LedgerRun.LoopKeepsLedger | cpp/include/harness/event_loop.hpp:766-872 | Over every run of the loop the ledger stays sane, debt plus both cash balances changes by exactly the debt growth that fills took up, never negative, less the interest logged as donated, and the collateral gap stays within the entry limit plus the largest tolerance of a logged direction-1 fill |
| TradeEntry.DirectionClearsFloor | cpp/include/trading/arbitrageur.hpp:73-130 | A direction is sized only if it clears the global floor, and for trade-only callers only if the context may profit |
| TradeReach.SideFloorHolds | cpp/include/trading/arbitrageur.hpp:73-130 | No size in a side pays less than its floor, given that no fee is below the pool's floor and that ordered fees only rise for a trade selling the coin that is not the scarcer |
| TradeReach.NoneHidesNothing | cpp/include/trading/arbitrageur.hpp:73-130 | When no direction is sized, no size in either direction earns anything |
| TradeReach.OtherSideLoses | cpp/include/trading/arbitrageur.hpp:73-130 | When one direction is sized, no size in the other earns anything, as long as the bid is no higher than the ask |
| TradeDecision.DecideTrade | cpp/include/trading/arbitrageur.hpp:42-532 | One sizing decision from direction to trade: a trade is of the chosen direction, carries output, fee, profit and notional of its size, and no size tried earns more; nothing is tried only where there is no direction, no range, or nothing to gain |
| TradeDecision.ProfitIsGain | cpp/include/trading/arbitrageur.hpp:159-165 | The profit the search maximises is what a trade of that size earns at the outside price |
| TradeDecision.CrossingIsHalfWay | cpp/include/trading/arbitrageur.hpp:322-341 | The dip is probed at the size that brings the sold reserve half way to the other |
| Yb2LGate.BandClosesGate | cpp/include/harness/yb_2l.hpp:186-214 | At every time of a valid band, a price inside it closes the gate |
| Yb2LGate.GateClosedChoosesNothing | cpp/include/harness/yb_2l.hpp:172-184 | With the gate closed, full sizing with minimum profit and add fee chooses nothing |
| Yb2LGate.GateClosedRefuses | cpp/include/harness/yb_2l.hpp:172-236 | With the gate closed, an attempt leaves pool and ledger alone |
| Yb2LGate.DebtGrows | cpp/include/harness/yb_2l.hpp:164-170 | Projected debt never falls with time |
| Yb2LGate.RoomFalls | cpp/include/harness/yb_2l.hpp:585-606 | x0 less debt never rises with debt, and x0 stays defined as debt falls; what x0 is, `Yb2LInvariant` says |
| Yb2LGate.CurveFalls | cpp/include/harness/yb_2l.hpp:458-471 | The LEVAMM numerator never rises with time |
| Yb2LInvariant.X0Solves | cpp/include/harness/yb_2l.hpp:585-606 | x0 solves its quadratic at the collateral's value and the debt, where the slope is not negative |
| Yb2LInvariant.X0IsLargest | cpp/include/harness/yb_2l.hpp:585-606 | x0 is the largest solution |
| Yb2LInvariant.X0Exists | cpp/include/harness/yb_2l.hpp:585-606 | Outside the safety test x0 is defined exactly when the collateral has value, the debt is not negative and the quadratic has a solution |
| Yb2LInvariant.AtTarget | cpp/include/harness/yb_2l.hpp:353-358 | At a leverage of two and debt at half the collateral's value the raw price is the oracle's |
| Yb2LInvariant.SafeHasInvariant | cpp/include/harness/yb_2l.hpp:585-606 | At a leverage of two, debt between a sixteenth and seventeen thirty-seconds of the value is what the safety test admits, and then x0 is defined |
| Yb2LInvariant.FreshIs | cpp/include/harness/yb_2l.hpp:81-123 | A fresh ledger borrows half the pool's value against all circulating shares, and a year's interest is the donation rate of that value |
| Yb2LInvariant.FreshExists | cpp/include/harness/yb_2l.hpp:81-123 | A fresh ledger exists exactly for a pool of worth with circulating shares, a fee from 0 to 1, and a positive multiplier |
| Yb2LInvariant.CheckpointExists | cpp/include/harness/yb_2l.hpp:125-152 | A historical state is accepted exactly when its quantities and times make sense |
| Yb2LInvariant.CheckpointIs | cpp/include/harness/yb_2l.hpp:125-152 | An accepted historical state is taken over field by field |
| Yb2LTerms.QuoteMarks | cpp/include/harness/yb_2l.hpp:451-494 | The quote: simple interest, the larger root, and the LP's worth with coin 1 sold at the bid or bought at the ask |
| Yb2LTerms.QuoteExists | cpp/include/harness/yb_2l.hpp:451-494 | A quote exists exactly when shares, marks, fee and curve allow one |
| Yb2LTerms.ProposalIsExact | cpp/include/harness/yb_2l.hpp:608-692 | A fill is proposed exactly when it is possible: across the target, within debt or cash, above the profit floor, with an invariant that is there and no lower, and within the safety bounds unless it nears the target ratio |
| Yb2LTerms.DecisionIsExact | cpp/include/harness/yb_2l.hpp:502-550 | Each direction is proposed exactly when possible at its own edge, the fair price less or plus a fixed cost over a fiftieth of the reserve, and grossed up by the fee of an add; the better one is chosen, direction 0 on a tie |
| Yb2LTerms.AddFeeIs | cpp/include/harness/yb_2l.hpp:694-718 | The fee of an add is the noise fee plus, while donations are protected, the lesser of half the pool's fee and what the time left and the donated shares make of it |
| Yb2LTerms.GateIs | cpp/include/harness/yb_2l.hpp:172-184 | The gate is open exactly when there is a quote whose executable price is below the fair bid or above the fair ask |
| Yb2LTerms.BandIs | cpp/include/harness/yb_2l.hpp:186-214 | The band ends where fair and executable prices meet, less the margin, and is given exactly when the actor is alive, the span starts no earlier than the ledger, and there are quotes, coin 1 and room between the ends |
| Yb2LTerms.FillIs | cpp/include/harness/yb_2l.hpp:608-692 | What a proposed fill is: its legs from the end reserve, its profit, and the ledger it leaves |
| Yb2LFill.DecisionIsOptimal | cpp/include/harness/yb_2l.hpp:502-550 | Each proposal of a decision is optimal at its own edge, and the better proposal is chosen, direction 0 on a tie |
| Yb2LFill.BuyFillIsOptimal | cpp/include/harness/yb_2l.hpp:608-647 | A direction-0 fill stays on the constant product, ends where the fee-adjusted price is the edge, and earns strictly more at that edge than any other size |
| Yb2LFill.SellFillIsOptimal | cpp/include/harness/yb_2l.hpp:648-662 | The same for a direction-1 fill |
| Yb2LFill.BuyShortfall | cpp/include/harness/yb_2l.hpp:621-647 | How far any other direction-0 size falls short: a weighted square of its distance |
| Yb2LFill.SellShortfall | cpp/include/harness/yb_2l.hpp:621-662 | How far any other direction-1 size falls short |
| Yb2LFill.VettedLegs | cpp/include/harness/yb_2l.hpp:608-692 | The legs and profit of a valid proposal |
| Yb2LRoute.RunKeeps | cpp/include/harness/yb_2l.hpp:216-351 | Over every run of attempts: the ledger stays sane, debt plus both cash balances changes only by debt growth less donations, and the collateral gap stays within the entry limit plus one tolerance |
| Yb2LRoute.StepKeeps | cpp/include/harness/yb_2l.hpp:216-351 | The same for one attempt, and a killed ledger never moves |
| Yb2LRoute.RunExists | cpp/include/harness/yb_2l.hpp:216-351 | Every permitted sequence of attempts and pool moves has its end state |
| Yb2LRoute.FiredIsCommitted | cpp/include/harness/yb_2l.hpp:216-351 | A fired route is committed as a whole, from a gap within the limit |
| Yb2LRoute.SettleCommits | cpp/include/harness/yb_2l.hpp:312-350 | Ledger move, donation and burn conserve holdings; a direction-0 fill leaves the gap as it was |
| Yb2LRoute.FiredHasLegs | cpp/include/harness/yb_2l.hpp:312-350 | A fired route added or removed liquidity, so its fill always drops the cached geometry |
| Yb2LTerms.SettleIsExact | cpp/include/harness/yb_2l.hpp:312-350 | The last half goes through exactly when the donation of the payable interest is accepted and, in direction 0, the shares it frees can be burnt |
| Yb2LTerms.BuyRouteIsExact | cpp/include/harness/yb_2l.hpp:172-351 | A direction-0 route fires exactly when it is chosen, the gap is within a hundredth, and donation and burn go through |
| Yb2LTerms.SellRouteIsExact | cpp/include/harness/yb_2l.hpp:172-351 | A direction-1 route fires exactly when it is chosen, the gap is as small, the mint side goes through and the donation is accepted |
| Yb2LTerms.MintSideIsExact | cpp/include/harness/yb_2l.hpp:256-310 | The mint side goes through exactly when the first add comes close, the decision after it is still direction 1, and the mint can be corrected |
| Yb2LTerms.MinMintIs | cpp/include/harness/yb_2l.hpp:554-578 | The least mint asked of a donation is its discounted worth in shares, less a relative margin |
| Yb2LRoute.MintsTheTarget | cpp/include/harness/yb_2l.hpp:395-426 | On a pool that mints in proportion to its reserves, at whatever part, the probe makes the add mint exactly the target |
| Yb2LRoute.AddLegsMove | cpp/include/harness/yb_2l.hpp:256-310 | The mint side ends within one reconciliation tolerance of the re-decided fill |
| Yb2LRoute.DecisionIsFair | cpp/include/harness/yb_2l.hpp:502-550 | A chosen fill moves debt and cash by exactly opposite amounts, keeps both nonnegative, keeps pending interest and never lowers x0 |
| Yb2LRoute.ProposalIsFair | cpp/include/harness/yb_2l.hpp:608-692 | The same for one valid proposal |
| Yb2LRoute.AccrueNow | cpp/include/harness/yb_2l.hpp:737-744 | Accrual moves payable interest from cash to the LT and conserves holdings |
| Yb2LRoute.FreshStartsClean | cpp/include/harness/yb_2l.hpp:81-123 | A fresh ledger is sane, has no gap and owes nothing |
| Yb2LRoute.CheckpointIsSane | cpp/include/harness/yb_2l.hpp:125-152 | A validated checkpoint gives a sane ledger |
| Yb2L.GrowthAtLeastOne | cpp/include/harness/yb_2l.hpp:720-729 | Advanced debt is the projected debt and the multiplier stays positive |
| Yb2LActor.Actor.TryFire | cpp/include/harness/yb_2l.hpp:216-351 | Either nothing fired and pool and ledger are exactly as before, or the whole route is committed |
| Yb2LActor.Actor.Commit | cpp/include/harness/yb_2l.hpp:312-350 | The committing half, donation on a copy included, is the reference settlement or fails |
| Yb2LActor.Actor.MintSide | cpp/include/harness/yb_2l.hpp:256-310 | Add, re-decide and correct in place is the reference mint side |
| Yb2LActor.Actor.CorrectMint | cpp/include/harness/yb_2l.hpp:283-304 | The correction up or down |
| Yb2LActor.Actor.DonateInterest | cpp/include/harness/yb_2l.hpp:554-578 | Interest is donated above the floor, or a refusal reported |
| Yb2LActor.Actor.AdvanceDebt | cpp/include/harness/yb_2l.hpp:720-729 | Debt, multiplier and time advance together |
| Yb2LActor.Actor.AccrueInterest | cpp/include/harness/yb_2l.hpp:737-744 | The new ledger after accrual |
| Yb2LActor.Actor.AddLiquidityToMint | cpp/include/harness/yb_2l.hpp:395-426 | A probe scales the deposit, and the result is the reference mint or a refusal; what a refused one did to the pool is the caller's to put back |
| Yb2LActor.Actor.RemoveLiquidityLeg | cpp/include/harness/yb_2l.hpp:428-440 | A burn within the circulating shares, or the pool unchanged |
| TradeBounds.BoundHolds | cpp/include/trading/arbitrageur.hpp:262-275 | The secant bound is above a concave function on the whole bracket |
| TradeBounds.EnvelopeDominates | cpp/include/trading/arbitrageur.hpp:215-236 | Profit at the fee floor is above profit at every admissible fee |
| TradeBounds.EnvelopeConcave | cpp/include/trading/arbitrageur.hpp:215-236 | The envelope is concave in size |
| TradeBounds.CapLosesNothing | cpp/include/trading/arbitrageur.hpp:215-219 | Past a drop of the envelope from positive to nonpositive every size loses or breaks even |
| TradeScreen.Screen | cpp/include/trading/arbitrageur.hpp:276-294 | Screens exactly when some round of the golden-section search bounds everything below zero before a sample is positive, and then every size is negative; a search that gives up has seen a positive size or no such round |
| TradeScreen.BracketRight | cpp/include/trading/arbitrageur.hpp:285-287 | Shrinking right keeps the bracket and discards only sizes no better than a kept sample |
| TradeScreen.BracketLeft | cpp/include/trading/arbitrageur.hpp:288-291 | Shrinking left keeps the bracket and discards only sizes no better than a kept sample |
| TradeScreen.NegativeBoundScreens | cpp/include/trading/arbitrageur.hpp:283-284 | A negative bound on the final bracket makes every size of the original range negative |
| TradeSizing.Search.ScreenOut | cpp/include/trading/arbitrageur.hpp:239-295 | A direction is screened exactly when the search screens its envelope at the screening fee, and then every allowed size has negative profit |
| TradeSizing.Search.Decide | cpp/include/trading/arbitrageur.hpp:245-532 | Screened exactly when the search screens it, and then every size loses. Otherwise the answer is the best of all sizes tried, at most 24, within bounds, come by step by step: cap and seed from the walk, the ladder between them, its first highest rung, a bracket refined around it to the resolution or the budget, or an end that three probes or fewer could not beat, the dip's basin, and last the smallest size. No size past the cap has positive profit, no measured rung beats the answer, and for concave profit nothing outside the final bracket or end gap does. Its output and fee add up to the gross output, and its profit is the output at the outside price less cost and gas |
| TradeSizing.Search.WalkCap | cpp/include/trading/arbitrageur.hpp:297-320 | Every size walked over is on its own side of the envelope's sign change, the cap is the first beyond it, and a seed moves only down to the first size whose envelope is positive; a cap below the upper bound leaves only nonpositive sizes above it |
| TradeSizing.Search.EvalAt | cpp/include/trading/arbitrageur.hpp:191-197 | Evaluation clamps, counts, and keeps the first best of all tried; output kept and fee add up to the gross output, and profit is the kept output at the outside price less cost and gas |
| TradeSizing.Search.BuildLadder | cpp/include/trading/arbitrageur.hpp:356-369 | The points are exactly the ends, the seed, the dip, their factor-3 neighbours inside, and the factor-9 rungs that fit in 14 and 20 |
| TradeSizing.Search.SortLadder | cpp/include/trading/arbitrageur.hpp:370-371 | Insertion sort in place: sorted, and a permutation |
| TradeSizing.Search.MergeLadder | cpp/include/trading/arbitrageur.hpp:372-377 | Merging in place keeps points spaced by the ratio, and every dropped point is near a kept one below it |
| TradeLadder.MergedBounds | cpp/include/trading/arbitrageur.hpp:372-377 | Merged points stay within the range and strictly increase |
| TradeLadder.LadderCovers | cpp/include/trading/arbitrageur.hpp:343-351 | Every size of the range has a rung below it by no more than a factor 9 and the merging ratio, unless its side ran out of room, and even then within six factor-9 steps of the seed |
| TradeLadder.MergedIsLadder | cpp/include/trading/arbitrageur.hpp:370-377 | Sorting and merging leave spaced points of the unsorted ladder, and every one of its points is a rung or just above one |
| TradeSizing.Search.ScanLadder | cpp/include/trading/arbitrageur.hpp:382-392 | The first highest rung; every rung but an envelope cap is evaluated |
| TradeSizing.Search.Refine | cpp/include/trading/arbitrageur.hpp:428-463 | The bracket stays ordered with its middle highest, its samples bound the profits there, and it ends at the resolution or the budget |
| TradeSizing.OutsideLoses | cpp/include/trading/arbitrageur.hpp:428-463 | For concave profit no size outside a bracket with its middle highest beats the middle |
| TradeSizing.FlatFeeIsConcave | cpp/include/trading/arbitrageur.hpp:158-164 | Profit is concave wherever every size pays the same fee |
| TradeSizing.Search.NextProbe | cpp/include/trading/arbitrageur.hpp:432-451 | The next size is strictly inside the bracket and not its middle: the top of the parabola through the bracket where usable, and the golden section otherwise |
| TradeSizing.VertexIsTop | cpp/include/trading/arbitrageur.hpp:428-463 | On a parabola the parabolic step lands exactly on its top |
| TradeSizing.ShareIsGolden | cpp/include/trading/arbitrageur.hpp:398-415 | The constant share of the fallback probe is that of the golden section, within 1e-15 |
| TradeSizing.MidwayIsMean | cpp/include/trading/arbitrageur.hpp:508-513 | The last probe, above a positive bottom of the range, is at the geometric mean of the bottom and the lowest size covered |
| TradeSizing.Search.ProbeEnd | cpp/include/trading/arbitrageur.hpp:407-427 | The first probe that beats a winning end gives a bracket with it; none is given only after three losing probes, a gap within the resolution, or a spent budget |
| TradeSizing.EndBeaten | cpp/include/trading/arbitrageur.hpp:401-427 | For concave profit nothing beyond the last losing probe beats an end that stands |
| TradeSizing.Search.RefineDip | cpp/include/trading/arbitrageur.hpp:474-504 | The dip is left alone only for want of budget or because the best size is within a factor 2 of it; otherwise the first bracket with no higher end is refined to the resolution or the budget, or every bracket had a higher end or no budget |
| TradeSizing.Search.RefineLadder | cpp/include/trading/arbitrageur.hpp:401-466 | The winner gets a bracket between its neighbours, with a tried middle that is highest and at least as high as the winner; only an end that stands, or a lone rung, goes without |
| TradeSizing.FirstBestGrows | cpp/include/trading/arbitrageur.hpp:191-197 | Keeping the strictly better keeps the first maximiser |
| WorkerPoolRuns.EveryReturnIsComplete | cpp/src/evaluator_core.cpp:55-78 | In every interleaving, a call that returns has run each job exactly once with its own function, and the result slots are the sequential map |
| WorkerPoolRuns.EveryCallIsFresh | cpp/src/evaluator_core.cpp:93-111 | In every interleaving, a call is of the current batch's function, never null or stale, on a job not yet run |
| WorkerPoolRuns.EachActiveEntersOnce | cpp/src/evaluator_core.cpp:97-104 | Over every batch from every reachable state, by the time the count is zero each active worker has entered the generation exactly once and no other worker has |
| WorkerPoolRuns.EntriesCount | cpp/src/evaluator_core.cpp:97-104 | Along any part of a batch a worker enters once if it was behind the generation and no longer is, and otherwise not at all |
| WorkerPoolRuns.StepKeeps | cpp/src/evaluator_core.cpp:40-118 | Every step of every thread keeps the protocol invariant |
| WorkerPoolRuns.PathKeeps | cpp/src/evaluator_core.cpp:40-118 | So does every run |
| WorkerPoolRuns.SubmitStarts | cpp/src/evaluator_core.cpp:64-72 | A batch is set up only while every worker rests |
| WorkerPoolRuns.AllThroughIsComplete | cpp/src/evaluator_core.cpp:112-116 | When the count reaches zero every job is done, nobody holds a ticket, and exactly the active workers have taken up the generation |
| WorkerPoolRuns.SomeoneCanStep | cpp/src/evaluator_core.cpp:55-118 | No deadlock and no lost wakeup: an unfinished batch always has a productive step |
| WorkerPoolRuns.MeasureFalls | cpp/src/evaluator_core.cpp:93-118 | Each productive step lowers the ranking measure; a spurious wakeup raises it by at most one |
| WorkerPoolRuns.NoScheduleStalls | cpp/src/evaluator_core.cpp:55-118 | No schedule prolongs a batch beyond the measure, spurious wakeups aside |
| WorkerPoolRuns.BatchReturns | cpp/src/evaluator_core.cpp:55-78 | Every unfinished batch can be driven to a complete return |
| WorkerPoolRuns.StopTerminates | cpp/src/evaluator_core.cpp:40-50 | After stop every step lowers a measure, and until all workers are joined there is one |
| WorkerPoolRuns.DestructorReturns | cpp/src/evaluator_core.cpp:40-50 | From any point the destructor can be driven to its end with every worker exited |
| TimeWeighted.TimeWeightedMetrics.SamplePriceError | cpp/include/harness/metrics.hpp:369-406 | After each sample at or after the last, every accumulator is what the full sample-and-hold history says; an earlier sample moves the clock back and adds nothing |
| TimeWeighted.TimeWeightedMetrics.CloseSpan | cpp/include/harness/metrics.hpp:387-399 | The span held since the last sample is added to every accumulator; covered time is elapsed time |
| TimeWeighted.TimeWeightedMetrics.Pour | cpp/include/harness/metrics.hpp:408-426 | Splitting a span at the hours keeps each ring slot the whole history of its hour |
| TimeWeighted.TimeWeightedMetrics.SumWindow | cpp/include/harness/metrics.hpp:438-455 | The live overlapping buckets add up to the full history over the seven days widened to the first hour |
| TimeWeighted.TimeWeightedMetrics.Sample7d | cpp/include/harness/metrics.hpp:408-462 | The recorded peak is that of the full history |
| TimeWeighted.SlotsHoldDistinctHours | cpp/include/harness/metrics.hpp:305-308 | Two slots never hold the same hour, and all hours are among the last 170 |
| TimeWeighted.PouredHolds | cpp/include/harness/metrics.hpp:413-425 | A slot is started over exactly when it held an hour 170 hours old |
| TimeWeighted.PeakIsMaximum | cpp/include/harness/metrics.hpp:428-462 | The peak bounds the average of every evaluated window |
| TimeWeighted.PeakIsAttained | cpp/include/harness/metrics.hpp:456-461 | The peak is the average of one of them |
| TimeWeighted.PeakNeverFalls | cpp/include/harness/metrics.hpp:456-461 | Evaluation never lowers the peak |
| TimeWeighted.RelAbsIs | cpp/include/harness/metrics.hpp:369-381 | The error is the distance of the pool's price from the outside one per unit of the outside price |
| TimeWeighted.RelGapIs | cpp/include/harness/metrics.hpp:369-381 | The gap is that distance per unit of the pool's price, at most one |
| TimeWeighted.EnergyIs | cpp/include/harness/metrics.hpp:387-396 | A gap above 1.5% counts by the square of the excess, in days |
| HeldHistory.LastHoursAreWindow | cpp/include/harness/metrics.hpp:436-454 | The last 170 hours hold the whole window |
| HeldHistory.CoveredTime | cpp/include/harness/metrics.hpp:387-391 | Covered time is the overlap with the history's extent |
| RollingWindows.KeptMoves | cpp/include/harness/metrics.hpp:118-125 | Trimming after each sample keeps exactly what the longer history needs |
| RollingWindows.KeptIsShort | cpp/include/harness/metrics.hpp:118-125 | The kept samples number at most the window's periods plus one |
| RollingWindows.GrowthBaseline | cpp/include/harness/metrics.hpp:122-136 | A window is measured from the latest accepted sample at least a window old, and exists exactly when the first sample is that old |
| RollingWindows.BaseIsLatest | cpp/include/harness/metrics.hpp:122-125 | The baseline is the latest sample at or before the cutoff |
| RollingWindows.RollingGeoApyWindow.AddSample | cpp/include/harness/metrics.hpp:110-157 | The deque and its sums are those of the full history of accepted samples |
| RollingWindows.RollingGeoApyWindow.Record | cpp/include/harness/metrics.hpp:136-156 | Floored and unfloored windows are counted and summed |
| RollingWindows.RollingGeoApyWindow.Value | cpp/include/harness/metrics.hpp:159-164 | The score to the power of the number of windows is the product of their floored APYs |
| RollingWindows.RollingGeoApyWindow.FloorShare | cpp/include/harness/metrics.hpp:172-178 | The share of the windows that were floored |
| RollingWindows.LogsOfApys | cpp/include/harness/metrics.hpp:136-151 | The summed logs are those of the floored APYs |
| RobustScore.NetApyRobust90d.AddSample | cpp/include/harness/metrics.hpp:240-274 | The ring holds what the full history needs and is never full; the rates are those of the full history |
| RobustScore.NetApyRobust90d.Admit | cpp/include/harness/metrics.hpp:245-257 | Insertion never meets a full ring, and slot 0 is the baseline |
| RobustScore.NeverFull | cpp/include/harness/metrics.hpp:201-202 | A slot of the 92 is always free |
| RobustScore.NetApyRobust90d.Value | cpp/include/harness/metrics.hpp:276-299 | The score is halfway between the mean and the tail mean, which is no better than the mean, however nth_element arranged the rates; the tail mean is that of any k smallest, for the k that is a twentieth rounded up |
| RobustScore.TailIsWellDefined | cpp/include/harness/metrics.hpp:280-293 | The tail sum is that of the smallest rates whatever the arrangement |
| RobustScore.TailMeanBelowMean | cpp/include/harness/metrics.hpp:294-298 | The tail mean never exceeds the mean |
| RobustScore.TailSum | cpp/include/harness/metrics.hpp:289-292 | The loop sums the first tail-count rates |
| RobustScore.LogRateIs | cpp/include/harness/metrics.hpp:262-271 | A window's rate is its log growth scaled to a year |
| Grid.EncodeDecode | cpp/include/curve_fx_evaluator/compiled_grid.hpp:362-367 | Every ordinal below the total decodes to coordinates in the shape that encode back to it |
| Grid.DecodeEncode | cpp/include/curve_fx_evaluator/compiled_grid.hpp:362-367 | Every coordinate tuple in the shape is the decoding of its own ordinal |
| Grid.DecodeInOrder | cpp/include/curve_fx_evaluator/compiled_grid.hpp:362-367 | Ordinals follow the tuples in dictionary order: the last axis varies fastest |
| Grid.ListingIsDecoding | cpp/include/curve_fx_evaluator/compiled_grid.hpp:362-367 | The listing of all tuples in that order is the only one, and its entries are the decodings |
| Grid.Compile | cpp/include/curve_fx_evaluator/compiled_grid.hpp:203-313 | Accepts exactly the consistently described grids whose total is at most 2^32 |
| Grid.OverflowTest | cpp/include/curve_fx_evaluator/compiled_grid.hpp:229-234 | The test by division before multiplying is exact |
| Grid.Coordinates | cpp/include/curve_fx_evaluator/compiled_grid.hpp:362-367 | The running remainder fills in place the coordinates that `Grid.DecodeInOrder` puts in dictionary order |
| Grid.Build | cpp/include/curve_fx_evaluator/compiled_grid.hpp:356-377 | A candidate has its ordinal uncut, the last update of each parameter, and its overlays in axis order |
| Grid.CandidateAppliesInOrder | cpp/include/curve_fx_evaluator/compiled_grid.hpp:368-376 | A candidate acts on any setup as the base and then its axis patches in axis order |
| Grid.OrdinalsAreOrdered | cpp/include/curve_fx_evaluator/compiled_grid.hpp:337-346 | Accepted ranges give strictly increasing ordinals in the grid |
| Grid.OrdinalsCover | cpp/include/curve_fx_evaluator/compiled_grid.hpp:354-356 | They are exactly the ordinals of the ranges |
| Grid.MaterializeRanges | cpp/include/curve_fx_evaluator/compiled_grid.hpp:317-381 | Materialises exactly the acceptable requests, one candidate per ordinal in order, each made of the tuple at its ordinal in the dictionary order of all tuples |
| PoolOverrides.OverlayAppliesInOrder | cpp/include/pools/pool_config_parse.hpp:435-479 | Applying an overlay equals applying the two patches in turn, costs and run settings included |
| PoolOverrides.OverlaysApplyInOrder | cpp/include/pools/pool_config_parse.hpp:435-479 | The same for any number of patches |
| PoolOverrides.PoolOverride.Apply | cpp/include/pools/pool_config_parse.hpp:435-465 | Masked fields take the patch's value, the others keep theirs |
| PoolOverrides.PoolOverride.Overlay | cpp/include/pools/pool_config_parse.hpp:467-479 | The override's new value and masks, also when laid over itself |
| ReportWindow.UpperBound | cpp/include/harness/report_window.hpp:17-21 | Binary search finds the number of reports published by a time |
| ReportWindow.IndexReportEvents | cpp/include/harness/report_window.hpp:61-67 | The stored bounds are the searched ones cut to 32 bits |
| ReportWindow.StoredBoundIsSearch | cpp/src/scenario_store.cpp:73-75 | The cast to 32 bits is harmless at every time exactly for tapes of fewer than 2^32 reports |
| ReportWindow.LongTapeHidesReports | cpp/include/harness/report_window.hpp:64-66 | A tape of 2^32 reports, all published at once, whose stored bound is zero |
| ReportWindow.WindowIsExact | cpp/include/harness/report_window.hpp:28-38 | A window offers exactly the published reports among the last N, or no older than W |
| ReportWindow.OffersArePublished | cpp/include/harness/report_window.hpp:28-58 | No selection offers a future report; a fixed offset offers the report that exactly so many published ones follow, if there is one, and a random draw one of the last N |
| ReportWindow.DrawsTakeTurns | cpp/include/harness/report_window.hpp:48-58 | Every one of the last N published reports is offered by some draw, a draw below N counts back from the newest, and draws repeat every N |
| ReportWindow.Window.Each | cpp/include/harness/report_window.hpp:28-38 | Visits the window's reports in order |
| ReportWindow.Window.AtOffset | cpp/include/harness/report_window.hpp:40-46 | Visits the report at a fixed offset, if there is one |
| ReportWindow.Window.SampleLast | cpp/include/harness/report_window.hpp:48-57 | Visits the drawn report |
| PreviewCache.SwapPreviewCache.Get | cpp/include/trading/swap_preview_cache.hpp:23-37 | A quote through the cache is the uncached quote for every fee, whatever slots collide |
| PreviewCache.ChargeAddsUp | cpp/include/trading/swap_preview_cache.hpp:34-36 | A quote's output and fee add up to the gross output, and the fee is its rate of it |
| CandleTapes.MakeCandleTape | cpp/src/candle_tape.cpp:36-61 | Accepts exactly nonempty, increasing lists on one regular clock, with the right error otherwise; the nonempty bins read back are the list |
| CandleTapes.TapeIsUnique | cpp/src/candle_tape.cpp:36-61 | A list has one tape: every column of every bin is determined by the list |
| CandleTapes.EachInOneBin | cpp/src/candle_tape.cpp:49-59 | Every candle is in the bin of its timestamp and in no other |
| CandleTapes.StepIsLeast | cpp/src/candle_tape.cpp:40-45 | The clock is the least step between candles |
| CandleTapes.FillBin | cpp/src/candle_tape.cpp:49-59 | One bin places the pending candle, leaves it for later, or rejects a candle off the clock |
| CandleTapes.PresentIsPast | cpp/src/candle_tape.cpp:49-59 | The first n bins hold exactly the candles before their end |
| CandleEvents.GenCandleEvents | cpp/src/candle_tape.cpp:11-34 | The events and trace candles of exactly the emitting bins, with the two error cases exact |
| CandleEvents.VisitBin | cpp/src/candle_tape.cpp:17-31 | One bin moves the mark and emits exactly when it should |
| CandleEvents.MarkIsLatest | cpp/src/candle_tape.cpp:19-24 | The mark is the close of the latest nonempty bin that touches no exclusion |
| CandleEvents.EventPriceIsLatestClose | cpp/src/candle_tape.cpp:11-61 | From candle list to events, under any exclusions: an event's price is the close of the latest candle begun before it in a bin that touches no exclusion |
| CandleEvents.EventsAvoidExclusions | cpp/src/candle_tape.cpp:17-24 | No event lies in an excluded range, the bin it ends overlaps none, and it is within the window |
| CandleEvents.ClearBinsEmit | cpp/src/candle_tape.cpp:17-31 | Every bin that no exclusion touches, that ends within the window and whose latest untouched candle has a positive close has an event, at its end and at that close |
| CandleEvents.EventsAreOrdered | cpp/src/candle_tape.cpp:24-31 | Events strictly increase in time, are positive, and match their trace candles |
| CandleEvents.EmittingIsExact | cpp/src/candle_tape.cpp:17-24 | The emitting bins, each once and in order |
| CandleEvents.ValidateRanges | cpp/include/events/time_ranges.hpp:14-21 | Accepts exactly ordered, disjoint, nonempty ranges |
| PriceFeed.AttachPriceFeed | cpp/src/price_feed.cpp:114-135 | Each event gets the latest point at or before it; the exact failure condition |
| PriceFeed.OrderedStuck | cpp/src/price_feed.cpp:127-131 | For ordered events it fails exactly when the first event precedes the feed |
| PriceFeed.LaterEventFirstFails | cpp/src/price_feed.cpp:114-135 | Two events out of order, each with a point at or before it, on which attaching fails |
| Scenario.Build | cpp/src/scenario_store.cpp:44-85 | A session is built exactly when nothing stands in the way, and the first obstacle is named otherwise; a built one has ordered events at positive prices, the latest feed point on each, a sorted tape below 2^32 and exact stored bounds |
| Scenario.SessionSuitsLoop | cpp/src/scenario_store.cpp:44-85 | A built session meets every precondition that the event loop puts on its tape |
| Scenario.MakeEvents | cpp/src/scenario_store.cpp:44-65 | Events exist exactly for nonempty increasing regular candles, ordered exclusions, fitting indices and some emitting bin, with each failure named; they are in strict time order at positive prices, each with its trace candle |
| Scenario.Attach | cpp/src/scenario_store.cpp:66 | Fails exactly when the first event precedes the feed; otherwise every event carries the latest feed point at or before it |
| Scenario.FromEvents | cpp/src/events.cpp:217-246 | The stream is the events in order; the feed columns exist only if some feed price is not zero |
| PriceFeed.Advance | cpp/src/price_feed.cpp:124-126 | The point index moves forward to the latest point and never back |

## Left out

- The pool SDK's internals (invariant solver, liquidity, tweaks, policy code): assumed through `PoolSdk.Sound` and `TradeBounds.Faithful`; reverting calls return `None` and leave the pool.
- RollingWindows.RollingGeoApyWindow.Value: the diagnostic score over the windows that were not floored is not modelled.
- Floating point: rounding, NaN, infinities and the `isfinite` tests; `long double` against `double`. A few constants of rounding (band margin, `1e-12` slack, tolerances) are kept as reals.
- Unsigned 64-bit wrap-around and saturation of times and counters; the one 32-bit cast that matters is modelled.
- `log`, `exp`, `pow`, `expm1`: abstract functions, increasing and inverse where the search needs it. The seed of the size search (price impact, spot edge) is an arbitrary input.
- EventLoop.Loop.SizeTrade: trade sizing enters the loop as one deterministic function of pool, price, gas and direction; `TradeDecision` and `TradeSizing` prove what is inside it and `PreviewCache` that sharing previews does not change it.
- Slippage probes, action and detailed-row logging, the imbalance and fee averages, and endpoint metrics; inside the loop the metric accumulators are abstract values, and `TimeWeighted`, `RollingWindows` and `RobustScore` prove what they hold.
- LoopFacts.EventIsOrderly: the counters of rebalances and guarded losses are not matched to the log, which records neither price scales nor attempts that did not trade.
- Reports that the SDK rejects by throwing while a context is refreshed are not modelled in the loop.
- Yb2LActor.Actor.TryFire: a disabled, default-constructed actor is not modelled; an enabled one is.
- Yb2LGate.BandClosesGate: asks for a nonnegative rate, which a validated checkpoint has and a fresh ledger has for a nonnegative donation rate.
- TradeSizing.Search.ScanLadder: when the ladder merges a point less than 1e-9 below the envelope cap with the cap, that point stands in the cap's place with its envelope ordinate.
- TradeSizing.Search.Decide: an envelope cap is never evaluated, so where every other rung loses more than it would, the cap's own profit can exceed the answer; both are then without profit.
- WorkerPoolRuns.EveryReturnIsComplete: one caller at a time, as the evaluator uses it; critical sections are single steps, memory order is sequential, and the ticket counter and generation do not wrap.
- TimeWeighted.TimeWeightedMetrics.SamplePriceError: once a sample has moved the clock back the accumulators no longer stand for one history, and nothing is said of later samples; event tapes are in time order. The four bucket arrays are one array of records, and durations are whole seconds.
- RobustScore.NetApyRobust90d.Value: the arrangement that `std::nth_element` leaves is an input satisfying its contract.
- Grid.Compile: parsing of axis paths and values from JSON is not modelled; an axis value is its updates and its patch.
- The candidate identifier string, loaders of NPZ, CSV and JSON, configuration parsing, the server and block tapes. The feed given to `Scenario.Build` is already sorted and free of excluded points.
