/** What the stages of an event amount to, in terms of the configuration and the SDK alone. */
module LoopTerms {
  import opened Algebra
  import opened Durations
  import opened PoolSdk
  import opened Wrappers
  import RW = ReportWindow
  import opened TradeEntry
  import opened Scalar
  import opened LoopFacts
  import Yb = Yb2L

  // ---------------------------------------------------------------------------------------------
  // Arbitrage

  /** The first unit sold to the pool, or bought from it, clears the pool's fee floor at the outside price. */
  predicate ClearsFloor<C, A>(cfg: Config<C, A>, core: C, price: real) {
    var keep, spot := Max(1.0 - cfg.sdk.feeFloor(core), 0.000000000001), cfg.sdk.spotPrice(core);
    price > 0.0 && (keep * (cfg.venue.discount * price) > spot || keep * spot > cfg.venue.markup * price)
  }

  /** The first unit's edge after the fee, in one direction or the other, is above the threshold. */
  predicate ClearsThreshold<C, A>(cfg: Config<C, A>, pool: Pool<C>, price: real) {
    var net, spot := 1.0 - cfg.sdk.fee(pool), cfg.sdk.spotPrice(pool.core);
    cfg.entryThreshold.None? ||
    (net * price > cfg.entryThreshold.value * spot || net * spot > cfg.entryThreshold.value * price)
  }

  predicate Opens<C, A>(cfg: Config<C, A>, pool: Pool<C>, price: real) {
    ClearsFloor(cfg, pool.core, price) && ClearsThreshold(cfg, pool, price)
  }

  lemma OpensIs<C, A>(cfg: Config<C, A>, pool: Pool<C>, price: real)
    ensures MayTrade(cfg.sdk, pool.core, cfg.venue, price) <==> ClearsFloor(cfg, pool.core, price)
    ensures ClearsFloor(cfg, pool.core, price) ==> price > 0.0
    ensures price > 0.0 ==> (EntryOpen(cfg, pool, price) <==> ClearsThreshold(cfg, pool, price))
  {
    FloorIs(cfg, pool.core, price);
    if price > 0.0 { ThresholdIs(cfg, pool, price); }
    hide MayTrade, EntryOpen, ClearsFloor, ClearsThreshold;
  }

  lemma FloorIs<C, A>(cfg: Config<C, A>, core: C, price: real)
    ensures MayTrade(cfg.sdk, core, cfg.venue, price) <==> ClearsFloor(cfg, core, price)
    ensures ClearsFloor(cfg, core, price) ==> price > 0.0
  {}

  lemma ThresholdIs<C, A>(cfg: Config<C, A>, pool: Pool<C>, price: Pos)
    ensures EntryOpen(cfg, pool, price) <==> ClearsThreshold(cfg, pool, price)
  {
    hide EntryEdge;
    if cfg.entryThreshold.Some? {
      EdgeIs(cfg.sdk.fee(pool), cfg.sdk.spotPrice(pool.core), price, cfg.entryThreshold.value);
    }
  }

  lemma EdgeIs(fee: real, spot: Pos, price: Pos, t: real)
    ensures EntryEdge(fee, spot, price) > t <==> (1.0 - fee) * price > t * spot || (1.0 - fee) * spot > t * price
  {
    var net := 1.0 - fee;
    EdgeAbove(net * price, spot, t);
    EdgeAbove(net * spot, price, t);
  }

  lemma EdgeAbove(p: real, q: real, t: real)
    requires q > 0.0
    ensures p / q > t <==> p > t * q
  {
    DivCompare(p, t, q);
  }

  /** The contexts compared with the one in place: one for each report offered, or under cached reports the same
      context without its report. */
  ghost predicate Compared<C, A>(cfg: Config<C, A>, index: nat, ts: nat, pool: Pool<C>, ctxs: seq<Context>) {
    var sel := cfg.selection;
    if (sel.offset.Some? || sel.randomCount > 0 || sel.count > 0 || sel.maxAge > 0.0) && cfg.brings(index) then
      var offers := RW.Offered(cfg.tape, sel, ts as real, cfg.draw(index));
      && |ctxs| == |offers|
      && forall k :: 0 <= k < |ctxs| ==>
           ctxs[k] == Context(ts, cfg.sdk.priceOracle(pool.core), offers[k].price, offers[k].ts)
    else if cfg.cachedReports && pool.ctx.feed > 0.0 then
      ctxs == [Context(pool.ctx.blockTs, pool.ctx.oracle, 0.0, 0.0)]
    else ctxs == []
  }

  /** `t` is what sizing gives: nothing without a direction, and otherwise the search's answer, with the cost of the
      report added to the gas where one is offered. */
  ghost predicate SizedAt<C, A>(cfg: Config<C, A>, pool: Pool<C>, price: real, tradeOnly: bool, t: Trade) {
    match Direction(cfg.sdk, pool, cfg.venue, price, tradeOnly)
    case None => !t.go && t.profit == 0.0
    case Some(i) =>
      t == cfg.size(pool, price, if cfg.swapReports && pool.ctx.feed > 0.0 then cfg.gas + cfg.reportCost else cfg.gas,
                    i, tradeOnly)
  }

  /** The choices: withholding, sized fully, and then each context, of which only a trade is of use. */
  ghost predicate Competes<C, A>(cfg: Config<C, A>, pool: Pool<C>, price: real, ctxs: seq<Context>, os: seq<Choice>) {
    && |os| == 1 + |ctxs| && os[0].ctx == pool.ctx && SizedAt(cfg, pool, price, false, os[0].trade)
    && forall k :: 0 <= k < |ctxs| ==>
         os[k + 1].ctx == ctxs[k] && SizedAt(cfg, pool.(ctx := ctxs[k]), price, true, os[k + 1].trade)
  }

  /** The count of rebalances after a move of the price scale that the configuration tells apart. */
  function Moved<C, A>(cfg: Config<C, A>, before: C, after: C, n: nat): nat {
    if cfg.differs(cfg.sdk.priceScale(after), cfg.sdk.priceScale(before)) then n + 1 else n
  }

  /** What acting on a choice does: a trade that the pool accepts in the choice's context becomes the pool's new
      state, is logged and counted, with its fee in coin 0 and as offered or withheld by whether it brings a report.
      Otherwise pool and log stay, and the loss of a size not taken is noted. */
  ghost predicate Acts<C, A>(cfg: Config<C, A>, ts: nat, price: real, best: Choice, s: State<C, A>, r: State<C, A>,
                             did: bool) {
    var t, before := best.trade, s.tally;
    var pool := s.pool.(ctx := best.ctx);
    var done := cfg.sdk.previewedSwap(pool, t.i, t.dx, t.dy, t.fee);
    var reports := if cfg.swapReports then 1 else 0;
    if t.go && done.Some? then
      var core, fee := done.value.0, done.value.1;
      && did
      && r == s.(pool := pool.(core := core),
                 log := s.log + [Swapped(ts, t.i, t.dx, t.dy, fee, t.profit, price, t.notional)],
                 tally := before.(trades := before.trades + 1, notional := before.notional + t.notional,
                                  lpFee := before.lpFee + (if t.i == 0 then fee * price else fee),
                                  pnl := before.pnl + t.profit,
                                  offered := before.offered + (if best.ctx.feed > 0.0 then reports else 0),
                                  withheld := before.withheld + (if best.ctx.feed > 0.0 then 0 else reports),
                                  rebalances := Moved(cfg, s.pool.core, core, before.rebalances)))
    else
      && !did
      && r == s.(pool := pool, tally := if !t.go && t.profit < 0.0
                                        then before.(guardedLoss := before.guardedLoss - t.profit) else before)
  }

  /** Arbitrage does nothing unless the gate and the entry threshold are cleared, and then it acts on the first of the
      most profitable choices over withholding and exactly the contexts offered. */
  lemma ArbitrageActs<C, A>(cfg: Config<C, A>, index: nat, ts: nat, price: real, s: State<C, A>)
      returns (ctxs: seq<Context>, os: seq<Choice>, k: nat)
    ensures !Opens(cfg, s.pool, price) ==> Arbitrage(cfg, index, ts, price, s) == (s, false)
    ensures Compared(cfg, index, ts, s.pool, ctxs) && Competes(cfg, s.pool, price, ctxs, os) && FirstBest(os, k)
    ensures Opens(cfg, s.pool, price) ==>
              Acts(cfg, ts, price, os[k], s, Arbitrage(cfg, index, ts, price, s).0,
                   Arbitrage(cfg, index, ts, price, s).1)
  {
    hide FirstBest, Acts, Opens, Arbitrage, Compared, Competes;
    ctxs, os, k := ChoicesAre(cfg, index, ts, price, s.pool);
    ArbitrageOn(cfg, index, ts, price, s);
  }

  lemma ChoicesAre<C, A>(cfg: Config<C, A>, index: nat, ts: nat, price: real, pool: Pool<C>)
      returns (ctxs: seq<Context>, os: seq<Choice>, k: nat)
    ensures Compared(cfg, index, ts, pool, ctxs) && Competes(cfg, pool, price, ctxs, os) && FirstBest(os, k)
    ensures Chosen(cfg, index, ts, price, pool) == os[k]
  {
    hide FirstBest, Direction, BestOf, RW.Offered;
    ctxs := Alternatives(cfg, index, ts, pool);
    os := Options(cfg, pool, price, Choice(Sized(cfg, pool, price, false), pool.ctx), ctxs);
    k := ChosenIsFirstBest(cfg, index, ts, price, pool);
    hide Options;
    assert pool.(ctx := pool.ctx) == pool;
  }

  lemma ArbitrageOn<C, A>(cfg: Config<C, A>, index: nat, ts: nat, price: real, s: State<C, A>)
    ensures !Opens(cfg, s.pool, price) ==> Arbitrage(cfg, index, ts, price, s) == (s, false)
    ensures
      var r := Arbitrage(cfg, index, ts, price, s);
      Opens(cfg, s.pool, price) ==> Acts(cfg, ts, price, Chosen(cfg, index, ts, price, s.pool), s, r.0, r.1)
  {
    hide EntryOpen, MayTrade, ClearsFloor, ClearsThreshold, Chosen;
    OpensIs(cfg, s.pool, price);
  }

  // ---------------------------------------------------------------------------------------------
  // Donations

  /** A donation is due when its time has come; its schedule then advances by one period, whether or not the pool takes
      a fair gift. */
  ghost predicate Gives<C, A>(cfg: Config<C, A>, ts: nat, s: State<C, A>, r: State<C, A>) {
    if cfg.donationOn && s.donationNext != 0 && ts >= s.donationNext then
      exists amount0: real, amount1: real ::
        FairGift(cfg, s.pool.core, amount0, amount1) && Given(cfg, ts, s, r, amount0, amount1)
    else r == s
  }

  /** Worth the donation rate, over one period of a year, of the pool's value at the oracle, with the configured share
      of that in coin 1. */
  predicate FairGift<C, A>(cfg: Config<C, A>, core: C, amount0: real, amount1: real) {
    var oracle := cfg.sdk.priceOracle(core);
    var value := cfg.sdk.balance0(core) + cfg.sdk.balance1(core) * oracle;
    var share := cfg.donationApy * value * (cfg.donationFreq as real);
    if oracle > 0.0 then
      && (amount0 + amount1 * oracle) * 31536000.0 == share
      && amount1 * oracle * 31536000.0 == cfg.donationRatio1 * share
    else amount1 == 0.0 && amount0 * 31536000.0 == (1.0 - cfg.donationRatio1) * share
  }

  ghost predicate Given<C, A>(cfg: Config<C, A>, ts: nat, s: State<C, A>, r: State<C, A>, amount0: real, amount1: real)
  {
    var next, t, scale := s.donationNext + cfg.donationFreq, s.tally, cfg.sdk.priceScale(s.pool.core);
    match cfg.sdk.addDonation(s.pool, amount0, amount1, 0.0)
    case None => r == s.(donationNext := next)
    case Some(core) =>
      r == s.(donationNext := next, pool := s.pool.(core := core),
              tally := t.(donations := t.donations + 1, donated := t.donated + (amount0 + amount1 * scale),
                          rebalances := Moved(cfg, s.pool.core, core, t.rebalances)),
              log := s.log + [Donated(ts, s.donationNext, amount0, amount1, scale)])
  }

  lemma DonationIsFair<C, A>(cfg: Config<C, A>, core: C)
    ensures FairGift(cfg, core, DonationAmounts(cfg, core).0, DonationAmounts(cfg, core).1)
  {
    var oracle, a := cfg.sdk.priceOracle(core), DonationAmounts(cfg, core);
    var value := cfg.sdk.balance0(core) + cfg.sdk.balance1(core) * oracle;
    var worth := value * (cfg.donationApy * (cfg.donationFreq as real / YEAR));
    assert worth * 31536000.0 == cfg.donationApy * value * (cfg.donationFreq as real);
    if oracle > 0.0 {
      DivMul(cfg.donationRatio1 * worth, oracle);
      assert a.1 * oracle == cfg.donationRatio1 * worth;
    }
  }

  lemma DonationGives<C, A>(cfg: Config<C, A>, ts: nat, s: State<C, A>)
    ensures Gives(cfg, ts, s, Donate(cfg, ts, s))
  {
    hide FairGift, DonationAmounts;
    DonationIsFair(cfg, s.pool.core);
    var a := DonationAmounts(cfg, s.pool.core);
    assert cfg.donationOn && s.donationNext != 0 && ts >= s.donationNext ==>
      Given(cfg, ts, s, Donate(cfg, ts, s), a.0, a.1);
  }

  // ---------------------------------------------------------------------------------------------
  // Arbitrage within an event

  predicate Searched<C, A>(cfg: Config<C, A>) {
    var sel := cfg.selection;
    sel.offset.Some? || sel.randomCount > 0 || sel.count > 0 || sel.maxAge > 0.0
  }

  /** On arrival the pool has the event's time and a fresh context: without a report under swap reports, and otherwise
      with the event's feed or the report that was there. */
  ghost predicate Arrives<C, A>(cfg: Config<C, A>, index: nat, s: State<C, A>, r: State<C, A>)
    requires index < |cfg.events|
  {
    var e, was := cfg.events[index], s.pool.ctx;
    var report := if cfg.swapReports then (0.0, 0.0)
                  else if cfg.havePriceFeed then (e.feed, e.feedTs) else (was.feed, was.feedTs);
    r == s.(pool := Pool(s.pool.core, e.ts, Context(e.ts, cfg.sdk.priceOracle(s.pool.core), report.0, report.1)))
  }

  /** Before trading, a report that the event brings and that is not searched for is put in place. */
  ghost predicate Shows<C, A>(cfg: Config<C, A>, index: nat, s: State<C, A>, r: State<C, A>)
    requires index < |cfg.events|
  {
    var e := cfg.events[index];
    if cfg.swapReports && cfg.brings(index) && !Searched(cfg) then
      var report := if cfg.havePriceFeed then (e.feed, e.feedTs) else (e.price, e.ts as real);
      r == s.(pool := s.pool.(ctx := Context(e.ts, cfg.sdk.priceOracle(s.pool.core), report.0, report.1)))
    else r == s
  }

  /** From `s` to `t` the log only grows, and by no donation of the schedule and no arbitrage. */
  predicate Quiet(s: seq<Action>, t: seq<Action>) {
    s <= t && forall k :: |s| <= k < |t| ==> !t[k].Swapped? && !t[k].Donated?
  }

  lemma QuietTwice(s: seq<Action>, t: seq<Action>, u: seq<Action>)
    requires Quiet(s, t) && Quiet(t, u)
    ensures Quiet(s, u)
  {}

  lemma AfterTrades<C(!new), A>(cfg: Config<C, A>, index: nat, e: Event, gate: bool, s: State<C, A>)
    requires Sound(cfg.sdk) && Yb.Sane(s.ledger) && e.price > 0.0
    ensures
      var at := Exposed(cfg, index, e, s);
      var arb := if gate then Arbitrage(cfg, index, e.ts, e.price, at) else (at, false);
      && Quiet(arb.0.log, Trading(cfg, index, e, gate, s).log)
      && Trading(cfg, index, e, gate, s).donationNext == arb.0.donationNext
  {
    hide Arbitrage, Exposed, Sound, Yb.Sane;
    var at := Exposed(cfg, index, e, s);
    var arb := if gate then Arbitrage(cfg, index, e.ts, e.price, at) else (at, false);
    var yb := YbOnce(cfg, e.ts, e.price, Withdrawn(cfg, arb.0));
    FillLogs(cfg, e.ts, e.price, Withdrawn(cfg, arb.0));
    var user := UserSwap(cfg, e.ts, e.price, yb.0);
    ServiceLogs(cfg, e.ts, e.price, yb.0);
    QuietTwice(arb.0.log, yb.0.log, user.log);
    var idle := if !(arb.1 || yb.1) then IdleTick(cfg, e.ts, user) else user;
    ServiceLogs(cfg, e.ts, e.price, user);
    QuietTwice(arb.0.log, user.log, idle.log);
    SamplesLogNothing(cfg, e.ts, e.price, idle);
    hide YbOnce, UserSwap, IdleTick, YbReport, SampleNet, Withdrawn;
  }

  lemma FillLogs<C(!new), A>(cfg: Config<C, A>, ts: nat, price: real, s: State<C, A>)
    requires Sound(cfg.sdk) && Yb.Sane(s.ledger)
    ensures Quiet(s.log, YbOnce(cfg, ts, price, s).0.log) && Withdrawn(cfg, s).log == s.log
    ensures YbOnce(cfg, ts, price, s).0.donationNext == s.donationNext == Withdrawn(cfg, s).donationNext
  {
    hide Yb.TryFire, Sound, Yb.Sane;
  }

  lemma ServiceLogs<C, A>(cfg: Config<C, A>, ts: nat, price: Pos, s: State<C, A>)
    ensures Quiet(s.log, UserSwap(cfg, ts, price, s).log) && Quiet(s.log, IdleTick(cfg, ts, s).log)
    ensures UserSwap(cfg, ts, price, s).donationNext == s.donationNext == IdleTick(cfg, ts, s).donationNext
  {
    hide UserFill, TickDue;
  }

  lemma SamplesLogNothing<C, A>(cfg: Config<C, A>, ts: nat, price: real, s: State<C, A>)
    ensures SampleNet(cfg, ts, YbReport(cfg, ts, price, s)).log == s.log
    ensures SampleNet(cfg, ts, YbReport(cfg, ts, price, s)).donationNext == s.donationNext
  {
    hide Due;
  }

  lemma EntersFresh<C, A>(cfg: Config<C, A>, index: nat, s: State<C, A>)
    requires index < |cfg.events|
    ensures Arrives(cfg, index, s, Enter(cfg, cfg.events[index], s))
  {}

  lemma ExposedShows<C, A>(cfg: Config<C, A>, index: nat, s: State<C, A>)
    requires index < |cfg.events|
    ensures Shows(cfg, index, s, Exposed(cfg, index, cfg.events[index], s))
  {}

  // ---------------------------------------------------------------------------------------------
  // Donations over a run

  /** `x` is a whole number of periods after `start`. */
  ghost predicate Periodic(start: nat, freq: nat, x: nat) { exists n: nat :: x == start + Times(n, freq) }

  function Times(n: nat, freq: nat): nat { n * freq }

  /** The schedule stays on the grid of its start, and the donations logged since were made on it, each once, in order,
      and none before its time. */
  ghost predicate OnGrid<C, A>(cfg: Config<C, A>, start: nat, logged: nat, s: State<C, A>)
    requires cfg.donationFreq > 0
  {
    && Periodic(start, cfg.donationFreq, s.donationNext) && logged <= |s.log|
    && (forall k :: logged <= k < |s.log| && s.log[k].Donated? ==>
          && Periodic(start, cfg.donationFreq, s.log[k].due)
          && s.log[k].due < s.donationNext && s.log[k].due <= s.log[k].ts)
    && (forall j, k :: logged <= j < k < |s.log| && s.log[j].Donated? && s.log[k].Donated? ==>
          s.log[j].due < s.log[k].due)
  }

  lemma NextOnGrid(x: nat, start: nat, freq: nat)
    requires Periodic(start, freq, x)
    ensures Periodic(start, freq, x + freq)
  {
    var n: nat :| x == start + Times(n, freq);
    assert x + freq == start + Times(n + 1, freq);
  }

  lemma GiftOnGrid<C, A>(cfg: Config<C, A>, start: nat, logged: nat, ts: nat, s: State<C, A>, r: State<C, A>)
    requires cfg.donationFreq > 0 && OnGrid(cfg, start, logged, s) && Gives(cfg, ts, s, r)
    ensures OnGrid(cfg, start, logged, r)
  {
    hide FairGift, Periodic;
    NextOnGrid(s.donationNext, start, cfg.donationFreq);
    if cfg.donationOn && s.donationNext != 0 && ts >= s.donationNext {
      var amount0: real, amount1: real :|
        FairGift(cfg, s.pool.core, amount0, amount1) && Given(cfg, ts, s, r, amount0, amount1);
      assert forall k :: 0 <= k < |s.log| ==> r.log[k] == s.log[k];
    }
  }

  lemma QuietOnGrid<C, A>(cfg: Config<C, A>, start: nat, logged: nat, s: State<C, A>, r: State<C, A>)
    requires cfg.donationFreq > 0 && OnGrid(cfg, start, logged, s) && r.donationNext == s.donationNext
    requires s.log <= r.log && forall k :: |s.log| <= k < |r.log| ==> !r.log[k].Donated?
    ensures OnGrid(cfg, start, logged, r)
  {
    hide Periodic;
    assert forall k :: 0 <= k < |s.log| ==> r.log[k] == s.log[k];
  }

  lemma ArbitrageLogs<C, A>(cfg: Config<C, A>, index: nat, ts: nat, price: real, s: State<C, A>)
    ensures
      var r := Arbitrage(cfg, index, ts, price, s).0;
      && r.donationNext == s.donationNext && s.log <= r.log
      && forall k :: |s.log| <= k < |r.log| ==> !r.log[k].Donated?
  {
    hide MayTrade, EntryOpen, Chosen, FeeWorth;
  }

  lemma EventOnGrid<C(!new), A>(cfg: Config<C, A>, start: nat, logged: nat, index: nat, s: State<C, A>)
    requires Sound(cfg.sdk) && Yb.Sane(s.ledger) && index < |cfg.events| && cfg.donationFreq > 0
    requires OnGrid(cfg, start, logged, s)
    ensures OnGrid(cfg, start, logged, StepEvent(cfg, index, s).s)
  {
    hide Trading, Arbitrage, Donate, PreTrade, SampleNet, Sound, Yb.Sane, MayTrade, Gives, OnGrid, Exposed;
    var e := cfg.events[index];
    var entered := Enter(cfg, e, s);
    var arrived := PreTrade(cfg, e.ts, e.price, entered);
    EntersFresh(cfg, index, s);
    QuietOnGrid(cfg, start, logged, s, entered);
    PreTradeLogsNothing(cfg, e.ts, e.price, entered);
    QuietOnGrid(cfg, start, logged, entered, arrived);
    if !cfg.stops(arrived.tw) {
      var given := Donate(cfg, e.ts, arrived);
      DonationGives(cfg, e.ts, arrived);
      GiftOnGrid(cfg, start, logged, e.ts, arrived, given);
      if e.price > 0.0 {
        var gate := MayTrade(cfg.sdk, entered.pool.core, cfg.venue, e.price);
        TradingOnGrid(cfg, start, logged, index, gate, given);
      } else {
        NetLogsNothing(cfg, e.ts, given);
        QuietOnGrid(cfg, start, logged, given, SampleNet(cfg, e.ts, given));
      }
    }
  }

  lemma PreTradeLogsNothing<C, A>(cfg: Config<C, A>, ts: nat, price: real, s: State<C, A>)
    ensures PreTrade(cfg, ts, price, s).log == s.log && PreTrade(cfg, ts, price, s).donationNext == s.donationNext
  {}

  lemma TradingOnGrid<C(!new), A>(cfg: Config<C, A>, start: nat, logged: nat, index: nat, gate: bool, s: State<C, A>)
    requires Sound(cfg.sdk) && Yb.Sane(s.ledger) && index < |cfg.events| && cfg.events[index].price > 0.0
    requires cfg.donationFreq > 0 && OnGrid(cfg, start, logged, s)
    ensures OnGrid(cfg, start, logged, Trading(cfg, index, cfg.events[index], gate, s))
  {
    hide Trading, Arbitrage, Sound, Yb.Sane, OnGrid;
    var e := cfg.events[index];
    var at := Exposed(cfg, index, e, s);
    ArbitrageLogs(cfg, index, e.ts, e.price, at);
    AfterTrades(cfg, index, e, gate, s);
    var arb := if gate then Arbitrage(cfg, index, e.ts, e.price, at) else (at, false);
    QuietOnGrid(cfg, start, logged, s, arb.0);
    QuietOnGrid(cfg, start, logged, arb.0, Trading(cfg, index, e, gate, s));
  }

  lemma NetLogsNothing<C, A>(cfg: Config<C, A>, ts: nat, s: State<C, A>)
    ensures SampleNet(cfg, ts, s).log == s.log && SampleNet(cfg, ts, s).donationNext == s.donationNext
    ensures SampleNet(cfg, ts, s).pool == s.pool
  {
    hide Due;
  }

  /** Over every run the donation schedule stays on its grid and no due date is donated twice. */
  lemma {:induction false} RunStaysOnGrid<C(!new), A>(cfg: Config<C, A>, start: nat, logged: nat, index: nat,
                                                      s: State<C, A>)
    requires Sound(cfg.sdk) && Yb.Sane(s.ledger) && index <= |cfg.events| && cfg.donationFreq > 0
    requires OnGrid(cfg, start, logged, s)
    ensures OnGrid(cfg, start, logged, RunFrom(cfg, index, s).s)
    decreases |cfg.events| - index
  {
    hide OnGrid, StepEvent, Sound, Yb.Sane;
    if index < |cfg.events| {
      EventOnGrid(cfg, start, logged, index, s);
      var o := StepEvent(cfg, index, s);
      if !o.stop { RunStaysOnGrid(cfg, start, logged, index + 1, o.s); }
    }
  }

  /** From wherever the schedule stands when a run begins. */
  lemma RunDonatesOnSchedule<C(!new), A>(cfg: Config<C, A>, index: nat, s: State<C, A>)
    requires Sound(cfg.sdk) && Yb.Sane(s.ledger) && index <= |cfg.events| && cfg.donationFreq > 0
    ensures OnGrid(cfg, s.donationNext, |s.log|, RunFrom(cfg, index, s).s)
  {
    assert s.donationNext == s.donationNext + Times(0, cfg.donationFreq);
    RunStaysOnGrid(cfg, s.donationNext, |s.log|, index, s);
  }

  // ---------------------------------------------------------------------------------------------
  // User swaps and idle ticks

  /** A user swap is due when its time has come; its schedule then advances. The size is a daily share of the pool's
      value at the outside price, scaled to the cadence, and it is taken exactly when the pool quotes it within the
      user's tolerance of that price and accepts it. */
  ghost predicate Serves<C, A>(cfg: Config<C, A>, ts: nat, price: Pos, s: State<C, A>, r: State<C, A>) {
    if cfg.userFreq > 0 && cfg.userFrac > 0.0 && s.userNext != 0 && ts >= s.userNext then
      exists dx: real :: DailyShare(cfg, s.pool.core, s.userDir % 2, price, dx) && Served(cfg, ts, price, dx, s, r)
    else r == s
  }

  predicate DailyShare<C, A>(cfg: Config<C, A>, core: C, i: nat, price: Pos, dx: real) {
    var value := cfg.sdk.balance0(core) + price * cfg.sdk.balance1(core);
    var worth := if i == 0 then dx else dx * price;
    worth * 86400.0 == value * (if cfg.userFrac > 1.0 then 1.0 else cfg.userFrac) * (cfg.userFreq as real)
  }

  ghost predicate Served<C, A>(cfg: Config<C, A>, ts: nat, price: Pos, dx: real, s: State<C, A>, r: State<C, A>) {
    var i := s.userDir % 2;
    var reserve := if i == 0 then cfg.sdk.balance0(s.pool.core) else cfg.sdk.balance1(s.pool.core);
    var quote := cfg.sdk.simulateSwap(s.pool, i, dx);
    var fair := if i == 0 then dx <= price * (1.0 + cfg.userThresh) * quote
                else quote >= price * (1.0 - cfg.userThresh) * dx;
    var done := cfg.sdk.swap(s.pool, i, dx);
    var advanced := s.(userNext := s.userNext + cfg.userFreq);
    if reserve > 0.0 && dx > 0.0 && quote > 0.0 && fair && done.Some? then
      var core := done.value.0;
      && r.userDir % 2 == 1 - i
      && r == advanced.(pool := s.pool.(core := core), userDir := r.userDir,
                        tally := s.tally.(rebalances := Moved(cfg, s.pool.core, core, s.tally.rebalances)),
                        log := s.log + [UserSwapped(ts, i, dx, done.value.1, done.value.2)])
    else r == advanced
  }

  lemma UserIsServed<C, A>(cfg: Config<C, A>, ts: nat, price: Pos, s: State<C, A>)
    ensures Serves(cfg, ts, price, s, UserSwap(cfg, ts, price, s))
  {
    hide UserSize, UserAccepts, DailyShare;
    var i := s.userDir % 2;
    var dx := UserSize(cfg, s.pool.core, i, price);
    SizeIsShare(cfg, s.pool.core, i, price);
    var quote := cfg.sdk.simulateSwap(s.pool, i, dx);
    if dx > 0.0 && quote > 0.0 { AcceptsWithin(cfg.userThresh, i, dx, quote, price); }
    assert UserOn(cfg) && s.userNext != 0 && ts >= s.userNext ==>
      Served(cfg, ts, price, dx, s, UserSwap(cfg, ts, price, s));
  }

  lemma SizeIsShare<C, A>(cfg: Config<C, A>, core: C, i: nat, price: Pos)
    ensures DailyShare(cfg, core, i, price, UserSize(cfg, core, i, price))
  {
    var value := cfg.sdk.balance0(core) + price * cfg.sdk.balance1(core);
    var share := if cfg.userFrac > 1.0 then 1.0 else cfg.userFrac;
    var notional := value * share * (cfg.userFreq as real / 86400.0);
    assert notional * 86400.0 == value * share * (cfg.userFreq as real);
    DivMul(notional, price);
  }

  lemma AcceptsWithin(thresh: real, i: nat, dx: Pos, quote: Pos, price: Pos)
    ensures UserAccepts(thresh, i, dx, quote, price) <==>
            if i == 0 then dx <= price * (1.0 + thresh) * quote else quote >= price * (1.0 - thresh) * dx
  {
    DivCompare(dx, price * (1.0 + thresh), quote);
    DivCompare(quote, price * (1.0 - thresh), dx);
  }

  /** A tick happens when the pool has been idle for its period, and is logged when the pool completes it. */
  ghost predicate Idles<C, A>(cfg: Config<C, A>, ts: nat, s: State<C, A>, r: State<C, A>) {
    var tick := cfg.sdk.tick(s.pool);
    if cfg.idleFreq > 0 && ts >= cfg.sdk.touchedAt(s.pool.core) + cfg.idleFreq && tick.1 then
      r == s.(pool := s.pool.(core := tick.0), log := s.log + [Ticked(ts)],
              tally := s.tally.(rebalances := Moved(cfg, s.pool.core, tick.0, s.tally.rebalances)))
    else r == s
  }

  lemma TicksWhenIdle<C, A>(cfg: Config<C, A>, ts: nat, s: State<C, A>)
    ensures Idles(cfg, ts, s, IdleTick(cfg, ts, s))
  {}

  // ---------------------------------------------------------------------------------------------
  // Samples

  /** A series that is not a whole period behind. */
  predicate Current(c: Clock, ts: nat, period: nat) { c.have && ts < c.last + period }

  /** Before trading the price error is sampled, at the fee in place, unless the last sample is under an hour old. */
  ghost predicate SamplesPrice<C, A>(cfg: Config<C, A>, ts: nat, price: real, s: State<C, A>, r: State<C, A>) {
    if Current(s.twClock, ts, 3600) then r == s
    else r == s.(twClock := Clock(true, ts), tw := cfg.twSample(s.tw, ts, s.pool.core, price, cfg.sdk.fee(s.pool)))
  }

  lemma PreTradeSamples<C, A>(cfg: Config<C, A>, ts: nat, price: real, s: State<C, A>)
    ensures SamplesPrice(cfg, ts, price, s, PreTrade(cfg, ts, price, s))
    ensures Current(PreTrade(cfg, ts, price, s).twClock, ts, 3600)
  {}

  /** With positive growth the hourly and the daily score are brought up to date, each sampled exactly when it was a
      whole period behind; without it nothing changes. */
  ghost predicate SamplesGrowth<C, A>(cfg: Config<C, A>, ts: nat, s: State<C, A>, r: State<C, A>) {
    var growth := cfg.netGrowth(s.pool.core, ts);
    if growth.Some? && growth.value > 0.0 then
      var hourly := if Current(s.gm, ts, 3600) then s.acc else cfg.gmAdd(s.acc, ts, growth.value);
      r == s.(gm := if Current(s.gm, ts, 3600) then s.gm else Clock(true, ts),
              robust := if Current(s.robust, ts, 86400) then s.robust else Clock(true, ts),
              acc := if Current(s.robust, ts, 86400) then hourly else cfg.robustAdd(hourly, ts, growth.value))
    else r == s
  }

  lemma NetSamples<C, A>(cfg: Config<C, A>, ts: nat, s: State<C, A>)
    ensures SamplesGrowth(cfg, ts, s, SampleNet(cfg, ts, s))
  {}

  /** The YieldBasis series is marked when it is an hour behind and sampled when growth is known; it counts as sampled
      only at positive growth. */
  ghost predicate SamplesYb<C, A>(cfg: Config<C, A>, ts: nat, price: real, s: State<C, A>, r: State<C, A>) {
    var marked := cfg.ybMark(s.acc, s.pool.core, s.ledger, ts, price);
    var growth := cfg.ybGrowth(marked);
    if !cfg.ybOn || Current(s.ybGm, ts, 3600) then r == s
    else r == s.(acc := if growth.Some? then cfg.ybHour(marked, ts, s.pool.core, growth.value) else marked,
                 ybGm := if growth.Some? && growth.value > 0.0 then Clock(true, ts) else s.ybGm)
  }

  lemma YbSamples<C, A>(cfg: Config<C, A>, ts: nat, price: real, s: State<C, A>)
    ensures SamplesYb(cfg, ts, price, s, YbReport(cfg, ts, price, s))
  {}

  /** After every event that does not stop the run no series that can be sampled is a whole period behind. */
  lemma EventCatchesUp<C(!new), A>(cfg: Config<C, A>, index: nat, s: State<C, A>)
    requires Sound(cfg.sdk) && Yb.Sane(s.ledger) && index < |cfg.events| && !StepEvent(cfg, index, s).stop
    ensures
      var e, t := cfg.events[index], StepEvent(cfg, index, s).s;
      var growth := cfg.netGrowth(t.pool.core, e.ts);
      && Current(t.twClock, e.ts, 3600)
      && (growth.Some? && growth.value > 0.0 ==> Current(t.gm, e.ts, 3600) && Current(t.robust, e.ts, 86400))
  {
    hide Arbitrage, Donate, SampleNet, YbOnce, UserSwap, IdleTick, YbReport, Exposed, Withdrawn, MayTrade, Sound,
         Yb.Sane,
         PreTrade, Trading;
    var e := cfg.events[index];
    var entered := Enter(cfg, e, s);
    var arrived := PreTrade(cfg, e.ts, e.price, entered);
    PreTradeSamples(cfg, e.ts, e.price, entered);
    var given := Donate(cfg, e.ts, arrived);
    DonateKeepsClocks(cfg, e.ts, arrived);
    if e.price > 0.0 {
      TradingCatchesUp(cfg, index, e, MayTrade(cfg.sdk, entered.pool.core, cfg.venue, e.price), given);
    } else {
      NetIsCurrent(cfg, e.ts, given);
      NetKeepsClock(cfg, e.ts, given);
    }
  }

  lemma DonateKeepsClocks<C, A>(cfg: Config<C, A>, ts: nat, s: State<C, A>)
    ensures Donate(cfg, ts, s).twClock == s.twClock
  {
    hide DonationAmounts;
  }

  lemma NetIsCurrent<C, A>(cfg: Config<C, A>, ts: nat, s: State<C, A>)
    ensures
      var r, growth := SampleNet(cfg, ts, s), cfg.netGrowth(s.pool.core, ts);
      growth.Some? && growth.value > 0.0 ==> Current(r.gm, ts, 3600) && Current(r.robust, ts, 86400)
  {}

  lemma NetKeepsClock<C, A>(cfg: Config<C, A>, ts: nat, s: State<C, A>)
    ensures SampleNet(cfg, ts, s).twClock == s.twClock && SampleNet(cfg, ts, s).pool == s.pool
  {}

  lemma StagesKeepClock<C(!new), A>(cfg: Config<C, A>, index: nat, e: Event, s: State<C, A>)
    requires Sound(cfg.sdk) && Yb.Sane(s.ledger) && e.price > 0.0
    ensures Exposed(cfg, index, e, s).twClock == s.twClock == Withdrawn(cfg, s).twClock
    ensures Arbitrage(cfg, index, e.ts, e.price, s).0.twClock == s.twClock
    ensures YbOnce(cfg, e.ts, e.price, s).0.twClock == s.twClock == UserSwap(cfg, e.ts, e.price, s).twClock
    ensures IdleTick(cfg, e.ts, s).twClock == s.twClock == YbReport(cfg, e.ts, e.price, s).twClock
  {
    hide MayTrade, EntryOpen, Chosen, Yb.TryFire, UserFill, TickDue, Sound, Yb.Sane;
  }

  lemma TradingCatchesUp<C(!new), A>(cfg: Config<C, A>, index: nat, e: Event, gate: bool, s: State<C, A>)
    requires Sound(cfg.sdk) && Yb.Sane(s.ledger) && e.price > 0.0
    ensures
      var t := Trading(cfg, index, e, gate, s);
      var growth := cfg.netGrowth(t.pool.core, e.ts);
      && t.twClock == s.twClock
      && (growth.Some? && growth.value > 0.0 ==> Current(t.gm, e.ts, 3600) && Current(t.robust, e.ts, 86400))
  {
    hide Arbitrage, SampleNet, YbOnce, UserSwap, IdleTick, YbReport, Exposed, Withdrawn, Sound, Yb.Sane, Current;
    var exposed := Exposed(cfg, index, e, s);
    StagesKeepClock(cfg, index, e, s);
    StagesKeepClock(cfg, index, e, exposed);
    var arb := if gate then Arbitrage(cfg, index, e.ts, e.price, exposed) else (exposed, false);
    StagesKeepClock(cfg, index, e, arb.0);
    var withdrawn := Withdrawn(cfg, arb.0);
    StagesKeepClock(cfg, index, e, withdrawn);
    var yb := YbOnce(cfg, e.ts, e.price, withdrawn);
    StagesKeepClock(cfg, index, e, yb.0);
    var user := UserSwap(cfg, e.ts, e.price, yb.0);
    StagesKeepClock(cfg, index, e, user);
    var idle := if !(arb.1 || yb.1) then IdleTick(cfg, e.ts, user) else user;
    StagesKeepClock(cfg, index, e, idle);
    var marked := YbReport(cfg, e.ts, e.price, idle);
    NetIsCurrent(cfg, e.ts, marked);
    NetKeepsClock(cfg, e.ts, marked);
  }

  // ---------------------------------------------------------------------------------------------
  // A whole event, and a whole run

  /** After arbitrage no report is in place under swap reports. */
  ghost predicate Hides<C, A>(cfg: Config<C, A>, s: State<C, A>, r: State<C, A>) {
    var ctx := s.pool.ctx;
    if cfg.swapReports then r == s.(pool := s.pool.(ctx := Context(ctx.blockTs, ctx.oracle, 0.0, 0.0))) else r == s
  }

  /** The YieldBasis actor's turn: when it trades and its route fires, pool and ledger are the route's, and the fill is
      logged and counted. */
  ghost predicate Attempts<C(!new), A>(cfg: Config<C, A>, ts: nat, price: real, s: State<C, A>, r: State<C, A>,
                                       fired: bool)
    requires Yb.Sane(s.ledger)
  {
    var f := Yb.TryFire(cfg.sdk, s.pool, s.ledger, price, ts, cfg.ybCosts);
    var before := s.tally;
    if cfg.ybTrades && f.Some? then
      var v := f.value;
      var given := if v.donated then v.donation else 0.0;
      && fired
      && r == s.(pool := s.pool.(core := v.core), ledger := v.ledger,
                 log := s.log + [Filled(ts, v.direction, v.input, v.output, v.profit, given)],
                 tally := before.(fills := before.fills + 1, fillProfit := before.fillProfit + v.profit,
                                  donations := before.donations + (if v.donated then 1 else 0),
                                  donated := before.donated + given,
                                  rebalances := before.rebalances + v.addMoves +
                                                (if v.donated && v.donationMoved then 1 else 0)))
    else !fired && r == s
  }

  lemma FillAttempts<C(!new), A>(cfg: Config<C, A>, ts: nat, price: real, s: State<C, A>)
    requires Sound(cfg.sdk) && Yb.Sane(s.ledger)
    ensures Attempts(cfg, ts, price, s, YbOnce(cfg, ts, price, s).0, YbOnce(cfg, ts, price, s).1)
  {
    hide Yb.TryFire, Sound, Yb.Sane;
  }

  /** Trading at a price: the gate of the pool as the event found it, and the gate and threshold of the pool as it is
      now, decide whether the best choice is acted on; then the actor, a user swap, an idle tick when neither traded,
      and the samples take their turns. */
  ghost predicate Trades<C(!new), A>(cfg: Config<C, A>, index: nat, gate: bool, s: State<C, A>, t: State<C, A>,
                                     at: State<C, A>, ctxs: seq<Context>, os: seq<Choice>, k: nat, arb: State<C, A>,
                                     did: bool, hidden: State<C, A>, filled: State<C, A>, fired: bool,
                                     served: State<C, A>, idle: State<C, A>, marked: State<C, A>)
    requires index < |cfg.events| && cfg.events[index].price > 0.0
  {
    var e := cfg.events[index];
    && Shows(cfg, index, s, at)
    && Compared(cfg, index, e.ts, at.pool, ctxs) && Competes(cfg, at.pool, e.price, ctxs, os) && FirstBest(os, k)
    && (if gate && Opens(cfg, at.pool, e.price) then Acts(cfg, e.ts, e.price, os[k], at, arb, did)
        else arb == at && !did)
    && Hides(cfg, arb, hidden)
    && Yb.Sane(hidden.ledger) && Attempts(cfg, e.ts, e.price, hidden, filled, fired)
    && Serves(cfg, e.ts, e.price, filled, served)
    && (if did || fired then idle == served else Idles(cfg, e.ts, served, idle))
    && SamplesYb(cfg, e.ts, e.price, idle, marked)
    && SamplesGrowth(cfg, e.ts, marked, t)
  }

  lemma TradingTrades<C(!new), A>(cfg: Config<C, A>, index: nat, gate: bool, s: State<C, A>)
      returns (at: State<C, A>, ctxs: seq<Context>, os: seq<Choice>, k: nat, arb: State<C, A>, did: bool,
               hidden: State<C, A>, filled: State<C, A>, fired: bool, served: State<C, A>, idle: State<C, A>,
               marked: State<C, A>)
    requires Sound(cfg.sdk) && Yb.Sane(s.ledger) && index < |cfg.events| && cfg.events[index].price > 0.0
    ensures Trades(cfg, index, gate, s, Trading(cfg, index, cfg.events[index], gate, s),
                   at, ctxs, os, k, arb, did, hidden, filled, fired, served, idle, marked)
  {
    hide Arbitrage, SampleNet, YbOnce, UserSwap, IdleTick, YbReport, Exposed, Withdrawn, Sound, Yb.Sane, Shows,
         Compared,
         Competes, FirstBest, Opens, Acts, Hides, Attempts, Serves, Idles, SamplesYb, SamplesGrowth;
    var e := cfg.events[index];
    at := Exposed(cfg, index, e, s);
    ExposedShows(cfg, index, s);
    ctxs, os, k := ArbitrageActs(cfg, index, e.ts, e.price, at);
    var a := if gate then Arbitrage(cfg, index, e.ts, e.price, at) else (at, false);
    arb, did := a.0, a.1;
    hidden := Withdrawn(cfg, arb);
    WithdrawnHides(cfg, arb);
    var f := YbOnce(cfg, e.ts, e.price, hidden);
    FillAttempts(cfg, e.ts, e.price, hidden);
    filled, fired := f.0, f.1;
    served := UserSwap(cfg, e.ts, e.price, filled);
    UserIsServed(cfg, e.ts, e.price, filled);
    idle := if !(did || fired) then IdleTick(cfg, e.ts, served) else served;
    TicksWhenIdle(cfg, e.ts, served);
    marked := YbReport(cfg, e.ts, e.price, idle);
    YbSamples(cfg, e.ts, e.price, idle);
    NetSamples(cfg, e.ts, marked);
  }

  lemma WithdrawnHides<C, A>(cfg: Config<C, A>, s: State<C, A>)
    ensures Hides(cfg, s, Withdrawn(cfg, s))
  {}

  /** One event: its block and context are set, the price error is sampled, and unless that stops the run a donation
      that is due is made and, at a positive price, trading takes place; at no price only the samples are taken. */
  lemma EventIs<C(!new), A>(cfg: Config<C, A>, index: nat, s: State<C, A>)
      returns (arrived: State<C, A>, sampled: State<C, A>, given: State<C, A>)
    requires Sound(cfg.sdk) && Yb.Sane(s.ledger) && index < |cfg.events|
    ensures
      var e, o := cfg.events[index], StepEvent(cfg, index, s);
      && Arrives(cfg, index, s, arrived) && SamplesPrice(cfg, e.ts, e.price, arrived, sampled)
      && (o.stop <==> cfg.stops(sampled.tw))
      && (o.stop ==> o.s == sampled)
      && (!o.stop ==> Gives(cfg, e.ts, sampled, given) && Yb.Sane(given.ledger))
      && (!o.stop && e.price <= 0.0 ==> SamplesGrowth(cfg, e.ts, given, o.s))
      && (!o.stop && e.price > 0.0 ==>
            o.s == Trading(cfg, index, e, ClearsFloor(cfg, s.pool.core, e.price), given))
  {
    hide Trading, Donate, PreTrade, SampleNet, Sound, Yb.Sane, MayTrade, Gives, ClearsFloor, SamplesPrice,
         SamplesGrowth;
    var e := cfg.events[index];
    arrived := Enter(cfg, e, s);
    EntersFresh(cfg, index, s);
    sampled := PreTrade(cfg, e.ts, e.price, arrived);
    PreTradeSamples(cfg, e.ts, e.price, arrived);
    given := Donate(cfg, e.ts, sampled);
    DonationGives(cfg, e.ts, sampled);
    OpensIs(cfg, arrived.pool, e.price);
    NetSamples(cfg, e.ts, given);
  }

  /** The same, through the trading of an event that has a price and does not stop the run. */
  lemma EventTrades<C(!new), A>(cfg: Config<C, A>, index: nat, s: State<C, A>)
      returns (arrived: State<C, A>, sampled: State<C, A>, given: State<C, A>, at: State<C, A>, ctxs: seq<Context>,
               os: seq<Choice>, k: nat, arb: State<C, A>, did: bool, hidden: State<C, A>, filled: State<C, A>,
               fired: bool, served: State<C, A>, idle: State<C, A>, marked: State<C, A>)
    requires Sound(cfg.sdk) && Yb.Sane(s.ledger) && index < |cfg.events|
    requires !StepEvent(cfg, index, s).stop && cfg.events[index].price > 0.0
    ensures
      var e, t := cfg.events[index], StepEvent(cfg, index, s).s;
      && Arrives(cfg, index, s, arrived) && SamplesPrice(cfg, e.ts, e.price, arrived, sampled)
      && Gives(cfg, e.ts, sampled, given)
      && Trades(cfg, index, ClearsFloor(cfg, s.pool.core, e.price), given, t,
                at, ctxs, os, k, arb, did, hidden, filled, fired, served, idle, marked)
  {
    hide Trading, Sound, Yb.Sane, Gives, ClearsFloor, SamplesPrice, Trades, Arrives, StepEvent;
    arrived, sampled, given := EventIs(cfg, index, s);
    at, ctxs, os, k, arb, did, hidden, filled, fired, served, idle, marked :=
      TradingTrades(cfg, index, ClearsFloor(cfg, s.pool.core, cfg.events[index].price), given);
  }

  /** A run is its events one after the other, up to the first that stops it or the last. */
  lemma {:induction false} RunIsEvents<C(!new), A>(cfg: Config<C, A>, index: nat, s: State<C, A>)
      returns (trace: seq<State<C, A>>)
    requires Sound(cfg.sdk) && Yb.Sane(s.ledger) && index <= |cfg.events|
    ensures
      var end := RunFrom(cfg, index, s);
      && 0 < |trace| <= |cfg.events| - index + 1 && trace[0] == s && trace[|trace| - 1] == end.s
      && (end.stoppedAt.Some? ==> index <= end.stoppedAt.value < |cfg.events|)
      && (forall i :: 0 <= i < |trace| ==> Yb.Sane(trace[i].ledger))
      && (forall i :: 0 <= i < |trace| - 1 ==>
            var o := StepEvent(cfg, index + i, trace[i]);
            trace[i + 1] == o.s && (o.stop <==> i == |trace| - 2 && end.stoppedAt == Some(index + i)))
      && (end.stoppedAt.None? ==> |trace| == |cfg.events| - index + 1)
    decreases |cfg.events| - index
  {
    hide StepEvent, Sound, Yb.Sane;
    if index == |cfg.events| {
      trace := [s];
    } else {
      var o := StepEvent(cfg, index, s);
      if o.stop {
        trace := [s, o.s];
      } else {
        var rest := RunIsEvents(cfg, index + 1, o.s);
        trace := [s] + rest;
        forall i | 0 <= i < |trace| - 1
          ensures
            var p, end := StepEvent(cfg, index + i, trace[i]), RunFrom(cfg, index, s);
            trace[i + 1] == p.s && (p.stop <==> i == |trace| - 2 && end.stoppedAt == Some(index + i))
        {
          if i > 0 { assert trace[i] == rest[i - 1] && trace[i + 1] == rest[i]; }
        }
      }
    }
  }
}
