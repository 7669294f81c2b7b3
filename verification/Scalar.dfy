/** What one event does and what a whole tape does, without caches and without skipping: the reference
    meaning of the event loop. */
module Scalar {
  import opened Algebra
  import opened Durations
  import opened PoolSdk
  import opened Wrappers
  import RW = ReportWindow
  import opened TradeEntry
  import Yb = Yb2L
  import Yb2LRoute

  datatype Event = Event(ts: nat, price: real, feed: real, feedTs: real)

  /** When an hourly or daily series last accepted a sample. */
  datatype Clock = Clock(have: bool, last: nat)

  predicate Due(c: Clock, ts: nat, period: nat) { !c.have || ts >= c.last + period }


  datatype Action =
    | Swapped(ts: nat, i: nat, dx: real, dy: real, fee: real, profit: real, price: real, notional: real)
    | Donated(ts: nat, due: nat, amount0: real, amount1: real, scale: real)
    | UserSwapped(ts: nat, i: nat, dx: real, dy: real, fee: real)
    | Ticked(ts: nat)
    | Filled(ts: nat, direction: nat, input: real, output: real, profit: real, donation: real)

  datatype Tally = Tally(
    trades: nat, offered: nat, withheld: nat, notional: real, lpFee: real, pnl: real, guardedLoss: real,
    rebalances: nat, donations: nat, donated: real, fills: nat, fillProfit: real)

  /** Everything a run reads and writes. `tw` and `acc` are metric accumulators. */
  datatype State<C, A> = State(
    pool: Pool<C>, ledger: Yb.Ledger, donationNext: nat, userNext: nat, userDir: nat, tally: Tally,
    tw: A, acc: A, twClock: Clock, robust: Clock, gm: Clock, ybGm: Clock, log: seq<Action>)

  datatype Config<!C, !A> = Config(
    sdk: Sdk<C>, events: seq<Event>, havePriceFeed: bool,
    // reports
    swapReports: bool, cachedReports: bool, tape: seq<RW.Report>, selection: RW.Selection,
    stored: seq<nat>, brings: nat -> bool, draw: nat -> nat,
    // native arbitrage
    venue: Venue, gas: real, reportCost: real, entryThreshold: Option<real>,
    size: (Pool<C>, real, real, nat, bool) -> Trade,
    // schedules
    donationOn: bool, donationFreq: nat, donationApy: real, donationRatio1: real,
    userFreq: nat, userFrac: real, userThresh: real, idleFreq: nat,
    // YieldBasis
    ybOn: bool, ybTrades: bool, ybCosts: Yb.Costs,
    // metrics
    differs: (real, real) -> bool,
    twSample: (A, nat, C, real, real) -> A, stops: A -> bool,
    netGrowth: (C, nat) -> Option<real>, gmAdd: (A, nat, real) -> A, robustAdd: (A, nat, real) -> A,
    ybMark: (A, C, Yb.Ledger, nat, real) -> A, ybGrowth: A -> Option<real>, ybHour: (A, nat, C, real) -> A)

  predicate UserOn<C, A>(cfg: Config<C, A>) { cfg.userFreq > 0 && cfg.userFrac > 0.0 }
  predicate SearchesReports<C, A>(cfg: Config<C, A>) { RW.Searches(cfg.selection) }

  /** Reports are searched only under a swap-report policy, YB trades only when it is on, and donations are
      then its own. */
  predicate Consistent<C, A>(cfg: Config<C, A>) {
    && (SearchesReports(cfg) ==> cfg.swapReports)
    && (cfg.ybTrades ==> cfg.ybOn)
    && (cfg.donationOn ==> !cfg.ybOn)
    && cfg.ybCosts.minProfit >= 0.0
  }

  function Rebalanced<C, A>(cfg: Config<C, A>, before: C, after: C, t: Tally): Tally {
    if cfg.differs(cfg.sdk.priceScale(after), cfg.sdk.priceScale(before)) then t.(rebalances := t.rebalances + 1) else t
  }

  // ---------------------------------------------------------------------------------------------
  // Entering an event

  function Refreshed<C, A>(cfg: Config<C, A>, core: C, ts: nat, feed: real, feedTs: real): Context {
    Context(ts, cfg.sdk.priceOracle(core), feed, feedTs)
  }

  /** The block clock and research context an event starts from. */
  function Enter<C, A>(cfg: Config<C, A>, e: Event, s: State<C, A>): State<C, A> {
    var core := s.pool.core;
    var ctx := if cfg.swapReports then Refreshed(cfg, core, e.ts, 0.0, 0.0)
               else if cfg.havePriceFeed then Refreshed(cfg, core, e.ts, e.feed, e.feedTs)
               else Refreshed(cfg, core, e.ts, s.pool.ctx.feed, s.pool.ctx.feedTs);
    s.(pool := Pool(core, e.ts, ctx))
  }

  function PreTrade<C, A>(cfg: Config<C, A>, ts: nat, price: real, s: State<C, A>): (r: State<C, A>)
    ensures r.ledger == s.ledger
  {
    if s.twClock.have && ts < s.twClock.last + HOUR then s
    else s.(twClock := Clock(true, ts), tw := cfg.twSample(s.tw, ts, s.pool.core, price, cfg.sdk.fee(s.pool)))
  }


  /** One period's donation at the current oracle price. */
  function DonationAmounts<C, A>(cfg: Config<C, A>, core: C): (real, real) {
    var oracle := cfg.sdk.priceOracle(core);
    var worth := (cfg.sdk.balance0(core) + cfg.sdk.balance1(core) * oracle) *
                 (cfg.donationApy * (cfg.donationFreq as real / YEAR));
    ((1.0 - cfg.donationRatio1) * worth, if oracle > 0.0 then cfg.donationRatio1 * worth / oracle else 0.0)
  }

  /** Coin-0 equivalent of two amounts. */
  function Worth(amount0: real, amount1: real, scale: real): real { amount0 + amount1 * scale }

  /** A due donation. The schedule advances one period whether or not the pool accepts it. */
  function Donate<C, A>(cfg: Config<C, A>, ts: nat, s: State<C, A>): (r: State<C, A>)
    ensures r.ledger == s.ledger && r.tw == s.tw
  {
    if !cfg.donationOn || s.donationNext == 0 || ts < s.donationNext then s
    else
      var a := DonationAmounts(cfg, s.pool.core);
      var advanced := s.(donationNext := s.donationNext + cfg.donationFreq);
      match cfg.sdk.addDonation(s.pool, a.0, a.1, 0.0)
      case None => advanced
      case Some(core) =>
        var t := Rebalanced(cfg, s.pool.core, core, s.tally);
        advanced.(pool := s.pool.(core := core),
                  tally := t.(donations := t.donations + 1,
                              donated := t.donated + Worth(a.0, a.1, cfg.sdk.priceScale(s.pool.core))),
                  log := s.log + [Donated(ts, s.donationNext, a.0, a.1, cfg.sdk.priceScale(s.pool.core))])
  }

  // ---------------------------------------------------------------------------------------------
  // Native arbitrage

  function Gas<C, A>(cfg: Config<C, A>, ctx: Context): real {
    if cfg.swapReports && ctx.feed > 0.0 then cfg.gas + cfg.reportCost else cfg.gas
  }

  function Sized<C, A>(cfg: Config<C, A>, pool: Pool<C>, price: real, tradeOnly: bool): Trade {
    match Direction(cfg.sdk, pool, cfg.venue, price, tradeOnly)
    case None => NO_TRADE
    case Some(i) => cfg.size(pool, price, Gas(cfg, pool.ctx), i, tradeOnly)
  }

  datatype Choice = Choice(trade: Trade, ctx: Context)

  function Consider<C, A>(cfg: Config<C, A>, pool: Pool<C>, price: real, best: Choice, ctx: Context): Choice {
    var t := Sized(cfg, pool.(ctx := ctx), price, true);
    if t.go && (!best.trade.go || t.profit > best.trade.profit) then Choice(t, ctx) else best
  }

  function BestOf<C, A>(cfg: Config<C, A>, pool: Pool<C>, price: real, best: Choice, ctxs: seq<Context>): Choice
    decreases |ctxs|
  {
    if ctxs == [] then best
    else BestOf(cfg, pool, price, Consider(cfg, pool, price, best, ctxs[0]), ctxs[1..])
  }

  function OfferContexts<C, A>(cfg: Config<C, A>, core: C, ts: nat, offers: seq<RW.Report>): (r: seq<Context>)
    ensures |r| == |offers|
    ensures forall k :: 0 <= k < |r| ==> r[k] == Refreshed(cfg, core, ts, offers[k].price, offers[k].ts)
  {
    if offers == [] then []
    else [Refreshed(cfg, core, ts, offers[0].price, offers[0].ts)] + OfferContexts(cfg, core, ts, offers[1..])
  }

  function OfferedAt<C, A>(cfg: Config<C, A>, index: nat, ts: nat): seq<RW.Report> {
    RW.Offered(cfg.tape, cfg.selection, ts as real, cfg.draw(index))
  }

  function Cleared(ctx: Context): Context { ctx.(feed := 0.0, feedTs := 0.0) }

  /** The contexts compared with the one in place. */
  function Alternatives<C, A>(cfg: Config<C, A>, index: nat, ts: nat, pool: Pool<C>): seq<Context> {
    if SearchesReports(cfg) && cfg.brings(index) then OfferContexts(cfg, pool.core, ts, OfferedAt(cfg, index, ts))
    else if cfg.cachedReports && pool.ctx.feed > 0.0 then [Cleared(pool.ctx)]
    else []
  }

  /** The first unit's fee-inclusive edge against the event price, in the better direction. */
  function EntryEdge(fee: real, spot: Pos, price: Pos): real {
    Max((1.0 - fee) * price / spot, (1.0 - fee) * spot / price)
  }

  predicate EntryOpen<C, A>(cfg: Config<C, A>, pool: Pool<C>, price: real) {
    price > 0.0 &&
    match cfg.entryThreshold
    case None => true
    case Some(threshold) => EntryEdge(cfg.sdk.fee(pool), cfg.sdk.spotPrice(pool.core), price) > threshold
  }

  function Chosen<C, A>(cfg: Config<C, A>, index: nat, ts: nat, price: real, pool: Pool<C>): Choice {
    BestOf(cfg, pool, price, Choice(Sized(cfg, pool, price, false), pool.ctx), Alternatives(cfg, index, ts, pool))
  }

  function Arbitrage<C, A>(cfg: Config<C, A>, index: nat, ts: nat, price: real,
                           s: State<C, A>): (r: (State<C, A>, bool))
    ensures r.0.ledger == s.ledger && r.0.tw == s.tw
  {
    if !MayTrade(cfg.sdk, s.pool.core, cfg.venue, price) || !EntryOpen(cfg, s.pool, price) then (s, false)
    else
      var best := Chosen(cfg, index, ts, price, s.pool);
      var pool := s.pool.(ctx := best.ctx);
      if !best.trade.go then
        (s.(pool := pool, tally := if best.trade.profit < 0.0
                                   then s.tally.(guardedLoss := s.tally.guardedLoss - best.trade.profit)
                                   else s.tally), false)
      else CommitSwap(cfg, ts, price, best, s.(pool := pool))
  }

  /** Coin-0 value of a fee taken in the output coin. */
  function FeeWorth(i: nat, fee: real, price: real): real { if i == 0 then fee * price else fee }

  function SwapTally(tally: Tally, t: Trade, fee: real, price: real, reports: bool, offering: bool): Tally {
    tally.(trades := tally.trades + 1,
           offered := if reports && offering then tally.offered + 1 else tally.offered,
           withheld := if reports && !offering then tally.withheld + 1 else tally.withheld,
           notional := tally.notional + t.notional,
           lpFee := tally.lpFee + FeeWorth(t.i, fee, price),
           pnl := tally.pnl + t.profit)
  }

  function CommitSwap<C, A>(cfg: Config<C, A>, ts: nat, price: real, best: Choice, s: State<C, A>)
      : (State<C, A>, bool)
  {
    var t := best.trade;
    match cfg.sdk.previewedSwap(s.pool, t.i, t.dx, t.dy, t.fee)
    case None => (s, false)
    case Some(done) =>
      var tally := Rebalanced(cfg, s.pool.core, done.0, s.tally);
      var counted := SwapTally(tally, t, done.1, price, cfg.swapReports, best.ctx.feed > 0.0);
      (s.(pool := s.pool.(core := done.0), tally := counted,
          log := s.log + [Swapped(ts, t.i, t.dx, t.dy, done.1, t.profit, price, t.notional)]), true)
  }

  // ---------------------------------------------------------------------------------------------
  // YieldBasis, user swaps, idle ticks

  ghost function YbOnce<C(!new), A>(cfg: Config<C, A>, ts: nat, price: real, s: State<C, A>): (r: (State<C, A>, bool))
    requires Sound(cfg.sdk) && Yb.Sane(s.ledger)
    ensures Yb.Sane(r.0.ledger) && r.0.tw == s.tw
  {
    if !cfg.ybTrades then (s, false)
    else match Yb.TryFire(cfg.sdk, s.pool, s.ledger, price, ts, cfg.ybCosts)
         case None => (s, false)
         case Some(f) =>
           Yb2LRoute.FiredIsCommitted(cfg.sdk, s.pool, s.ledger, price, ts, cfg.ybCosts);
           (s.(pool := s.pool.(core := f.core), ledger := f.ledger, tally := FillTally(s.tally, f),
               log := s.log + [FillAction(ts, f)]), true)
  }

  function FillAction<C>(ts: nat, f: Yb.Fired<C>): Action {
    Filled(ts, f.direction, f.input, f.output, f.profit, if f.donated then f.donation else 0.0)
  }

  function FillTally<C>(t: Tally, f: Yb.Fired<C>): Tally {
    t.(fills := t.fills + 1, fillProfit := t.fillProfit + f.profit,
       rebalances := t.rebalances + f.addMoves + (if f.donated && f.donationMoved then 1 else 0),
       donations := t.donations + (if f.donated then 1 else 0),
       donated := t.donated + (if f.donated then f.donation else 0.0))
  }

  /** Size of a due user swap of coin `i`: a daily share of fair value, scaled to the cadence. */
  function UserSize<C, A>(cfg: Config<C, A>, core: C, i: nat, price: Pos): real {
    var share := if cfg.userFrac > 1.0 then 1.0 else cfg.userFrac;
    var notional := (cfg.sdk.balance0(core) + price * cfg.sdk.balance1(core)) * share *
                    (cfg.userFreq as real / 86400.0);
    if i == 0 then notional else notional / price
  }

  /** Whether the previewed execution is within the user's tolerance of the event price. */
  predicate UserAccepts(thresh: real, i: nat, dx: Pos, dy: Pos, price: Pos) {
    if i == 0 then dx / dy <= price * (1.0 + thresh) else dy / dx >= price * (1.0 - thresh)
  }

  function UserFill<C, A>(cfg: Config<C, A>, pool: Pool<C>, dir: nat, price: Pos): Option<(C, nat, real, real, real)> {
    var i := dir % 2;
    var reserve := if i == 0 then cfg.sdk.balance0(pool.core) else cfg.sdk.balance1(pool.core);
    var dx := UserSize(cfg, pool.core, i, price);
    if !(reserve > 0.0) || !(dx > 0.0) then None
    else
      var dy := cfg.sdk.simulateSwap(pool, i, dx);
      if !(dy > 0.0) || !UserAccepts(cfg.userThresh, i, dx, dy, price) then None
      else match cfg.sdk.swap(pool, i, dx)
           case None => None
           case Some(done) => Some((done.0, i, dx, done.1, done.2))
  }

  /** A due user swap. The schedule advances on every due event; the side flips only with a committed swap. */
  function UserSwap<C, A>(cfg: Config<C, A>, ts: nat, price: Pos, s: State<C, A>): (r: State<C, A>)
    ensures r.ledger == s.ledger && r.tw == s.tw
  {
    if !UserOn(cfg) || s.userNext == 0 || ts < s.userNext then s
    else
      var advanced := s.(userNext := s.userNext + cfg.userFreq);
      match UserFill(cfg, s.pool, s.userDir, price)
      case None => advanced
      case Some(done) =>
        advanced.(pool := s.pool.(core := done.0),
                  userDir := if s.userDir % 2 == 0 then s.userDir + 1 else s.userDir - 1,
                  tally := Rebalanced(cfg, s.pool.core, done.0, s.tally),
                  log := s.log + [UserSwapped(ts, done.1, done.2, done.3, done.4)])
  }

  predicate TickDue<C, A>(cfg: Config<C, A>, core: C, ts: nat) {
    cfg.idleFreq > 0 && ts >= cfg.sdk.touchedAt(core) && ts - cfg.sdk.touchedAt(core) >= cfg.idleFreq
  }

  function IdleTick<C, A>(cfg: Config<C, A>, ts: nat, s: State<C, A>): (r: State<C, A>)
    ensures r.ledger == s.ledger && r.tw == s.tw
  {
    if !TickDue(cfg, s.pool.core, ts) then s
    else
      var ticked := cfg.sdk.tick(s.pool);
      if !ticked.1 then s
      else s.(pool := s.pool.(core := ticked.0), tally := Rebalanced(cfg, s.pool.core, ticked.0, s.tally),
              log := s.log + [Ticked(ts)])
  }

  // ---------------------------------------------------------------------------------------------
  // Sampling after trading

  function YbReport<C, A>(cfg: Config<C, A>, ts: nat, price: real, s: State<C, A>): (r: State<C, A>)
    ensures r.ledger == s.ledger && r.tw == s.tw
  {
    if !cfg.ybOn || !Due(s.ybGm, ts, HOUR) then s
    else
      var marked := cfg.ybMark(s.acc, s.pool.core, s.ledger, ts, price);
      match cfg.ybGrowth(marked)
      case None => s.(acc := marked)
      case Some(growth) =>
        s.(acc := cfg.ybHour(marked, ts, s.pool.core, growth), ybGm := if growth > 0.0 then Clock(true, ts) else s.ybGm)
  }

  function SampleNet<C, A>(cfg: Config<C, A>, ts: nat, s: State<C, A>): (r: State<C, A>)
    ensures r.ledger == s.ledger && r.tw == s.tw
  {
    if !Due(s.gm, ts, HOUR) && !Due(s.robust, ts, DAY) then s
    else match cfg.netGrowth(s.pool.core, ts)
         case None => s
         case Some(growth) =>
           if !(growth > 0.0) then s
           else
             var g := if Due(s.gm, ts, HOUR) then s.(acc := cfg.gmAdd(s.acc, ts, growth), gm := Clock(true, ts)) else s;
             if Due(s.robust, ts, DAY) then g.(acc := cfg.robustAdd(g.acc, ts, growth), robust := Clock(true, ts))
             else g
  }

  // ---------------------------------------------------------------------------------------------
  // One event, and a whole tape

  datatype Outcome<C, A> = Outcome(s: State<C, A>, stop: bool)

  /** The context in place when sizing starts: a one-shot report is exposed before sizing. */
  function Exposed<C, A>(cfg: Config<C, A>, index: nat, e: Event, s: State<C, A>): (r: State<C, A>)
    ensures r.ledger == s.ledger && r.tw == s.tw
  {
    if cfg.swapReports && cfg.brings(index) && !SearchesReports(cfg)
    then s.(pool := s.pool.(ctx := if cfg.havePriceFeed then Refreshed(cfg, s.pool.core, e.ts, e.feed, e.feedTs)
                                   else Refreshed(cfg, s.pool.core, e.ts, e.price, e.ts as real)))
    else s
  }

  function Withdrawn<C, A>(cfg: Config<C, A>, s: State<C, A>): (r: State<C, A>)
    ensures r.ledger == s.ledger && r.tw == s.tw
  {
    if cfg.swapReports then s.(pool := s.pool.(ctx := Cleared(s.pool.ctx))) else s
  }

  /** Trading and sampling at a positive price. `gate` is the entry test taken before sampling. */
  ghost function Trading<C(!new), A>(cfg: Config<C, A>, index: nat, e: Event, gate: bool,
                                     s: State<C, A>): (r: State<C, A>)
    requires Sound(cfg.sdk) && Yb.Sane(s.ledger) && e.price > 0.0
    ensures Yb.Sane(r.ledger) && r.tw == s.tw
  {
    hide Arbitrage, UserSwap, IdleTick, YbReport, SampleNet, Exposed, Withdrawn, YbOnce;
    var exposed := Exposed(cfg, index, e, s);
    var arb := if gate then Arbitrage(cfg, index, e.ts, e.price, exposed) else (exposed, false);
    var yb := YbOnce(cfg, e.ts, e.price, Withdrawn(cfg, arb.0));
    var user := UserSwap(cfg, e.ts, e.price, yb.0);
    var idle := if !(arb.1 || yb.1) then IdleTick(cfg, e.ts, user) else user;
    SampleNet(cfg, e.ts, YbReport(cfg, e.ts, e.price, idle))
  }

  ghost function StepEvent<C(!new), A>(cfg: Config<C, A>, index: nat, s: State<C, A>): (r: Outcome<C, A>)
    requires Sound(cfg.sdk) && Yb.Sane(s.ledger) && index < |cfg.events|
    ensures Yb.Sane(r.s.ledger)
    ensures r.stop <==> cfg.stops(r.s.tw)
  {
    var e := cfg.events[index];
    Body(cfg, index, Enter(cfg, e, s))
  }

  /** The event after the clock and context are in place. */
  ghost function Body<C(!new), A>(cfg: Config<C, A>, index: nat, entered: State<C, A>): (r: Outcome<C, A>)
    requires Sound(cfg.sdk) && Yb.Sane(entered.ledger) && index < |cfg.events|
    ensures Yb.Sane(r.s.ledger)
    ensures r.stop <==> cfg.stops(r.s.tw)
  {
    hide Trading, PreTrade, Donate, SampleNet;
    var e := cfg.events[index];
    var gate := MayTrade(cfg.sdk, entered.pool.core, cfg.venue, e.price);
    var sampled := PreTrade(cfg, e.ts, e.price, entered);
    if cfg.stops(sampled.tw) then Outcome(sampled, true)
    else
      var donated := Donate(cfg, e.ts, sampled);
      if !(e.price > 0.0) then Outcome(SampleNet(cfg, e.ts, donated), false)
      else Outcome(Trading(cfg, index, e, gate, donated), false)
  }

  /** The end of a run: its state, and the event it stopped early at, if any. */
  datatype End<C, A> = End(s: State<C, A>, stoppedAt: Option<nat>)

  ghost function RunFrom<C(!new), A>(cfg: Config<C, A>, index: nat, s: State<C, A>): End<C, A>
    requires Sound(cfg.sdk) && Yb.Sane(s.ledger) && index <= |cfg.events|
    decreases |cfg.events| - index
  {
    if index == |cfg.events| then End(s, None)
    else
      var o := StepEvent(cfg, index, s);
      if o.stop then End(o.s, Some(index)) else RunFrom(cfg, index + 1, o.s)
  }
}
