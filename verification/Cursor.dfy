/** Which events the fast cursor may pass over, and why passing over them changes nothing. */
module Cursor {
  import opened Durations
  import opened PoolSdk
  import RW = ReportWindow
  import opened TradeEntry
  import opened Scalar
  import Yb = Yb2L
  import Yb2LGate

  // ---------------------------------------------------------------------------------------------
  // Deadlines

  function Earlier(a: nat, b: nat): (r: nat)
    ensures r <= a && r <= b
  {
    if a <= b then a else b
  }

  /** The first time at which something scheduled is due; the start of the run while a series has no sample. */
  function Mandatory<C, A>(cfg: Config<C, A>, start: nat, end: nat, s: State<C, A>): nat {
    if !s.twClock.have || !s.robust.have || !s.gm.have || (cfg.ybOn && !s.ybGm.have) then start
    else
      var sampled := Earlier(Earlier(Earlier(end, s.twClock.last + HOUR), s.robust.last + DAY), s.gm.last + HOUR);
      var valued := if cfg.ybOn then Earlier(sampled, s.ybGm.last + HOUR) else sampled;
      var donated := if cfg.donationOn && s.donationNext != 0 then Earlier(valued, s.donationNext) else valued;
      var swapped := if UserOn(cfg) && s.userNext != 0 then Earlier(donated, s.userNext) else donated;
      if cfg.idleFreq > 0 then Earlier(swapped, cfg.sdk.touchedAt(s.pool.core) + cfg.idleFreq) else swapped
  }

  // ---------------------------------------------------------------------------------------------
  // Whether an event's price could act

  const SLACK := 1.0 - 0.000000000001

  predicate ReportMayAct<C, A>(cfg: Config<C, A>, core: C, ts: nat, price: real, sells0: bool, sells1: bool,
                               r: RW.Report) {
    !(r.price > 0.0) || r.ts < 0.0 || r.ts > ts as real ||
    var ctx := Refreshed(cfg, core, ts, r.price, r.ts);
    var spot := cfg.sdk.spotPrice(core);
    (sells0 && cfg.sdk.contextMayProfit(core, ctx, 0, spot, Bid(cfg.venue, price))) ||
    (sells1 && cfg.sdk.contextMayProfit(core, ctx, 1, spot, Ask(cfg.venue, price)))
  }

  /** Whether sizing without a report, or with any offered one, could be reached. */
  predicate ReportedMayAct<C, A>(cfg: Config<C, A>, core: C, index: nat, ts: nat, price: real, sells0: bool,
                                 sells1: bool) {
    var offers := OfferedAt(cfg, index, ts);
    !WithholdingRejected(cfg, core, ts, price) ||
    (cfg.brings(index) &&
     exists k :: 0 <= k < |offers| && ReportMayAct(cfg, core, ts, price, sells0, sells1, offers[k]))
  }

  predicate WithholdingRejected<C, A>(cfg: Config<C, A>, core: C, ts: nat, price: real) {
    var ctx := Refreshed(cfg, core, ts, 0.0, 0.0);
    var floor, f01, f10 := cfg.sdk.feeFloor(core), cfg.sdk.contextFloor(core, ctx, 0),
                           cfg.sdk.contextFloor(core, ctx, 1);
    && (f01 > floor || f10 > floor)
    && !SellsAbove(Keep(f01), Bid(cfg.venue, price), cfg.sdk.spotPrice(core))
    && !(price > 0.0 && SellsAbove(Keep(f10), cfg.sdk.spotPrice(core), Ask(cfg.venue, price)))
  }

  predicate NativeMayAct<C, A>(cfg: Config<C, A>, core: C, index: nat, e: Event) {
    var keep, spot := Keep(cfg.sdk.feeFloor(core)), cfg.sdk.spotPrice(core);
    var bid, ask := Bid(cfg.venue, e.price), Ask(cfg.venue, e.price);
    && (SellsAbove(keep, bid, spot) || (e.price > 0.0 && SellsAbove(keep, spot, ask)))
    && (!(cfg.swapReports && SearchesReports(cfg)) ||
        ReportedMayAct(cfg, core, index, e.ts, e.price, SellsAbove(keep, bid, spot * SLACK),
                       e.price > 0.0 && SellsAbove(keep, spot, ask * SLACK)))
  }

  predicate MayAct<C, A>(cfg: Config<C, A>, core: C, ledger: Yb.Ledger, index: nat)
    requires ledger.levRatio > 0.0 && ledger.rateMul > 0.0 && index < |cfg.events|
  {
    var e := cfg.events[index];
    NativeMayAct(cfg, core, index, e) ||
    (cfg.ybTrades && Yb.MayTrade(cfg.sdk, core, ledger, e.price, e.ts, cfg.ybCosts))
  }

  // ---------------------------------------------------------------------------------------------
  // A skipped event is a no-op

  /** The same state but for the clock and context that the next event overwrites. */
  ghost predicate Alike<C(!new), A(!new)>(cfg: Config<C, A>, s: State<C, A>, t: State<C, A>) {
    && t == s.(pool := Pool(s.pool.core, t.pool.clock, t.pool.ctx))
    && (!cfg.swapReports && !cfg.havePriceFeed ==>
        t.pool.ctx.feed == s.pool.ctx.feed && t.pool.ctx.feedTs == s.pool.ctx.feedTs)
  }

  lemma EnterForgets<C(!new), A(!new)>(cfg: Config<C, A>, e: Event, s: State<C, A>, t: State<C, A>)
    requires Alike(cfg, s, t)
    ensures Enter(cfg, e, s) == Enter(cfg, e, t)
  {}

  ghost predicate Skippable<C(!new), A>(cfg: Config<C, A>, start: nat, end: nat, index: nat, s: State<C, A>)
    requires index < |cfg.events|
  {
    && Sound(cfg.sdk) && Yb.Sane(s.ledger) && Consistent(cfg)
    && !cfg.stops(s.tw)
    && start <= cfg.events[index].ts < Mandatory(cfg, start, end, s)
    && !MayAct(cfg, s.pool.core, s.ledger, index)
  }

  /** No schedule is due before the deadline. */
  lemma NothingDue<C(!new), A>(cfg: Config<C, A>, start: nat, end: nat, ts: nat, s: State<C, A>, price: real)
    requires start <= ts < Mandatory(cfg, start, end, s)
    ensures PreTrade(cfg, ts, price, s) == s
    ensures Donate(cfg, ts, s) == s
    ensures price > 0.0 ==> UserSwap(cfg, ts, price, s) == s
    ensures IdleTick(cfg, ts, s) == s
    ensures YbReport(cfg, ts, price, s) == s
    ensures SampleNet(cfg, ts, s) == s
  {
    hide Earlier, UserFill, DonationAmounts;
  }

  /** A losing comparison keeps what is in place. */
  lemma {:induction false} NoneBetter<C(!new), A>(cfg: Config<C, A>, pool: Pool<C>, price: real, best: Choice,
                                                  ctxs: seq<Context>)
    requires forall k :: 0 <= k < |ctxs| ==> !Sized(cfg, pool.(ctx := ctxs[k]), price, true).go
    ensures BestOf(cfg, pool, price, best, ctxs) == best
    decreases |ctxs|
  {
    hide Sized;
    if ctxs != [] {
      assert !Sized(cfg, pool.(ctx := ctxs[0]), price, true).go;
      forall k | 0 <= k < |ctxs| - 1 ensures !Sized(cfg, pool.(ctx := ctxs[1..][k]), price, true).go {
        assert ctxs[1..][k] == ctxs[k + 1];
      }
      NoneBetter(cfg, pool, price, best, ctxs[1..]);
    }
  }

  /** An offered report that may not act is not sized into a trade. */
  lemma OfferSizesNothing<C(!new), A>(cfg: Config<C, A>, pool: Pool<C>, ts: nat, price: real, r: RW.Report)
    requires Sound(cfg.sdk) && price > 0.0
    requires
      var keep, spot := Keep(cfg.sdk.feeFloor(pool.core)), cfg.sdk.spotPrice(pool.core);
      !ReportMayAct(cfg, pool.core, ts, price, SellsAbove(keep, Bid(cfg.venue, price), spot * SLACK),
                    SellsAbove(keep, spot, Ask(cfg.venue, price) * SLACK), r)
    requires pool.ctx == Refreshed(cfg, pool.core, ts, r.price, r.ts)
    ensures Sized(cfg, pool, price, true) == NO_TRADE
  {
    hide Direction, Bid, Ask;
    if Direction(cfg.sdk, pool, cfg.venue, price, true).Some? {
      DirectionClearsFloor(cfg.sdk, pool, cfg.venue, price, true);
      AskPositive(cfg.venue, price);
    }
  }

  /** With the feed cleared and nothing able to act, arbitrage sizes nothing and leaves the state alone. */
  lemma ReportedArbitrageQuiet<C(!new), A>(cfg: Config<C, A>, index: nat, e: Event, s: State<C, A>)
    requires Sound(cfg.sdk) && e.price > 0.0 && cfg.swapReports && SearchesReports(cfg)
    requires s.pool.ctx == Refreshed(cfg, s.pool.core, e.ts, 0.0, 0.0)
    requires
      var keep, spot := Keep(cfg.sdk.feeFloor(s.pool.core)), cfg.sdk.spotPrice(s.pool.core);
      !ReportedMayAct(cfg, s.pool.core, index, e.ts, e.price, SellsAbove(keep, Bid(cfg.venue, e.price), spot * SLACK),
                      SellsAbove(keep, spot, Ask(cfg.venue, e.price) * SLACK))
    ensures Arbitrage(cfg, index, e.ts, e.price, s) == (s, false)
  {
    hide Bid, Ask, SellsAbove, EntryOpen, ReportMayAct, Sized;
    var ctxs := Alternatives(cfg, index, e.ts, s.pool);
    assert Sized(cfg, s.pool, e.price, false) == NO_TRADE by { WithheldSizesNothing(cfg, e, s.pool); }
    forall k | 0 <= k < |ctxs| ensures !Sized(cfg, s.pool.(ctx := ctxs[k]), e.price, true).go {
      OfferSizesNothing(cfg, s.pool.(ctx := ctxs[k]), e.ts, e.price, OfferedAt(cfg, index, e.ts)[k]);
    }
    NoneBetter(cfg, s.pool, e.price, Choice(NO_TRADE, s.pool.ctx), ctxs);
    assert s.pool.(ctx := s.pool.ctx) == s.pool;
  }

  lemma WithheldSizesNothing<C(!new), A>(cfg: Config<C, A>, e: Event, pool: Pool<C>)
    requires WithholdingRejected(cfg, pool.core, e.ts, e.price) && e.price > 0.0
    requires pool.ctx == Refreshed(cfg, pool.core, e.ts, 0.0, 0.0)
    ensures Sized(cfg, pool, e.price, false) == NO_TRADE
  {}

  /** Arbitrage at a skipped event. */
  lemma SkippedArbitrageQuiet<C(!new), A>(cfg: Config<C, A>, index: nat, e: Event, gate: bool, s: State<C, A>)
    requires Sound(cfg.sdk) && e.price > 0.0 && Consistent(cfg)
    requires gate == MayTrade(cfg.sdk, s.pool.core, cfg.venue, e.price)
    requires !NativeMayAct(cfg, s.pool.core, index, e)
    requires cfg.swapReports ==> s.pool.ctx == Refreshed(cfg, s.pool.core, e.ts, 0.0, 0.0)
    ensures gate ==> Arbitrage(cfg, index, e.ts, e.price, Exposed(cfg, index, e, s)) == (s, false)
    ensures !gate && cfg.swapReports ==> Withdrawn(cfg, Exposed(cfg, index, e, s)).pool.core == s.pool.core
  {
    hide Bid, Ask, SellsAbove, Arbitrage, ReportedMayAct;
    if gate {
      assert cfg.swapReports && SearchesReports(cfg);
      ReportedArbitrageQuiet(cfg, index, e, s);
    }
  }

  /** Every skipped event is a no-op of the scalar body: only the clock and context move. */
  lemma SkipIsNoop<C(!new), A(!new)>(cfg: Config<C, A>, start: nat, end: nat, index: nat, s: State<C, A>)
    requires index < |cfg.events| && Skippable(cfg, start, end, index, s)
    ensures Alike(cfg, s, StepEvent(cfg, index, s).s) && !StepEvent(cfg, index, s).stop
  {
    hide Mandatory, NativeMayAct, Arbitrage, YbOnce, UserSwap, IdleTick, YbReport, SampleNet, Donate, PreTrade,
         Trading, Yb.TryFire;
    var e := cfg.events[index];
    var t := Enter(cfg, e, s);
    assert Mandatory(cfg, start, end, t) == Mandatory(cfg, start, end, s) by {
      DeadlineReadsCore(cfg, start, end, s, t);
    }
    NothingDue(cfg, start, end, e.ts, t, e.price);
    if e.price > 0.0 {
      SkippedTradingQuiet(cfg, start, end, index, e, t);
    }
  }

  lemma DeadlineReadsCore<C(!new), A(!new)>(cfg: Config<C, A>, start: nat, end: nat, s: State<C, A>, t: State<C, A>)
    requires t == s.(pool := Pool(s.pool.core, t.pool.clock, t.pool.ctx))
    ensures Mandatory(cfg, start, end, t) == Mandatory(cfg, start, end, s)
  {
    hide Earlier;
  }

  lemma SkippedTradingQuiet<C(!new), A(!new)>(cfg: Config<C, A>, start: nat, end: nat, index: nat, e: Event,
                                              t: State<C, A>)
    requires index < |cfg.events| && e == cfg.events[index] && e.price > 0.0
    requires Skippable(cfg, start, end, index, t)
    requires cfg.swapReports ==> t.pool.ctx == Refreshed(cfg, t.pool.core, e.ts, 0.0, 0.0)
    ensures Alike(cfg, t, Trading(cfg, index, e, MayTrade(cfg.sdk, t.pool.core, cfg.venue, e.price), t))
  {
    hide Mandatory, NativeMayAct, Arbitrage, UserSwap, IdleTick, YbReport, SampleNet, MayTrade, Yb.TryFire, Yb.MayTrade;
    var gate := MayTrade(cfg.sdk, t.pool.core, cfg.venue, e.price);
    SkippedArbitrageQuiet(cfg, index, e, gate, t);
    var exposed := Exposed(cfg, index, e, t);
    var arb := if gate then Arbitrage(cfg, index, e.ts, e.price, exposed) else (exposed, false);
    assert !arb.1;
    var w := Withdrawn(cfg, arb.0);
    assert Alike(cfg, t, w);
    if cfg.ybTrades {
      Yb2LGate.GateClosedRefuses(cfg.sdk, w.pool, w.ledger, e.price, e.ts, cfg.ybCosts);
    }
    assert YbOnce(cfg, e.ts, e.price, w) == (w, false);
    DeadlineReadsCore(cfg, start, end, t, w);
    NothingDue(cfg, start, end, e.ts, w, e.price);
  }

  /** Passing over one skippable event does not change where the run ends. */
  lemma SkipKeepsRun<C(!new), A(!new)>(cfg: Config<C, A>, start: nat, end: nat, index: nat, s: State<C, A>)
    requires index + 1 < |cfg.events| && Skippable(cfg, start, end, index, s)
    ensures RunFrom(cfg, index, s) == RunFrom(cfg, index + 1, s)
  {
    hide StepEvent, MayAct, Mandatory;
    SkipIsNoop(cfg, start, end, index, s);
    var t := StepEvent(cfg, index, s).s;
    assert StepEvent(cfg, index + 1, t) == StepEvent(cfg, index + 1, s) by {
      EnterForgets(cfg, cfg.events[index + 1], s, t);
      StepFromEntered(cfg, index + 1, s);
      StepFromEntered(cfg, index + 1, t);
    }
  }

  lemma StepFromEntered<C(!new), A>(cfg: Config<C, A>, index: nat, s: State<C, A>)
    requires Sound(cfg.sdk) && Yb.Sane(s.ledger) && index < |cfg.events|
    ensures StepEvent(cfg, index, s) == Body(cfg, index, Enter(cfg, cfg.events[index], s))
  {}
}
