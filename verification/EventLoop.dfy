/** The event loop as it runs: geometry, fee and no-trade-band caches, and a cursor that may skip. Whatever
    the caches hold and whichever cursor runs, the result is the reference meaning of the tape. */
module EventLoop {
  import opened Durations
  import opened PoolSdk
  import opened Wrappers
  import RW = ReportWindow
  import opened TradeEntry
  import opened Scalar
  import opened Cursor
  import Yb = Yb2L
  import Yb2LGate
  import Yb2LActor
  import Yb2LRoute

  /** The stored report bounds are those of the tape, which is short enough for them. */
  ghost predicate Indexed<C, A>(cfg: Config<C, A>) {
    |cfg.tape| < RW.WORD &&
    forall k :: 0 <= k < |cfg.stored| && k < |cfg.events| ==>
      cfg.stored[k] == RW.Published(cfg.tape, cfg.events[k].ts as real) % RW.WORD
  }

  /** In state `s`, event `index` is before the deadline and could not act. */
  ghost predicate Idle<C(!new), A(!new)>(cfg: Config<C, A>, s: State<C, A>, first: nat, index: nat)
    requires first < |cfg.events| && index < |cfg.events| && s.ledger.levRatio > 0.0 && s.ledger.rateMul > 0.0
  {
    && cfg.events[index].ts < Mandatory(cfg, cfg.events[first].ts, cfg.events[|cfg.events| - 1].ts, s)
    && !MayAct(cfg, s.pool.core, s.ledger, index)
  }

  class Loop<C(!new), A(!new)> {
    const cfg: Config<C, A>
    const window: RW.Window
    var s: State<C, A>

    // geometry of the current pool
    var geometryValid: bool
    var feeCacheable: bool
    var keepFloor: Pos
    var edgeSpot: Pos
    var edgeFloorScaledSpot: real
    // its fee, kept only under the native model
    var feeValid: bool
    var edgeFee: real
    // the YieldBasis no-trade band of the current pool and ledger
    var bandReady: bool
    var band: Yb.Band

    /** A valid geometry is the one of the current pool. */
    ghost predicate GeometryFresh()
      reads this
    {
      geometryValid ==>
        && feeCacheable == cfg.sdk.nativeFee(s.pool.core) && keepFloor == Keep(cfg.sdk.feeFloor(s.pool.core))
        && edgeSpot == cfg.sdk.spotPrice(s.pool.core) && edgeFloorScaledSpot == Kept(keepFloor, edgeSpot)
    }

    /** A ready band is the one of the current pool and ledger. */
    ghost predicate BandFresh()
      requires Yb.Sane(s.ledger)
      reads this`bandReady, this`band, this`s
    {
      bandReady ==> band == Yb.NoTradeBand(cfg.sdk, s.pool.core, s.ledger, band.from, band.to, cfg.ybCosts)
    }

    /** The report window is the one of the configuration. */
    ghost predicate WindowFits() {
      && window.Valid() && window.tape == cfg.tape && window.upper == cfg.stored && window.sel == cfg.selection
      && Indexed(cfg)
    }

    /** Every cached value marked valid agrees with recomputation from the current pool and ledger. */
    ghost predicate Coherent()
      reads this
      ensures Coherent() ==>
              Sound(cfg.sdk) && Yb.Sane(s.ledger) && Consistent(cfg) && RW.Sorted(cfg.tape) && WindowFits()
    {
      && Sound(cfg.sdk) && Yb.Sane(s.ledger) && Consistent(cfg)
      && RW.Sorted(cfg.tape) && WindowFits()
      && GeometryFresh()
      && (feeValid ==> geometryValid && (feeCacheable ==> edgeFee == cfg.sdk.fee(s.pool)))
      && BandFresh()
    }

    constructor (cfg: Config<C, A>, s: State<C, A>)
      requires Sound(cfg.sdk) && Yb.Sane(s.ledger) && Consistent(cfg) && RW.Sorted(cfg.tape) && Indexed(cfg)
      ensures Coherent() && this.cfg == cfg && this.s == s
    {
      this.cfg, this.s := cfg, s;
      window := new RW.Window(cfg.tape, cfg.stored, cfg.selection);
      geometryValid, feeValid, bandReady := false, false, false;
      feeCacheable, keepFloor, edgeSpot, edgeFloorScaledSpot, edgeFee := false, 1.0, 1.0, 0.0, 0.0;
      band := Yb.Band(false, 0, 0, 0.0, 0.0);
    }

    // -------------------------------------------------------------------------------------------
    // Caches

    method RefreshGeometry()
      requires Coherent()
      modifies this`geometryValid, this`feeCacheable, this`keepFloor, this`edgeSpot, this`edgeFloorScaledSpot
      ensures Coherent() && geometryValid
    {
      hide BandFresh, WindowFits, Yb.NoTradeBand, Yb.Sane, Keep, Kept, Sound, RW.Sorted, RW.Searches, Consistent;
      if geometryValid { return; }
      feeCacheable := cfg.sdk.nativeFee(s.pool.core);
      keepFloor := Keep(cfg.sdk.feeFloor(s.pool.core));
      edgeSpot := cfg.sdk.spotPrice(s.pool.core);
      edgeFloorScaledSpot := Kept(keepFloor, edgeSpot);
      geometryValid := true;
    }

    method RefreshEdgeFee()
      requires Coherent()
      modifies this
      ensures Coherent() && geometryValid && feeValid && s == old(s)
      ensures edgeFee == cfg.sdk.fee(s.pool)
      ensures bandReady == old(bandReady) && band == old(band)
    {
      hide BandFresh, WindowFits, Yb.NoTradeBand, Yb.Sane, Keep, Kept, RW.Sorted, Consistent;
      RefreshGeometry();
      if feeCacheable && feeValid { return; }
      edgeFee := cfg.sdk.fee(s.pool);
      feeValid := true;
    }

    /** The fee depends on a context that has changed. */
    method DropFee()
      requires Coherent()
      modifies this`feeValid
      ensures Coherent()
    {
      feeValid := false;
    }

    /** Every cached value and mark. */
    function Caches(): (bool, bool, Pos, Pos, real, bool, real, bool, Yb.Band)
      reads this
    {
      (geometryValid, feeCacheable, keepFloor, edgeSpot, edgeFloorScaledSpot, feeValid, edgeFee, bandReady, band)
    }

    method InvalidateEdgeInputs()
      modifies this`geometryValid, this`feeValid, this`bandReady
      ensures !geometryValid && !feeValid && !bandReady
    {
      geometryValid, feeValid, bandReady := false, false, false;
    }

    /** A pool or ledger change: the caches it may have made stale are dropped with it. */
    method Become(next: State<C, A>)
      requires Coherent() && Yb.Sane(next.ledger)
      modifies this
      ensures Coherent() && s == next
    {
      s := next;
      InvalidateEdgeInputs();
    }

    /** A fill: the band goes with it, the geometry and fee only where liquidity moved or a donation was made. */
    method Commit(next: State<C, A>, adds: nat, removes: nat, donated: bool)
      requires Coherent() && Yb.Sane(next.ledger) && (adds > 0 || removes > 0)
      modifies this
      ensures Coherent() && s == next && !geometryValid && !feeValid && !bandReady
    {
      s := next;
      bandReady := false;
      if adds > 0 || removes > 0 { InvalidateEdgeInputs(); }
      if !donated { return; }
      InvalidateEdgeInputs();
    }

    /** A change of schedules, tallies, metrics, clock or context: the caches stay. */
    method Note(next: State<C, A>)
      requires Coherent() && next.pool.core == s.pool.core && next.ledger == s.ledger
      modifies this`s
      ensures Coherent() && s == next
    {
      s := next;
    }

    method NativeMayTrade(price: real) returns (may: bool)
      requires Coherent()
      modifies this
      ensures Coherent() && s == old(s) && geometryValid
      ensures may == MayTrade(cfg.sdk, s.pool.core, cfg.venue, price)
    {
      RefreshGeometry();
      may := price > 0.0 &&
             (Kept(keepFloor, Bid(cfg.venue, price)) > edgeSpot || edgeFloorScaledSpot > Ask(cfg.venue, price));
    }

    // -------------------------------------------------------------------------------------------
    // Before trading

    method SamplePreTrade(ts: nat, price: real)
      requires Coherent()
      modifies this
      ensures Coherent() && s == PreTrade(cfg, ts, price, old(s))
    {
      if s.twClock.have && ts < s.twClock.last + HOUR { return; }
      RefreshEdgeFee();
      Note(s.(twClock := Clock(true, ts), tw := cfg.twSample(s.tw, ts, s.pool.core, price, edgeFee)));
    }

    method ApplyDonation(ts: nat)
      requires Coherent()
      modifies this
      ensures Coherent() && s == Donate(cfg, ts, old(s))
    {
      hide Coherent, WindowFits, Sound, RW.Sorted, Consistent, DonationAmounts, Rebalanced;
      if !cfg.donationOn || s.donationNext == 0 || ts < s.donationNext { return; }
      var due, before := s.donationNext, s.pool.core;
      var a := DonationAmounts(cfg, before);
      var given := cfg.sdk.addDonation(s.pool, a.0, a.1, 0.0);
      if given.Some? {
        var t := Rebalanced(cfg, before, given.value, s.tally);
        t := t.(donations := t.donations + 1, donated := t.donated + Worth(a.0, a.1, cfg.sdk.priceScale(before)));
        Become(s.(pool := s.pool.(core := given.value), tally := t,
                  log := s.log + [Donated(ts, due, a.0, a.1, cfg.sdk.priceScale(before))]));
      }
      Note(s.(donationNext := due + cfg.donationFreq));
    }

    // -------------------------------------------------------------------------------------------
    // Native arbitrage

    /** Sizes at the current context, with the cached geometry as hints. */
    method SizeTrade(price: real, tradeOnly: bool) returns (t: Trade)
      requires Coherent()
      modifies this
      ensures Coherent() && s == old(s) && geometryValid
      ensures t == Sized(cfg, s.pool, price, tradeOnly)
    {
      hide DirectionAt, Gas;
      feeValid := false;
      RefreshEdgeFee();
      var i := DirectionAt(cfg.sdk, s.pool, edgeSpot, edgeFee, cfg.venue, price, tradeOnly);
      if i.None? { return NO_TRADE; }
      t := cfg.size(s.pool, price, Gas(cfg, s.pool.ctx), i.value, tradeOnly);
    }

    /** The reports this event offers, from the tape's window. */
    method VisitOffered(index: nat, ts: nat) returns (offers: seq<RW.Report>)
      requires WindowFits() && index < |cfg.events| && ts == cfg.events[index].ts
      ensures offers == OfferedAt(cfg, index, ts)
    {
      hide RW.Sorted, RW.Published, RW.Offered;
      match cfg.selection.offset
      case Some(offset) =>
        offers := window.AtOffset(ts as real, offset, index);
        assert offers == RW.Offered(cfg.tape, cfg.selection, ts as real, cfg.draw(index));
      case None =>
        if cfg.selection.randomCount > 0 {
          offers := window.SampleLast(ts as real, cfg.draw(index), index);
        } else {
          offers := window.Each(ts as real, index);
          assert offers == RW.Offered(cfg.tape, cfg.selection, ts as real, cfg.draw(index));
        }
    }

    method EntryIsOpen(price: real) returns (open: bool)
      requires Coherent() && price > 0.0
      modifies this
      ensures Coherent() && s == old(s)
      ensures open == EntryOpen(cfg, s.pool, price)
    {
      hide EntryEdge;
      RefreshEdgeFee();
      match cfg.entryThreshold
      case None => open := true;
      case Some(threshold) => open := EntryEdge(edgeFee, edgeSpot, price) > threshold;
    }

    /** Compares the context in place with every alternative; the first largest profit wins. */
    method ChooseContext(index: nat, ts: nat, price: real) returns (best: Choice)
      requires Coherent() && index < |cfg.events| && ts == cfg.events[index].ts
      modifies this
      ensures Coherent() && s == old(s).(pool := old(s).pool.(ctx := s.pool.ctx))
      ensures best == Chosen(cfg, index, ts, price, old(s).pool)
    {
      hide Sized, OfferContexts, Coherent, Sound, RW.Sorted, Consistent, Yb.Sane, RW.Searches;
      var withheld := s.pool.ctx;
      var t := SizeTrade(price, false);
      best := Choice(t, withheld);
      ghost var pool0, first := s.pool, best;
      ghost var ctxs := Alternatives(cfg, index, ts, s.pool);
      assert pool0 == pool0.(ctx := withheld);
      if SearchesReports(cfg) && cfg.brings(index) {
        var offers := VisitOffered(index, ts);
        var k := 0;
        assert ctxs[0..] == ctxs;
        while k < |offers|
          invariant 0 <= k <= |offers| == |ctxs|
          invariant Coherent() && s == old(s).(pool := old(s).pool.(ctx := s.pool.ctx))
          invariant BestOf(cfg, pool0, price, first, ctxs) == BestOf(cfg, pool0, price, best, ctxs[k..])
        {
          assert ctxs[k..][0] == ctxs[k] && ctxs[k..][1..] == ctxs[k + 1..];
          Note(s.(pool := s.pool.(ctx := Refreshed(cfg, s.pool.core, ts, offers[k].price, offers[k].ts))));
          best := ConsiderContext(price, best);
          k := k + 1;
        }
        assert ctxs[k..] == [];
      } else if cfg.cachedReports && withheld.feed > 0.0 {
        Note(s.(pool := s.pool.(ctx := Cleared(s.pool.ctx))));
        assert ctxs == [s.pool.ctx];
        best := ConsiderContext(price, best);
        assert ctxs[1..] == [] && BestOf(cfg, pool0, price, best, ctxs[1..]) == best;
      }
    }

    method ConsiderContext(price: real, best: Choice) returns (better: Choice)
      requires Coherent()
      modifies this
      ensures Coherent() && s == old(s)
      ensures forall p: Pool<C> :: p.(ctx := s.pool.ctx) == s.pool ==>
              better == Consider(cfg, p, price, best, s.pool.ctx)
    {
      hide Sized;
      var t := SizeTrade(price, true);
      better := if t.go && (!best.trade.go || t.profit > best.trade.profit) then Choice(t, s.pool.ctx) else best;
    }

    method ExecuteArb(index: nat, ts: nat, price: real) returns (did: bool)
      requires Coherent() && index < |cfg.events| && ts == cfg.events[index].ts
      modifies this
      ensures Coherent() && (s, did) == Arbitrage(cfg, index, ts, price, old(s))
    {
      hide Coherent, WindowFits, Sound, RW.Sorted, Consistent, MayTrade, EntryOpen, Chosen, CommitSwap;
      var may := NativeMayTrade(price);
      if !may { return false; }
      if !(price > 0.0) {
        assert !EntryOpen(cfg, s.pool, price) by { ClosedWithoutPrice(cfg, s.pool, price); }
        return false;
      }
      var open := EntryIsOpen(price);
      if !open { return false; }
      var best := ChooseContext(index, ts, price);
      Note(s.(pool := s.pool.(ctx := best.ctx)));
      DropFee();
      if !best.trade.go && best.trade.profit < 0.0 {
        Note(s.(tally := s.tally.(guardedLoss := s.tally.guardedLoss - best.trade.profit)));
      }
      if !best.trade.go { return false; }
      did := ApplySwap(ts, price, best);
    }

    static lemma ClosedWithoutPrice(cfg: Config<C, A>, pool: Pool<C>, price: real)
      requires !(price > 0.0)
      ensures !EntryOpen(cfg, pool, price)
    {}

    method ApplySwap(ts: nat, price: real, best: Choice) returns (did: bool)
      requires Coherent()
      modifies this
      ensures Coherent() && (s, did) == CommitSwap(cfg, ts, price, best, old(s))
    {
      hide Rebalanced, SwapTally;
      InvalidateEdgeInputs();
      var t := best.trade;
      var done := cfg.sdk.previewedSwap(s.pool, t.i, t.dx, t.dy, t.fee);
      if done.None? { return false; }
      var tally := Rebalanced(cfg, s.pool.core, done.value.0, s.tally);
      tally := CountSwap(tally, t, done.value.1, price, best.ctx.feed > 0.0);
      Become(s.(pool := s.pool.(core := done.value.0), tally := tally,
                log := s.log + [Swapped(ts, t.i, t.dx, t.dy, done.value.1, t.profit, price, t.notional)]));
      return true;
    }

    method CountSwap(before: Tally, t: Trade, fee: real, price: real, offering: bool) returns (tally: Tally)
      ensures tally == SwapTally(before, t, fee, price, cfg.swapReports, offering)
    {
      tally := before.(trades := before.trades + 1);
      if cfg.swapReports {
        if offering {
          tally := tally.(offered := tally.offered + 1);
        } else {
          tally := tally.(withheld := tally.withheld + 1);
        }
      }
      tally := tally.(notional := tally.notional + t.notional);
      tally := tally.(lpFee := tally.lpFee + FeeWorth(t.i, fee, price));
      tally := tally.(pnl := tally.pnl + t.profit);
    }

    // -------------------------------------------------------------------------------------------
    // YieldBasis

    /** Exactly the gate: a price inside the cached band is one the gate would close on. */
    method YbMayTrade(price: real, ts: nat) returns (may: bool)
      requires Coherent()
      modifies this`band, this`bandReady
      ensures Coherent()
      ensures may == Yb.MayTrade(cfg.sdk, s.pool.core, s.ledger, price, ts, cfg.ybCosts)
    {
      hide WindowFits, Yb.MayTrade, Yb.NoTradeBand, Sound, Keep, Kept, RW.Sorted;
      if !bandReady || ts < band.from || ts > band.to {
        band := Yb.NoTradeBand(cfg.sdk, s.pool.core, s.ledger, ts, ts + HOUR, cfg.ybCosts);
        bandReady := true;
        BandKeepsTimes(ts, ts + HOUR);
      }
      if band.valid && band.from <= ts <= band.to && band.lo <= price <= band.hi {
        Yb2LGate.BandClosesGate(cfg.sdk, s.pool.core, s.ledger, band.from, band.to, cfg.ybCosts, price, ts);
        return false;
      }
      may := Yb.MayTrade(cfg.sdk, s.pool.core, s.ledger, price, ts, cfg.ybCosts);
    }

    lemma BandKeepsTimes(from: nat, to: nat)
      requires Yb.Sane(s.ledger)
      ensures Yb.NoTradeBand(cfg.sdk, s.pool.core, s.ledger, from, to, cfg.ybCosts).from == from
      ensures Yb.NoTradeBand(cfg.sdk, s.pool.core, s.ledger, from, to, cfg.ybCosts).to == to
    {
      hide Yb.MarginalQuote, Yb.PriceAtFair;
    }

    method RunYb(ts: nat, price: real, fast: bool) returns (did: bool)
      requires Coherent()
      modifies this
      ensures Coherent() && (s, did) == YbOnce(cfg, ts, price, old(s))
    {
      hide Yb.TryFire, Yb.MayTrade, Yb.NoTradeBand, FillTally;
      if !cfg.ybTrades { return false; }
      if fast {
        var may := YbMayTrade(price, ts);
        if !may {
          Yb2LGate.GateClosedRefuses(cfg.sdk, s.pool, s.ledger, price, ts, cfg.ybCosts);
          return false;
        }
      }
      did := FireYb(ts, price);
    }

    method FireYb(ts: nat, price: real) returns (did: bool)
      requires Coherent() && cfg.ybTrades
      modifies this
      ensures Coherent() && (s, did) == YbOnce(cfg, ts, price, old(s))
      ensures did ==> !geometryValid && !feeValid && !bandReady
      ensures !did ==> s == old(s) && Caches() == old(Caches())
    {
      hide Coherent, WindowFits, Sound, RW.Sorted, Consistent, Yb.TryFire, Yb.Sane;
      var actor := new Yb2LActor.Actor(s.ledger);
      var cell := new PoolCell(s.pool);
      var r := actor.TryFire(cfg.sdk, cell, price, ts, cfg.ybCosts);
      if !r.fired { return false; }
      var t := s.tally.(fills := s.tally.fills + 1, fillProfit := s.tally.fillProfit + r.profit);
      t := t.(rebalances := t.rebalances + r.addMoves);
      if r.donated {
        t := t.(donations := t.donations + 1, donated := t.donated + r.donation);
        if r.donationMoved { t := t.(rebalances := t.rebalances + 1); }
      }
      ghost var spec := YbOnce(cfg, ts, price, s).0;
      assert Yb.Sane(spec.ledger);
      Yb2LRoute.FiredHasLegs(cfg.sdk, s.pool, s.ledger, price, ts, cfg.ybCosts);
      Commit(s.(pool := cell.p, ledger := actor.state, tally := t,
                log := s.log + [Filled(ts, r.direction, r.input, r.output, r.profit,
                                       if r.donated then r.donation else 0.0)]),
             r.adds, r.removes, r.donated);
      return true;
    }

    // -------------------------------------------------------------------------------------------
    // User swaps, idle ticks and samples

    method ApplyUserSwap(ts: nat, price: Pos)
      requires Coherent()
      modifies this
      ensures Coherent() && s == UserSwap(cfg, ts, price, old(s))
    {
      hide Coherent, WindowFits, Sound, RW.Sorted, Consistent, UserSize, UserAccepts, Rebalanced;
      if !UserOn(cfg) || s.userNext == 0 || ts < s.userNext { return; }
      Note(s.(userNext := s.userNext + cfg.userFreq));
      var i := s.userDir % 2;
      var reserve := if i == 0 then cfg.sdk.balance0(s.pool.core) else cfg.sdk.balance1(s.pool.core);
      if !(reserve > 0.0) { return; }
      var dx := UserSize(cfg, s.pool.core, i, price);
      if !(dx > 0.0) { return; }
      var dy := cfg.sdk.simulateSwap(s.pool, i, dx);
      if !(dy > 0.0) || !UserAccepts(cfg.userThresh, i, dx, dy, price) { return; }
      var done := cfg.sdk.swap(s.pool, i, dx);
      if done.None? { return; }
      var t := Rebalanced(cfg, s.pool.core, done.value.0, s.tally);
      Become(s.(pool := s.pool.(core := done.value.0),
                userDir := if s.userDir % 2 == 0 then s.userDir + 1 else s.userDir - 1, tally := t,
                log := s.log + [UserSwapped(ts, i, dx, done.value.1, done.value.2)]));
    }

    /** A tick that throws is put back: pool, tally and caches are as before. */
    method ApplyIdleTick(ts: nat)
      requires Coherent()
      modifies this
      ensures Coherent() && s == IdleTick(cfg, ts, old(s))
      ensures s.log == old(s).log ==> s == old(s) && Caches() == old(Caches())
      ensures s.log != old(s).log ==> !geometryValid && !feeValid && !bandReady
    {
      if !TickDue(cfg, s.pool.core, ts) { return; }
      hide WindowFits, Sound, Yb.Sane, Yb.NoTradeBand, Consistent, RW.Sorted, Keep, Kept, Rebalanced, TickDue;
      var snapshot := s.pool;
      var ticked := cfg.sdk.tick(s.pool);
      s := s.(pool := s.pool.(core := ticked.0));
      if !ticked.1 {
        s := s.(pool := snapshot);
        return;
      }
      s := s.(tally := Rebalanced(cfg, snapshot.core, s.pool.core, s.tally), log := s.log + [Ticked(ts)]);
      InvalidateEdgeInputs();
    }

    method SampleYbReport(ts: nat, price: real)
      requires Coherent()
      modifies this
      ensures Coherent() && s == YbReport(cfg, ts, price, old(s))
    {
      if !cfg.ybOn || !Due(s.ybGm, ts, HOUR) { return; }
      Note(s.(acc := cfg.ybMark(s.acc, s.pool.core, s.ledger, ts, price)));
      var growth := cfg.ybGrowth(s.acc);
      if growth.None? { return; }
      Note(s.(acc := cfg.ybHour(s.acc, ts, s.pool.core, growth.value)));
      if growth.value > 0.0 { Note(s.(ybGm := Clock(true, ts))); }
    }

    method SampleNetApy(ts: nat)
      requires Coherent()
      modifies this
      ensures Coherent() && s == SampleNet(cfg, ts, old(s))
    {
      var legacy, robust := Due(s.gm, ts, HOUR), Due(s.robust, ts, DAY);
      if !legacy && !robust { return; }
      var growth := cfg.netGrowth(s.pool.core, ts);
      if growth.None? || !(growth.value > 0.0) { return; }
      if legacy { Note(s.(acc := cfg.gmAdd(s.acc, ts, growth.value), gm := Clock(true, ts))); }
      if robust { Note(s.(acc := cfg.robustAdd(s.acc, ts, growth.value), robust := Clock(true, ts))); }
    }

    // -------------------------------------------------------------------------------------------
    // One event

    method EnterEvent(e: Event)
      requires Coherent()
      modifies this
      ensures Coherent() && s == Enter(cfg, e, old(s))
    {
      Note(s.(pool := s.pool.(clock := e.ts)));
      var core := s.pool.core;
      if cfg.swapReports {
        Note(s.(pool := s.pool.(ctx := Cleared(s.pool.ctx))));
        Note(s.(pool := s.pool.(ctx := Refreshed(cfg, core, e.ts, s.pool.ctx.feed, s.pool.ctx.feedTs))));
      } else if cfg.havePriceFeed {
        Note(s.(pool := s.pool.(ctx := Refreshed(cfg, core, e.ts, e.feed, e.feedTs))));
      } else {
        Note(s.(pool := s.pool.(ctx := Refreshed(cfg, core, e.ts, s.pool.ctx.feed, s.pool.ctx.feedTs))));
      }
    }

    method TradeEvent(index: nat, e: Event, gate: bool, fast: bool)
      requires Coherent() && index < |cfg.events| && e == cfg.events[index] && e.price > 0.0
      modifies this
      ensures Coherent() && s == Trading(cfg, index, e, gate, old(s))
    {
      hide Coherent, WindowFits, Sound, RW.Sorted, Consistent, Arbitrage, YbOnce, UserSwap, IdleTick, YbReport,
           SampleNet, TickDue;
      ExposeReport(index, e);
      var did := false;
      if gate { did := ExecuteArb(index, e.ts, e.price); }
      WithdrawReport();
      var fired := RunYb(e.ts, e.price, fast);
      did := did || fired;
      ApplyUserSwap(e.ts, e.price);
      if !did { ApplyIdleTick(e.ts); }
      SampleYbReport(e.ts, e.price);
      SampleNetApy(e.ts);
    }

    method ExposeReport(index: nat, e: Event)
      requires Coherent()
      modifies this
      ensures Coherent() && s == Exposed(cfg, index, e, old(s))
    {
      hide Coherent, WindowFits, Sound, RW.Sorted, Consistent;
      if cfg.swapReports && cfg.brings(index) && !SearchesReports(cfg) {
        var feed := if cfg.havePriceFeed then e.feed else e.price;
        var feedTs := if cfg.havePriceFeed then e.feedTs else e.ts as real;
        Note(s.(pool := s.pool.(ctx := Refreshed(cfg, s.pool.core, e.ts, feed, feedTs))));
      }
      if cfg.swapReports { DropFee(); }
    }

    method WithdrawReport()
      requires Coherent()
      modifies this
      ensures Coherent() && s == Withdrawn(cfg, old(s))
    {
      hide Coherent, WindowFits, Sound, RW.Sorted, Consistent;
      if cfg.swapReports {
        Note(s.(pool := s.pool.(ctx := Cleared(s.pool.ctx))));
        DropFee();
      }
    }

    method HandleEvent(index: nat, fast: bool) returns (stop: bool)
      requires Coherent() && index < |cfg.events|
      modifies this
      ensures Coherent() && Outcome(s, stop) == StepEvent(cfg, index, old(s))
    {
      hide Coherent, WindowFits, Sound, RW.Sorted, Consistent, Trading, SampleNet, Donate, PreTrade, MayTrade, Enter;
      var e := cfg.events[index];
      EnterEvent(e);
      var gate := NativeMayTrade(e.price);
      SamplePreTrade(e.ts, e.price);
      if cfg.stops(s.tw) { return true; }
      ApplyDonation(e.ts);
      if !(e.price > 0.0) {
        SampleNetApy(e.ts);
        return false;
      }
      TradeEvent(index, e, gate, fast);
      return false;
    }

    // -------------------------------------------------------------------------------------------
    // The cursor

    method ReportedSizingMayAct(index: nat, ts: nat, price: real, sells0: bool, sells1: bool) returns (may: bool)
      requires Coherent() && geometryValid && index < |cfg.events| && ts == cfg.events[index].ts
      ensures may == ReportedMayAct(cfg, s.pool.core, index, ts, price, sells0, sells1)
    {
      hide Keep, SellsAbove, Bid, Ask;
      var context := Refreshed(cfg, s.pool.core, ts, 0.0, 0.0);
      var floor := cfg.sdk.feeFloor(s.pool.core);
      var f01, f10 := cfg.sdk.contextFloor(s.pool.core, context, 0), cfg.sdk.contextFloor(s.pool.core, context, 1);
      if !(f01 > floor || f10 > floor) || SellsAbove(Keep(f01), Bid(cfg.venue, price), edgeSpot) ||
         (price > 0.0 && SellsAbove(Keep(f10), edgeSpot, Ask(cfg.venue, price)))
      {
        return true;
      }
      if !cfg.brings(index) { return false; }
      var offers := VisitOffered(index, ts);
      may := false;
      var k := 0;
      while k < |offers|
        invariant 0 <= k <= |offers|
        invariant may <==>
                  exists m :: 0 <= m < k && ReportMayAct(cfg, s.pool.core, ts, price, sells0, sells1, offers[m])
      {
        if !may { may := ReportMayAct(cfg, s.pool.core, ts, price, sells0, sells1, offers[k]); }
        k := k + 1;
      }
    }

    method IndexedMayAct(index: nat) returns (may: bool)
      requires Coherent() && index < |cfg.events|
      modifies this
      ensures Coherent() && s == old(s)
      ensures may == MayAct(cfg, s.pool.core, s.ledger, index)
    {
      hide WindowFits, ReportedMayAct, Yb.MayTrade, Yb.NoTradeBand, Yb.Sane, Bid, Ask, Kept, Sound, RW.Sorted, Keep;
      var e := cfg.events[index];
      RefreshGeometry();
      var bid, ask := Bid(cfg.venue, e.price), Ask(cfg.venue, e.price);
      if Kept(keepFloor, bid) > edgeSpot || (e.price > 0.0 && edgeFloorScaledSpot > ask) {
        if !(cfg.swapReports && SearchesReports(cfg)) { return true; }
        var reported := ReportedSizingMayAct(index, e.ts, e.price, Kept(keepFloor, bid) > edgeSpot * SLACK,
                                             e.price > 0.0 && edgeFloorScaledSpot > ask * SLACK);
        if reported { return true; }
      }
      if !cfg.ybTrades { return false; }
      may := YbMayTrade(e.price, e.ts);
    }

    method NextMandatory(start: nat, end: nat) returns (next: nat)
      requires Coherent()
      ensures next == Mandatory(cfg, start, end, s)
    {
      hide Earlier, Coherent;
      next := end;
      if !s.twClock.have { return start; }
      next := Earlier(next, s.twClock.last + HOUR);
      if !s.robust.have { return start; }
      next := Earlier(next, s.robust.last + DAY);
      if !s.gm.have { return start; }
      next := Earlier(next, s.gm.last + HOUR);
      if cfg.ybOn {
        if !s.ybGm.have { return start; }
        next := Earlier(next, s.ybGm.last + HOUR);
      }
      if cfg.donationOn && s.donationNext != 0 { next := Earlier(next, s.donationNext); }
      if UserOn(cfg) && s.userNext != 0 { next := Earlier(next, s.userNext); }
      if cfg.idleFreq > 0 { next := Earlier(next, cfg.sdk.touchedAt(s.pool.core) + cfg.idleFreq); }
    }

    /** Events are in time order from the first one on. */
    ghost predicate InOrder(first: nat)
      requires first < |cfg.events|
    {
      forall k :: first <= k < |cfg.events| ==> cfg.events[first].ts <= cfg.events[k].ts
    }

    /** The next event to handle: under the fast cursor, the first that is mandatory or may act. */
    method NextEventIndex(fast: bool, first: nat, from: nat) returns (index: nat)
      requires Coherent() && first < from <= |cfg.events| && InOrder(first) && !cfg.stops(s.tw)
      modifies this
      ensures Coherent() && s == old(s) && from <= index <= |cfg.events|
      ensures RunFrom(cfg, index, s) == RunFrom(cfg, from, s)
      ensures !fast ==> index == from
      ensures fast ==> forall k :: from <= k < index ==> Idle(cfg, s, first, k)
      ensures fast && index < |cfg.events| ==> !Idle(cfg, s, first, index)
    {
      hide Mandatory, MayAct, RunFrom, Sound, RW.Sorted, WindowFits;
      if !fast { return from; }
      var start, end := cfg.events[first].ts, cfg.events[|cfg.events| - 1].ts;
      var mandatory := NextMandatory(start, end);
      DeadlineBounds(cfg, start, end, s);
      index := from;
      while index < |cfg.events|
        invariant from <= index <= |cfg.events|
        invariant Coherent() && s == old(s)
        invariant RunFrom(cfg, index, s) == RunFrom(cfg, from, s)
        invariant forall k :: from <= k < index ==> Idle(cfg, s, first, k)
      {
        if cfg.events[index].ts >= mandatory { return; }
        var may := IndexedMayAct(index);
        if may { return; }
        SkipKeepsRun(cfg, start, end, index, s);
        index := index + 1;
      }
    }

    static lemma DeadlineBounds(cfg: Config<C, A>, start: nat, end: nat, s: State<C, A>)
      ensures Mandatory(cfg, start, end, s) <= end || Mandatory(cfg, start, end, s) == start
    {}

    /** The run. Its end state, log, tallies, metrics and stopping point are those of the reference meaning,
        whichever cursor is used. */
    method Run(fast: bool, first: nat) returns (stoppedAt: Option<nat>)
      requires Coherent() && first < |cfg.events| && InOrder(first)
      modifies this
      ensures Coherent() && End(s, stoppedAt) == RunFrom(cfg, first, old(s))
    {
      hide RunFrom, StepEvent, InOrder, Sound, RW.Sorted, Consistent, Yb.Sane, Coherent;
      var index := first;
      while index < |cfg.events|
        invariant first <= index <= |cfg.events|
        invariant Coherent()
        invariant RunFrom(cfg, index, s) == RunFrom(cfg, first, old(s))
      {
        RunUnfolds(cfg, index, s);
        var stop := HandleEvent(index, fast);
        if stop { return Some(index); }
        index := NextEventIndex(fast, first, index + 1);
      }
      RunUnfolds(cfg, index, s);
      return None;
    }
  }

  lemma RunUnfolds<C(!new), A(!new)>(cfg: Config<C, A>, index: nat, s: State<C, A>)
    requires Sound(cfg.sdk) && Yb.Sane(s.ledger) && index <= |cfg.events|
    ensures index == |cfg.events| ==> RunFrom(cfg, index, s) == End(s, None)
    ensures index < |cfg.events| ==>
              var o := StepEvent(cfg, index, s);
              RunFrom(cfg, index, s) == if o.stop then End(o.s, Some(index)) else RunFrom(cfg, index + 1, o.s)
  {
    hide StepEvent;
  }

  /** The fast cursor and the scalar cursor give the same trades, metrics and final state. */
  method CompareCursors<C(!new), A(!new)>(cfg: Config<C, A>, first: nat, s: State<C, A>)
      returns (scalar: End<C, A>, fast: End<C, A>)
    requires Sound(cfg.sdk) && Yb.Sane(s.ledger) && Consistent(cfg) && RW.Sorted(cfg.tape) && Indexed(cfg)
    requires first < |cfg.events|
    requires forall k :: first <= k < |cfg.events| ==> cfg.events[first].ts <= cfg.events[k].ts
    ensures scalar == fast == RunFrom(cfg, first, s)
  {
    hide RunFrom;
    var a := new Loop(cfg, s);
    var b := new Loop(cfg, s);
    var stopA := a.Run(false, first);
    var stopB := b.Run(true, first);
    scalar, fast := End(a.s, stopA), End(b.s, stopB);
  }
}
