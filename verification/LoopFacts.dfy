/** What a run's choices, actions and counters amount to. */
module LoopFacts {
  import opened PoolSdk
  import opened TradeEntry
  import opened Scalar
  import Yb = Yb2L
  import Yb2LRoute

  // ---------------------------------------------------------------------------------------------
  // Choosing a report

  /** The choices compared at an event: the context in place, sized fully, then each alternative. */
  function Options<C, A>(cfg: Config<C, A>, pool: Pool<C>, price: real, first: Choice,
                         ctxs: seq<Context>): (os: seq<Choice>)
    ensures |os| == 1 + |ctxs| && os[0] == first
    ensures forall k :: 0 <= k < |ctxs| ==> os[k + 1] == Choice(Sized(cfg, pool.(ctx := ctxs[k]), price, true), ctxs[k])
  {
    [first] + seq(|ctxs|, k requires 0 <= k < |ctxs| => Choice(Sized(cfg, pool.(ctx := ctxs[k]), price, true), ctxs[k]))
  }

  /** Choice `k` wins: the first of the most profitable trades, or the first choice when none trades. */
  predicate FirstBest(os: seq<Choice>, k: nat) {
    k < |os| &&
    if os[k].trade.go then
      (forall j :: 0 <= j < |os| && os[j].trade.go ==> os[j].trade.profit <= os[k].trade.profit) &&
      (forall j :: 0 <= j < k && os[j].trade.go ==> os[j].trade.profit < os[k].trade.profit)
    else
      k == 0 && forall j :: 0 <= j < |os| ==> !os[j].trade.go
  }

  lemma {:induction false} BestOfIsFirstBest<C, A>(cfg: Config<C, A>, pool: Pool<C>, price: real, first: Choice,
                                                   ctxs: seq<Context>)
      returns (k: nat)
    ensures FirstBest(Options(cfg, pool, price, first, ctxs), k)
    ensures BestOf(cfg, pool, price, first, ctxs) == Options(cfg, pool, price, first, ctxs)[k]
    decreases |ctxs|
  {
    hide Sized;
    if ctxs == [] {
      k := 0;
    } else {
      var os := Options(cfg, pool, price, first, ctxs);
      var best := Consider(cfg, pool, price, first, ctxs[0]);
      var rest := Options(cfg, pool, price, best, ctxs[1..]);
      var r := BestOfIsFirstBest(cfg, pool, price, best, ctxs[1..]);
      assert best == os[0] || best == os[1];
      forall j | 1 <= j < |rest| ensures rest[j] == os[j + 1] {
        assert ctxs[1..][j - 1] == ctxs[j];
      }
      k := if r > 0 then r + 1 else if best == os[0] then 0 else 1;
      KeepsFirst(os, rest, r, k);
    }
  }

  /** Folding the first two choices into the better one and then choosing is choosing among all. */
  lemma KeepsFirst(os: seq<Choice>, rest: seq<Choice>, r: nat, k: nat)
    requires |os| == |rest| + 1 >= 2 && FirstBest(rest, r)
    requires forall j :: 1 <= j < |rest| ==> rest[j] == os[j + 1]
    requires rest[0] == if os[1].trade.go && (!os[0].trade.go || os[1].trade.profit > os[0].trade.profit)
                        then os[1] else os[0]
    requires k == if r > 0 then r + 1 else if rest[0] == os[0] then 0 else 1
    ensures FirstBest(os, k) && os[k] == rest[r]
  {
    forall j | 0 <= j < |os| && os[j].trade.go ensures rest[r].trade.go && os[j].trade.profit <= rest[r].trade.profit {
      if j <= 1 {
        assert rest[0].trade.go && os[j].trade.profit <= rest[0].trade.profit;
      } else {
        assert rest[j - 1] == os[j];
      }
    }
    if rest[r].trade.go {
      forall j | 0 <= j < k && os[j].trade.go ensures os[j].trade.profit < os[k].trade.profit {
        if j > 1 { assert rest[j - 1] == os[j]; }
      }
    }
  }

  /** Arbitrage acts on the first of the most profitable choices: the context in place, or one of exactly the
      contexts its reports offer. */
  lemma ChosenIsFirstBest<C, A>(cfg: Config<C, A>, index: nat, ts: nat, price: real, pool: Pool<C>) returns (k: nat)
    ensures var os := Options(cfg, pool, price, Choice(Sized(cfg, pool, price, false), pool.ctx),
                              Alternatives(cfg, index, ts, pool));
            FirstBest(os, k) && Chosen(cfg, index, ts, price, pool) == os[k]
  {
    k := BestOfIsFirstBest(cfg, pool, price, Choice(Sized(cfg, pool, price, false), pool.ctx),
                           Alternatives(cfg, index, ts, pool));
  }

  // ---------------------------------------------------------------------------------------------
  // Actions of one event

  function Rank(a: Action): nat {
    if a.Donated? then 0 else if a.Swapped? then 1 else if a.Filled? then 2 else if a.UserSwapped? then 3 else 4
  }

  /** What counters a list of actions stands for. */
  datatype Sums = Sums(
    trades: nat, notional: real, lpFee: real, pnl: real, donations: nat, donated: real, fills: nat, fillProfit: real,
    userSwaps: nat)

  const NOTHING := Sums(0, 0.0, 0.0, 0.0, 0, 0.0, 0, 0.0, 0)

  function Effect(a: Action): Sums {
    match a
    case Donated(_, _, amount0, amount1, scale) => NOTHING.(donations := 1, donated := Worth(amount0, amount1, scale))
    case Swapped(_, i, _, _, fee, profit, price, notional) =>
      NOTHING.(trades := 1, notional := notional, lpFee := FeeWorth(i, fee, price), pnl := profit)
    case Filled(_, _, _, _, profit, donation) =>
      NOTHING.(fills := 1, fillProfit := profit, donations := if donation > 0.0 then 1 else 0, donated := donation)
    case UserSwapped(_, _, _, _, _) => NOTHING.(userSwaps := 1)
    case Ticked(_) => NOTHING
  }

  function Plus(a: Sums, b: Sums): Sums {
    Sums(a.trades + b.trades, a.notional + b.notional, a.lpFee + b.lpFee, a.pnl + b.pnl, a.donations + b.donations,
         a.donated + b.donated, a.fills + b.fills, a.fillProfit + b.fillProfit, a.userSwaps + b.userSwaps)
  }

  function Total(log: seq<Action>): Sums {
    if log == [] then NOTHING else Plus(Total(log[..|log| - 1]), Effect(log[|log| - 1]))
  }

  lemma TotalPush(log: seq<Action>, a: Action)
    ensures Total(log + [a]) == Plus(Total(log), Effect(a))
  {
    assert (log + [a])[..|log|] == log;
  }

  /** The counters of a state, as sums. */
  function Counters(t: Tally, userSwaps: nat): Sums {
    Sums(t.trades, t.notional, t.lpFee, t.pnl, t.donations, t.donated, t.fills, t.fillProfit, userSwaps)
  }

  /** The counters say what the log says, and every trade of a reporting policy offered or withheld a report;
      `dir` is the side the first user swap takes. */
  predicate Books<C, A>(cfg: Config<C, A>, s: State<C, A>, dir: nat) {
    var total := Total(s.log);
    && Counters(s.tally, total.userSwaps) == total
    && s.tally.offered + s.tally.withheld == (if cfg.swapReports then s.tally.trades else 0)
    && s.userDir % 2 == (dir + total.userSwaps) % 2
  }

  /** One stage of an event appends at most one action, of its own kind, and keeps the books. */
  predicate Appends<C, A>(s: State<C, A>, r: State<C, A>, rank: nat, ts: nat) {
    || r.log == s.log
    || (|r.log| == |s.log| + 1 && r.log[..|s.log|] == s.log && Rank(r.log[|s.log|]) == rank && r.log[|s.log|].ts == ts)
  }

  lemma AppendsOne<C, A>(s: State<C, A>, r: State<C, A>, a: Action)
    requires r.log == s.log + [a]
    ensures Appends(s, r, Rank(a), a.ts) && r.log != s.log && Total(r.log) == Plus(Total(s.log), Effect(a))
  {
    TotalPush(s.log, a);
  }

  lemma DonateStage<C, A>(cfg: Config<C, A>, ts: nat, s: State<C, A>, dir: nat)
    requires Books(cfg, s, dir)
    ensures Appends(s, Donate(cfg, ts, s), 0, ts) && Books(cfg, Donate(cfg, ts, s), dir)
  {
    hide DonationAmounts, Total, Worth, Appends;
    var r := Donate(cfg, ts, s);
    if r.log != s.log {
      var a := DonationAmounts(cfg, s.pool.core);
      AppendsOne(s, r, Donated(ts, s.donationNext, a.0, a.1, cfg.sdk.priceScale(s.pool.core)));
    } else {
      SameLog(s, s, r, 0, ts);
    }
  }

  lemma CommitStage<C, A>(cfg: Config<C, A>, ts: nat, price: real, best: Choice, s: State<C, A>, dir: nat)
    requires Books(cfg, s, dir)
    ensures var r := CommitSwap(cfg, ts, price, best, s);
            Appends(s, r.0, 1, ts) && Books(cfg, r.0, dir) && (r.1 <==> r.0.log != s.log)
  {
    hide Total, FeeWorth, Appends;
    var r := CommitSwap(cfg, ts, price, best, s);
    var t := best.trade;
    if r.1 {
      var fee := cfg.sdk.previewedSwap(s.pool, t.i, t.dx, t.dy, t.fee).value.1;
      AppendsOne(s, r.0, Swapped(ts, t.i, t.dx, t.dy, fee, t.profit, price, t.notional));
    } else {
      SameLog(s, s, r.0, 1, ts);
    }
  }

  lemma ArbitrageStage<C, A>(cfg: Config<C, A>, index: nat, ts: nat, price: real, s: State<C, A>, dir: nat)
    requires Books(cfg, s, dir)
    ensures var r := Arbitrage(cfg, index, ts, price, s);
            Appends(s, r.0, 1, ts) && Books(cfg, r.0, dir) && (r.1 <==> r.0.log != s.log)
  {
    hide Chosen, EntryOpen, MayTrade, CommitSwap, Appends, Total;
    if MayTrade(cfg.sdk, s.pool.core, cfg.venue, price) && EntryOpen(cfg, s.pool, price) {
      var best := Chosen(cfg, index, ts, price, s.pool);
      var placed := s.(pool := s.pool.(ctx := best.ctx));
      CommitStage(cfg, ts, price, best, placed, dir);
      SameLog(s, placed, Arbitrage(cfg, index, ts, price, s).0, 1, ts);
    } else {
      NoAppend(s, 1, ts);
    }
  }

  lemma SameLog<C, A>(s: State<C, A>, t: State<C, A>, r: State<C, A>, rank: nat, ts: nat)
    requires s.log == t.log
    ensures Appends(s, r, rank, ts) <==> Appends(t, r, rank, ts)
    ensures r.log == s.log ==> Appends(s, r, rank, ts)
  {}

  lemma FillStage<C(!new), A>(cfg: Config<C, A>, ts: nat, price: real, s: State<C, A>, dir: nat)
    requires Sound(cfg.sdk) && Yb.Sane(s.ledger) && Books(cfg, s, dir)
    ensures var r := YbOnce(cfg, ts, price, s);
            Appends(s, r.0, 2, ts) && Books(cfg, r.0, dir) && (r.1 <==> r.0.log != s.log)
  {
    hide Sound, Yb.TryFire, Yb.Sane, Total, Appends;
    var r := YbOnce(cfg, ts, price, s);
    if r.1 {
      var f := Yb.TryFire(cfg.sdk, s.pool, s.ledger, price, ts, cfg.ybCosts).value;
      Yb2LRoute.FiredHasLegs(cfg.sdk, s.pool, s.ledger, price, ts, cfg.ybCosts);
      AppendsOne(s, r.0, FillAction(ts, f));
    } else {
      SameLog(s, s, r.0, 2, ts);
    }
  }

  lemma UserStage<C, A>(cfg: Config<C, A>, ts: nat, price: Pos, s: State<C, A>, dir: nat)
    requires Books(cfg, s, dir)
    ensures Appends(s, UserSwap(cfg, ts, price, s), 3, ts) && Books(cfg, UserSwap(cfg, ts, price, s), dir)
  {
    hide UserFill, Total, Appends;
    var r := UserSwap(cfg, ts, price, s);
    if r.log != s.log {
      var done := UserFill(cfg, s.pool, s.userDir, price).value;
      AppendsOne(s, r, UserSwapped(ts, done.1, done.2, done.3, done.4));
    } else {
      SameLog(s, s, r, 3, ts);
    }
  }

  lemma TickStage<C, A>(cfg: Config<C, A>, ts: nat, s: State<C, A>, dir: nat)
    requires Books(cfg, s, dir)
    ensures Appends(s, IdleTick(cfg, ts, s), 4, ts) && Books(cfg, IdleTick(cfg, ts, s), dir)
  {
    hide TickDue, Total, Appends;
    var r := IdleTick(cfg, ts, s);
    if r.log != s.log { AppendsOne(s, r, Ticked(ts)); } else { SameLog(s, s, r, 4, ts); }
  }

  lemma QuietBefore<C, A>(cfg: Config<C, A>, e: Event, ts: nat, price: real, s: State<C, A>, dir: nat)
    requires Books(cfg, s, dir)
    ensures Books(cfg, Enter(cfg, e, s), dir) && Enter(cfg, e, s).log == s.log
    ensures Books(cfg, PreTrade(cfg, ts, price, s), dir) && PreTrade(cfg, ts, price, s).log == s.log
  {
    hide Total;
  }

  lemma QuietContexts<C, A>(cfg: Config<C, A>, index: nat, e: Event, s: State<C, A>, dir: nat)
    requires Books(cfg, s, dir)
    ensures Books(cfg, Exposed(cfg, index, e, s), dir) && Exposed(cfg, index, e, s).log == s.log
    ensures Books(cfg, Withdrawn(cfg, s), dir) && Withdrawn(cfg, s).log == s.log
  {
    hide Total, SearchesReports;
  }

  lemma QuietSamples<C, A>(cfg: Config<C, A>, ts: nat, price: real, s: State<C, A>, dir: nat)
    requires Books(cfg, s, dir)
    ensures Books(cfg, YbReport(cfg, ts, price, s), dir) && YbReport(cfg, ts, price, s).log == s.log
    ensures Books(cfg, SampleNet(cfg, ts, s), dir) && SampleNet(cfg, ts, s).log == s.log
  {
    hide Total, Due;
  }

  /** What one event adds to the log: actions at its own time, each kind at most once and in the loop's order,
      and no idle tick after a trade or a fill. */
  predicate Orderly(before: seq<Action>, after: seq<Action>, ts: nat) {
    && |before| <= |after| && after[..|before|] == before
    && (forall k :: |before| <= k < |after| ==> after[k].ts == ts)
    && (forall i, j :: |before| <= i < j < |after| ==> Rank(after[i]) < Rank(after[j]))
    && (forall i, j :: |before| <= i < j < |after| && after[j].Ticked? ==> !after[i].Swapped? && !after[i].Filled?)
  }

  predicate Below(before: seq<Action>, after: seq<Action>, rank: nat) {
    |before| <= |after| && forall k :: |before| <= k < |after| ==> Rank(after[k]) < rank
  }

  predicate NoTrades(before: seq<Action>, after: seq<Action>) {
    forall k :: |before| <= k < |after| ==> !after[k].Swapped? && !after[k].Filled?
  }

  lemma PushOrderly(before: seq<Action>, log: seq<Action>, a: Action, ts: nat)
    requires Orderly(before, log, ts) && Below(before, log, Rank(a)) && a.ts == ts
    requires a.Ticked? ==> NoTrades(before, log)
    ensures Orderly(before, log + [a], ts) && Below(before, log + [a], Rank(a) + 1)
  {
    var n := |log|;
    assert forall k :: 0 <= k < n ==> (log + [a])[k] == log[k];
    assert (log + [a])[n] == a;
    assert (log + [a])[..|before|] == log[..|before|];
  }

  lemma AppendsOrderly<C, A>(before: seq<Action>, s: State<C, A>, r: State<C, A>, rank: nat, ts: nat)
    requires Orderly(before, s.log, ts) && Below(before, s.log, rank) && Appends(s, r, rank, ts)
    requires rank == 4 && r.log != s.log ==> NoTrades(before, s.log)
    ensures Orderly(before, r.log, ts) && Below(before, r.log, rank + 1)
  {
    if r.log != s.log {
      hide Orderly, NoTrades;
      PushOrderly(before, s.log, r.log[|s.log|], ts);
      assert r.log == r.log[..|s.log|] + [r.log[|s.log|]];
    }
  }

  lemma NoAppend<C, A>(s: State<C, A>, rank: nat, ts: nat)
    ensures Appends(s, s, rank, ts)
  {}

  lemma NoTradeYet<C, A>(before: seq<Action>, s: State<C, A>, r: State<C, A>, ts: nat)
    requires Below(before, s.log, 1) && Appends(s, r, 3, ts)
    ensures NoTrades(before, r.log)
  {}

  /** Arbitrage and the YieldBasis fill. */
  lemma TradesOrderly<C(!new), A>(cfg: Config<C, A>, index: nat, e: Event, gate: bool, before: seq<Action>,
      exposed: State<C, A>, dir: nat)
    requires Sound(cfg.sdk) && Yb.Sane(exposed.ledger) && Books(cfg, exposed, dir)
    requires Orderly(before, exposed.log, e.ts) && Below(before, exposed.log, 1)
    ensures
      var arb := if gate then Arbitrage(cfg, index, e.ts, e.price, exposed) else (exposed, false);
      var yb := YbOnce(cfg, e.ts, e.price, Withdrawn(cfg, arb.0));
      && Orderly(before, yb.0.log, e.ts) && Below(before, yb.0.log, 3) && Books(cfg, yb.0, dir)
      && (!arb.1 && !yb.1 ==> yb.0.log == exposed.log)
  {
    hide Arbitrage, Withdrawn, YbOnce, Sound, Yb.Sane, Orderly, Below, Appends, Books;
    var arb := if gate then Arbitrage(cfg, index, e.ts, e.price, exposed) else (exposed, false);
    ArbitrageStage(cfg, index, e.ts, e.price, exposed, dir);
    NoAppend(exposed, 1, e.ts);
    AppendsOrderly(before, exposed, arb.0, 1, e.ts);
    var withdrawn := Withdrawn(cfg, arb.0);
    QuietContexts(cfg, index, e, arb.0, dir);
    var yb := YbOnce(cfg, e.ts, e.price, withdrawn);
    FillStage(cfg, e.ts, e.price, withdrawn, dir);
    AppendsOrderly(before, withdrawn, yb.0, 2, e.ts);
  }

  /** The trading half of an event. */
  lemma TradingOrderly<C(!new), A>(cfg: Config<C, A>, index: nat, e: Event, gate: bool, before: seq<Action>,
      s: State<C, A>, dir: nat)
    requires Sound(cfg.sdk) && Yb.Sane(s.ledger) && e.price > 0.0 && Books(cfg, s, dir)
    requires Orderly(before, s.log, e.ts) && Below(before, s.log, 1)
    ensures Orderly(before, Trading(cfg, index, e, gate, s).log, e.ts) &&
            Books(cfg, Trading(cfg, index, e, gate, s), dir)
  {
    hide Arbitrage, UserSwap, IdleTick, YbReport, SampleNet, Exposed, Withdrawn, YbOnce, Sound, Yb.Sane, Orderly,
         Below, Appends, Books, NoTrades;
    var exposed := Exposed(cfg, index, e, s);
    QuietContexts(cfg, index, e, s, dir);
    TradesOrderly(cfg, index, e, gate, before, exposed, dir);
    var arb := if gate then Arbitrage(cfg, index, e.ts, e.price, exposed) else (exposed, false);
    var yb := YbOnce(cfg, e.ts, e.price, Withdrawn(cfg, arb.0));
    var user := UserSwap(cfg, e.ts, e.price, yb.0);
    UserStage(cfg, e.ts, e.price, yb.0, dir);
    AppendsOrderly(before, yb.0, user, 3, e.ts);
    var idle := if !(arb.1 || yb.1) then IdleTick(cfg, e.ts, user) else user;
    TickStage(cfg, e.ts, user, dir);
    NoAppend(user, 4, e.ts);
    if !(arb.1 || yb.1) { NoTradeYet(before, yb.0, user, e.ts); }
    AppendsOrderly(before, user, idle, 4, e.ts);
    QuietSamples(cfg, e.ts, e.price, idle, dir);
    QuietSamples(cfg, e.ts, e.price, YbReport(cfg, e.ts, e.price, idle), dir);
  }

  /** One event keeps the books and adds its actions in order. */
  lemma EventIsOrderly<C(!new), A>(cfg: Config<C, A>, index: nat, s: State<C, A>, dir: nat)
    requires Sound(cfg.sdk) && Yb.Sane(s.ledger) && index < |cfg.events| && Books(cfg, s, dir)
    ensures Orderly(s.log, StepEvent(cfg, index, s).s.log, cfg.events[index].ts)
    ensures Books(cfg, StepEvent(cfg, index, s).s, dir)
  {
    hide Sound, Yb.Sane, MayTrade, PreTrade, Donate, SampleNet, Trading, Appends, Books;
    var e := cfg.events[index];
    var entered := Enter(cfg, e, s);
    QuietBefore(cfg, e, e.ts, e.price, s, dir);
    var gate := MayTrade(cfg.sdk, entered.pool.core, cfg.venue, e.price);
    var sampled := PreTrade(cfg, e.ts, e.price, entered);
    QuietBefore(cfg, e, e.ts, e.price, entered, dir);
    assert Orderly(s.log, sampled.log, e.ts) && Below(s.log, sampled.log, 0);
    if !cfg.stops(sampled.tw) {
      hide Orderly, Below;
      var donated := Donate(cfg, e.ts, sampled);
      DonateStage(cfg, e.ts, sampled, dir);
      AppendsOrderly(s.log, sampled, donated, 0, e.ts);
      if !(e.price > 0.0) {
        QuietSamples(cfg, e.ts, e.price, donated, dir);
      } else {
        TradingOrderly(cfg, index, e, gate, s.log, donated, dir);
      }
    }
  }

  predicate TimeOrdered(log: seq<Action>) { forall i, j :: 0 <= i < j < |log| ==> log[i].ts <= log[j].ts }

  predicate TapeOrdered(events: seq<Event>) { forall i, j :: 0 <= i < j < |events| ==> events[i].ts <= events[j].ts }

  /** Over a whole run of a tape in time order: the log only grows, its actions are in time order, and the
      counters are those of the log. */
  lemma {:induction false} RunIsOrderly<C(!new), A>(cfg: Config<C, A>, index: nat, s: State<C, A>, dir: nat)
    requires Sound(cfg.sdk) && Yb.Sane(s.ledger) && index <= |cfg.events| && TapeOrdered(cfg.events) &&
             Books(cfg, s, dir)
    requires TimeOrdered(s.log) &&
             (index < |cfg.events| ==> forall k :: 0 <= k < |s.log| ==> s.log[k].ts <= cfg.events[index].ts)
    ensures s.log <= RunFrom(cfg, index, s).s.log && TimeOrdered(RunFrom(cfg, index, s).s.log)
    ensures Books(cfg, RunFrom(cfg, index, s).s, dir)
    decreases |cfg.events| - index
  {
    hide Sound, Yb.Sane, StepEvent, Books, Rank;
    if index < |cfg.events| {
      var o := StepEvent(cfg, index, s);
      EventIsOrderly(cfg, index, s, dir);
      assert forall k :: 0 <= k < |s.log| ==> o.s.log[k] == s.log[k];
      if !o.stop { RunIsOrderly(cfg, index + 1, o.s, dir); }
    }
  }
}
