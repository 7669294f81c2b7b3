/** The YieldBasis ledger over whole runs of the event loop: what conserves its coin-0 side and bounds its gap. */
module LedgerRun {
  import opened Algebra
  import opened PoolSdk
  import opened TradeEntry
  import opened Scalar
  import Yb = Yb2L
  import opened Yb2LRoute

  /** What the log says of the ledger: interest donated so far, and the largest tolerance a direction-1 fill was
      allowed. */
  function Donations(log: seq<Action>): real {
    if log == [] then 0.0
    else
      var a := log[|log| - 1];
      Donations(log[..|log| - 1]) + if a.Filled? then a.donation else 0.0
  }

  function Slack(log: seq<Action>): real {
    if log == [] then 0.0
    else
      var a := log[|log| - 1];
      Max(Slack(log[..|log| - 1]), if a.Filled? && a.direction == 1 then Yb.Tolerance(a.input) else 0.0)
  }

  /** Debt growth that a fill at `ts` took up, if there was one. */
  function Accrued<C, A>(s: State<C, A>, t: State<C, A>, ts: nat): real
    requires s.ledger.rateMul > 0.0
  {
    if t.tally.fills > s.tally.fills then Yb.ProjectedDebt(s.ledger, ts) - s.ledger.debt else 0.0
  }

  ghost function Grown<C(!new), A>(cfg: Config<C, A>, index: nat, s: State<C, A>): real
    requires Sound(cfg.sdk) && Yb.Sane(s.ledger) && index <= |cfg.events|
    decreases |cfg.events| - index
  {
    if index == |cfg.events| then 0.0
    else
      var o := StepEvent(cfg, index, s);
      Accrued(s, o.s, cfg.events[index].ts) + if o.stop then 0.0 else Grown(cfg, index + 1, o.s)
  }

  function GapOf<C, A>(cfg: Config<C, A>, s: State<C, A>): real { Gap(cfg.sdk, s.pool.core, s.ledger) }

  predicate GapBounded<C, A>(cfg: Config<C, A>, s: State<C, A>) {
    Abs(GapOf(cfg, s)) <= Yb.GAP_LIMIT + Slack(s.log)
  }

  /** A stage that is no fill. */
  predicate Rests<C, A>(cfg: Config<C, A>, s: State<C, A>, t: State<C, A>) {
    && t.ledger == s.ledger && GapOf(cfg, t) == GapOf(cfg, s) && t.tally.fills == s.tally.fills
    && Donations(t.log) == Donations(s.log) && Slack(t.log) == Slack(s.log)
  }

  /** What one event does to the ledger. */
  ghost predicate Moves<C, A>(cfg: Config<C, A>, s: State<C, A>, t: State<C, A>, ts: nat)
    requires s.ledger.rateMul > 0.0
  {
    && Yb.Sane(t.ledger) && Slack(t.log) >= Slack(s.log) && Accrued(s, t, ts) >= 0.0
    && Donations(t.log) >= Donations(s.log)
    && Holdings(t.ledger) == Holdings(s.ledger) + Accrued(s, t, ts) - (Donations(t.log) - Donations(s.log))
    && (GapBounded(cfg, s) ==> GapBounded(cfg, t))
  }

  // ---------------------------------------------------------------------------------------------
  // Stages that are no fill

  lemma LogGrows(log: seq<Action>, a: Action)
    ensures Donations(log + [a]) == Donations(log) + if a.Filled? then a.donation else 0.0
    ensures Slack(log + [a]) == Max(Slack(log), if a.Filled? && a.direction == 1 then Yb.Tolerance(a.input) else 0.0)
  {
    assert (log + [a])[..|log|] == log;
  }

  lemma {:induction false} SlackIsNonNeg(log: seq<Action>)
    ensures Slack(log) >= 0.0
  {
    if log != [] { SlackIsNonNeg(log[..|log| - 1]); }
  }

  /** A stage that logs nothing, or one action that is no fill. */
  lemma Resting<C, A>(cfg: Config<C, A>, s: State<C, A>, t: State<C, A>, a: Action)
    requires t.ledger == s.ledger && t.tally.fills == s.tally.fills
    requires Circulating(cfg.sdk, t.pool.core) == Circulating(cfg.sdk, s.pool.core)
    requires t.log == s.log || (t.log == s.log + [a] && !a.Filled?)
    ensures Rests(cfg, s, t)
  {
    LogGrows(s.log, a);
    SlackIsNonNeg(s.log);
    hide Circulating, Donations, Slack;
  }

  lemma RestTwice<C, A>(cfg: Config<C, A>, s: State<C, A>, t: State<C, A>, u: State<C, A>)
    requires Rests(cfg, s, t) && Rests(cfg, t, u)
    ensures Rests(cfg, s, u)
  {
    hide GapOf, Donations, Slack;
  }

  lemma DonateRests<C(!new), A>(cfg: Config<C, A>, ts: nat, s: State<C, A>)
    requires Sound(cfg.sdk)
    ensures Rests(cfg, s, Donate(cfg, ts, s))
  {
    hide DonationAmounts, Circulating, Worth;
    var t := Donate(cfg, ts, s);
    Resting(cfg, s, t, if t.log == s.log then Ticked(ts) else t.log[|s.log|]);
  }

  lemma ArbitrageRests<C(!new), A>(cfg: Config<C, A>, index: nat, ts: nat, price: real, s: State<C, A>)
    requires SharesStay(cfg.sdk)
    ensures Rests(cfg, s, Arbitrage(cfg, index, ts, price, s).0)
  {
    hide Chosen, EntryOpen, MayTrade, Circulating, FeeWorth;
    var t := Arbitrage(cfg, index, ts, price, s).0;
    Resting(cfg, s, t, if t.log == s.log then Ticked(ts) else t.log[|s.log|]);
  }

  lemma UserRests<C(!new), A>(cfg: Config<C, A>, ts: nat, price: Pos, s: State<C, A>)
    requires SharesStay(cfg.sdk)
    ensures Rests(cfg, s, UserSwap(cfg, ts, price, s))
  {
    hide UserSize, UserAccepts, Circulating;
    var t := UserSwap(cfg, ts, price, s);
    Resting(cfg, s, t, if t.log == s.log then Ticked(ts) else t.log[|s.log|]);
  }

  lemma TickRests<C(!new), A>(cfg: Config<C, A>, ts: nat, s: State<C, A>)
    requires SharesStay(cfg.sdk)
    ensures Rests(cfg, s, IdleTick(cfg, ts, s))
  {
    hide TickDue, Circulating;
    Resting(cfg, s, IdleTick(cfg, ts, s), Ticked(ts));
  }

  lemma EntryRests<C, A>(cfg: Config<C, A>, index: nat, e: Event, s: State<C, A>)
    ensures Rests(cfg, s, Enter(cfg, e, s)) && Enter(cfg, e, s).ledger == s.ledger
    ensures Rests(cfg, s, PreTrade(cfg, e.ts, e.price, s))
    ensures Rests(cfg, s, Exposed(cfg, index, e, s)) && Rests(cfg, s, Withdrawn(cfg, s))
  {
    hide Donations, Slack, Circulating;
  }

  lemma SamplingRests<C, A>(cfg: Config<C, A>, ts: nat, price: real, s: State<C, A>)
    ensures Rests(cfg, s, YbReport(cfg, ts, price, s)) && Rests(cfg, s, SampleNet(cfg, ts, s))
  {
    hide Donations, Slack, Circulating, Due;
  }

  // ---------------------------------------------------------------------------------------------
  // The fill

  lemma FillMoves<C(!new), A>(cfg: Config<C, A>, ts: nat, price: real, s: State<C, A>)
    requires Sound(cfg.sdk) && Yb.Sane(s.ledger)
    ensures Moves(cfg, s, YbOnce(cfg, ts, price, s).0, ts)
  {
    hide Yb.TryFire, Sound, Donations, Slack, Yb.Tolerance, Yb.ProjectedDebt, Yb.Sane, Gap, Holdings;
    var t := YbOnce(cfg, ts, price, s).0;
    if t.tally.fills > s.tally.fills {
      var f := Yb.TryFire(cfg.sdk, s.pool, s.ledger, price, ts, cfg.ybCosts).value;
      FiredIsCommitted(cfg.sdk, s.pool, s.ledger, price, ts, cfg.ybCosts);
      LogGrows(s.log, FillAction(ts, f));
      SlackIsNonNeg(s.log);
      DebtGrows(s.ledger, ts);
      GapAfter(Gap(cfg.sdk, s.pool.core, s.ledger), Gap(cfg.sdk, f.core, f.ledger), f.direction, Yb.Tolerance(f.input));
    }
  }

  lemma DebtGrows(l: Yb.Ledger, ts: nat)
    requires Yb.Sane(l) && ts >= l.rateTime
    ensures l.rateMul > 0.0 && Yb.ProjectedDebt(l, ts) >= l.debt
  {
    Yb.GrowthAtLeastOne(l, ts);
  }

  lemma GapAfter(before: real, after: real, direction: nat, tolerance: real)
    requires Abs(before) <= Yb.GAP_LIMIT && direction <= 1
    requires direction == 0 ==> after == before
    requires direction == 1 ==> Abs(after - before) <= tolerance
    ensures Abs(after) <= Yb.GAP_LIMIT + if direction == 1 then tolerance else 0.0
  {}

  // ---------------------------------------------------------------------------------------------
  // Events and runs

  lemma RestIsMove<C, A>(cfg: Config<C, A>, s: State<C, A>, t: State<C, A>, ts: nat)
    requires Yb.Sane(s.ledger) && Rests(cfg, s, t)
    ensures Moves(cfg, s, t, ts)
  {
    hide GapOf, Donations, Slack, Holdings, Yb.ProjectedDebt;
  }

  lemma MoveBetween<C, A>(cfg: Config<C, A>, s: State<C, A>, t: State<C, A>, u: State<C, A>, v: State<C, A>, ts: nat)
    requires Yb.Sane(s.ledger) && Rests(cfg, s, t) && Moves(cfg, t, u, ts) && Rests(cfg, u, v)
    ensures Moves(cfg, s, v, ts)
  {
    hide GapOf, Donations, Slack, Holdings, Yb.ProjectedDebt;
  }

  lemma TradingMoves<C(!new), A>(cfg: Config<C, A>, index: nat, e: Event, gate: bool, s: State<C, A>)
    requires Sound(cfg.sdk) && SharesStay(cfg.sdk) && Yb.Sane(s.ledger) && e.price > 0.0
    ensures Moves(cfg, s, Trading(cfg, index, e, gate, s), e.ts)
  {
    hide Arbitrage, UserSwap, IdleTick, YbReport, SampleNet, Exposed, Withdrawn, YbOnce, Rests, Moves, Sound,
         SharesStay;
    var exposed := Exposed(cfg, index, e, s);
    EntryRests(cfg, index, e, s);
    var arb := if gate then Arbitrage(cfg, index, e.ts, e.price, exposed) else (exposed, false);
    if gate {
      ArbitrageRests(cfg, index, e.ts, e.price, exposed);
      RestTwice(cfg, s, exposed, arb.0);
    }
    var withdrawn := Withdrawn(cfg, arb.0);
    EntryRests(cfg, index, e, arb.0);
    RestTwice(cfg, s, arb.0, withdrawn);
    var yb := YbOnce(cfg, e.ts, e.price, withdrawn);
    FillMoves(cfg, e.ts, e.price, withdrawn);
    var user := UserSwap(cfg, e.ts, e.price, yb.0);
    UserRests(cfg, e.ts, e.price, yb.0);
    var idle := if !(arb.1 || yb.1) then IdleTick(cfg, e.ts, user) else user;
    if !(arb.1 || yb.1) {
      TickRests(cfg, e.ts, user);
      RestTwice(cfg, yb.0, user, idle);
    }
    var marked := YbReport(cfg, e.ts, e.price, idle);
    SamplingRests(cfg, e.ts, e.price, idle);
    RestTwice(cfg, yb.0, idle, marked);
    SamplingRests(cfg, e.ts, e.price, marked);
    RestTwice(cfg, yb.0, marked, SampleNet(cfg, e.ts, marked));
    MoveBetween(cfg, s, withdrawn, yb.0, SampleNet(cfg, e.ts, marked), e.ts);
  }

  lemma EventMoves<C(!new), A>(cfg: Config<C, A>, index: nat, s: State<C, A>)
    requires Sound(cfg.sdk) && SharesStay(cfg.sdk) && Yb.Sane(s.ledger) && index < |cfg.events|
    ensures Moves(cfg, s, StepEvent(cfg, index, s).s, cfg.events[index].ts)
  {
    hide Trading, PreTrade, Donate, SampleNet, Enter, Rests, Moves, Sound, SharesStay, MayTrade;
    var e := cfg.events[index];
    var entered := Enter(cfg, e, s);
    EntryRests(cfg, index, e, s);
    var sampled := PreTrade(cfg, e.ts, e.price, entered);
    EntryRests(cfg, index, e, entered);
    RestTwice(cfg, s, entered, sampled);
    RestIsMove(cfg, s, sampled, e.ts);
    if !cfg.stops(sampled.tw) {
      var donated := Donate(cfg, e.ts, sampled);
      DonateRests(cfg, e.ts, sampled);
      RestTwice(cfg, s, sampled, donated);
      if !(e.price > 0.0) {
        SamplingRests(cfg, e.ts, e.price, donated);
        RestTwice(cfg, s, donated, SampleNet(cfg, e.ts, donated));
        RestIsMove(cfg, s, SampleNet(cfg, e.ts, donated), e.ts);
      } else {
        var gate := MayTrade(cfg.sdk, entered.pool.core, cfg.venue, e.price);
        var traded := Trading(cfg, index, e, gate, donated);
        TradingMoves(cfg, index, e, gate, donated);
        StayPut(cfg, traded);
        MoveBetween(cfg, s, donated, traded, traded, e.ts);
      }
    }
  }

  lemma StayPut<C, A>(cfg: Config<C, A>, s: State<C, A>)
    ensures Rests(cfg, s, s)
  {}

  /** Over every run of the loop: the ledger stays sane, its coin-0 side changes by exactly the debt growth that fills
      took up, which is never negative, less the interest the log shows as donated, and the collateral gap stays within
      the entry limit plus the largest tolerance of a logged direction-1 fill. */
  lemma {:induction false} LoopKeepsLedger<C(!new), A>(cfg: Config<C, A>, index: nat, s: State<C, A>)
    requires Sound(cfg.sdk) && SharesStay(cfg.sdk) && Yb.Sane(s.ledger) && index <= |cfg.events|
    ensures
      var t := RunFrom(cfg, index, s).s;
      && Yb.Sane(t.ledger) && Grown(cfg, index, s) >= 0.0 && Donations(t.log) >= Donations(s.log)
      && Holdings(t.ledger) == Holdings(s.ledger) + Grown(cfg, index, s) - (Donations(t.log) - Donations(s.log))
      && (GapBounded(cfg, s) ==> GapBounded(cfg, t))
    decreases |cfg.events| - index
  {
    hide StepEvent, Sound, SharesStay, Yb.Sane, Holdings, Donations, Accrued, GapBounded;
    if index < |cfg.events| {
      EventMoves(cfg, index, s);
      var o := StepEvent(cfg, index, s);
      if !o.stop { LoopKeepsLedger(cfg, index + 1, o.s); }
    }
  }
}
