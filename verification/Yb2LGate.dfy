/** The gate and the no-trade band in front of full sizing never hide a trade. */
module Yb2LGate {
  import opened Algebra
  import opened PoolSdk
  import opened Wrappers
  import opened Yb2L

  // ---------------------------------------------------------------------------------------------
  // Monotonicity: debt in time, and the LEVAMM price numerator x0 - debt in debt

  lemma DebtGrows(l: Ledger, t0: nat, t1: nat)
    requires Sane(l) && l.rateTime <= t0 <= t1
    ensures 0.0 <= l.debt <= ProjectedDebt(l, t0) <= ProjectedDebt(l, t1)
  {
    GrowthAtLeastOne(l, t0);
    GrowthAtLeastOne(l, t1);
    var d0, d1 := (t0 - l.rateTime) as real, (t1 - l.rateTime) as real;
    MulNonNeg(l.rate, d0);
    MulNonNeg(l.rate, d1 - d0);
    MulNonNeg(l.debt, l.rate * d0);
    MulNonNeg(l.debt, l.rate * (d1 - d0));
    assert l.debt * (1.0 + l.rate * d0) == l.debt + l.debt * (l.rate * d0);
    assert l.debt * (1.0 + l.rate * d1) == l.debt + l.debt * (l.rate * d0) + l.debt * (l.rate * (d1 - d0));
  }

  /** More debt means a smaller x0 and a smaller x0 - debt, and x0 exists for every smaller debt. */
  lemma RoomFalls<C(!new)>(sdk: Sdk<C>, l: Ledger, oracle: real, collateral: real, d0: real, d1: real)
    requires Sound(sdk) && l.levRatio > 0.0
    requires 0.0 <= d0 <= d1
    requires X0(sdk, l, oracle, collateral, d1, false).Some?
    ensures X0(sdk, l, oracle, collateral, d0, false).Some?
    ensures X0(sdk, l, oracle, collateral, d1, false).value <= X0(sdk, l, oracle, collateral, d0, false).value
    ensures X0(sdk, l, oracle, collateral, d1, false).value - d1 <= X0(sdk, l, oracle, collateral, d0, false).value - d0
  {
    hide Discriminant, LargerRoot;
    var value := oracle * collateral;
    DiscriminantFalls(l, value, d0, d1);
    var disc0, disc1 := Discriminant(l, value, d0), Discriminant(l, value, d1);
    SqrtMonotone(sdk, disc1, disc0);
    RootMonotone(l, value, sdk.sqrt(disc1), sdk.sqrt(disc0));
  }

  lemma DiscriminantFalls(l: Ledger, value: real, d0: real, d1: real)
    requires l.levRatio > 0.0 && value > 0.0 && d0 <= d1
    ensures Discriminant(l, value, d1) <= Discriminant(l, value, d0)
  {
    var unit := value * l.levRatio;
    MulPos(value, l.levRatio);
    MulNonNeg(unit, d1 - d0);
    assert Discriminant(l, value, d0) - Discriminant(l, value, d1) == 4.0 * (unit * (d1 - d0));
  }

  lemma RootMonotone(l: Ledger, value: real, r0: real, r1: real)
    requires l.levRatio > 0.0 && r0 <= r1
    ensures LargerRoot(l, value, r0) <= LargerRoot(l, value, r1)
  {
    DivMonotone(value + r0, value + r1, 2.0 * l.levRatio);
  }

  /** The curve at two times over the same pool: the later one has the smaller x. */
  lemma CurveFalls<C(!new)>(sdk: Sdk<C>, core: C, l: Ledger, t0: nat, t1: nat)
    requires Sound(sdk) && Sane(l) && l.rateTime <= t0 <= t1
    requires CurveAt(sdk, core, l, t0).Some? && CurveAt(sdk, core, l, t1).Some?
    ensures CurveAt(sdk, core, l, t1).value.x <= CurveAt(sdk, core, l, t0).value.x
  {
    DebtGrows(l, t0, t1);
    RoomFalls(sdk, l, LpOracle(sdk, core, l), l.collateral, ProjectedDebt(l, t0), ProjectedDebt(l, t1));
    hide X0, ProjectedDebt, LpOracle;
  }

  // ---------------------------------------------------------------------------------------------
  // The gate

  lemma KeptShareLowers(fair: real, fixed: real)
    requires fair >= 0.0 && fixed >= 0.0
    ensures BidEdge(fair, fixed) <= fair
  {
    var keep := Max(0.0, 1.0 - fixed);
    MulNonNeg(fair, 1.0 - keep);
    assert fair * keep == fair - fair * (1.0 - keep);
  }

  lemma AddCostRaises(fair: real, addFee: real, fixed: real)
    requires fair >= 0.0 && 0.0 <= addFee < 1.0 && fixed >= 0.0
    ensures fair <= AskEdge(fair, addFee, fixed)
  {
    var grossed := fair / (1.0 - addFee);
    DivPos(fair, 1.0 - addFee);
    assert grossed * (1.0 - addFee) == fair;
    MulNonNeg(grossed, addFee);
    MulNonNeg(grossed, fixed);
    assert grossed == fair + grossed * addFee;
    assert grossed * (1.0 + fixed) == grossed + grossed * fixed;
  }

  lemma FractionNonNeg(minProfit: real, reference: real)
    requires minProfit >= 0.0
    ensures FixedFraction(minProfit, reference) >= 0.0
  {
    if reference > 0.0 { DivPos(minProfit, reference); }
  }

  lemma FairNonNeg<C>(sdk: Sdk<C>, core: C, mark: real)
    requires sdk.totalSupply(core) > 0.0 && mark > 0.0
    ensures FairLp(sdk, core, mark) >= 0.0
  {
    var b0: real, b1: real, supply: real := sdk.balance0(core), sdk.balance1(core), sdk.totalSupply(core);
    MulNonNeg(mark, b1);
    DivPos(b0 + mark * b1, supply);
  }

  /** Whenever the gate is closed, full sizing chooses nothing. */
  lemma GateClosedChoosesNothing<C(!new)>(sdk: Sdk<C>, pool: Pool<C>, l: Ledger, price: real, ts: nat, costs: Costs)
    requires Sound(sdk) && Sane(l) && costs.minProfit >= 0.0
    requires !l.killed && ts >= l.rateTime
    requires !MayTrade(sdk, pool.core, l, price, ts, costs)
    ensures Decide(sdk, pool, l, price, ts, costs).chosen == -1
  {
    hide CurveAt, BidMark, AskMark, FairLp, BuyPrice, SellPrice, AddFee, ProposeFill, FixedFraction, Reference,
         BidEdge, AskEdge;
    match MarginalQuote(sdk, pool.core, l, price, ts, costs)
    case None =>
    case Some(q) =>
      FairNonNeg(sdk, pool.core, q.bid);
      FairNonNeg(sdk, pool.core, q.ask);
      var reference0, reference1 := Reference(sdk.balance0(pool.core), 1.0), Reference(sdk.balance1(pool.core), q.ask);
      FractionNonNeg(costs.minProfit, reference0);
      FractionNonNeg(costs.minProfit, reference1);
      KeptShareLowers(q.fairBid, FixedFraction(costs.minProfit, reference0));
      var addFee: real := AddFee(sdk, pool, ts);
      if addFee < 1.0 { AddCostRaises(q.fairAsk, addFee, FixedFraction(costs.minProfit, reference1)); }
  }

  /** Whenever the gate is closed, a route is refused: pool and ledger stay as they are. */
  lemma GateClosedRefuses<C(!new)>(sdk: Sdk<C>, pool: Pool<C>, l: Ledger, price: real, ts: nat, costs: Costs)
    requires Sound(sdk) && Sane(l) && costs.minProfit >= 0.0
    requires !MayTrade(sdk, pool.core, l, price, ts, costs)
    ensures TryFire(sdk, pool, l, price, ts, costs) == None
  {
    if !l.killed && ts >= l.rateTime {
      GateClosedChoosesNothing(sdk, pool, l, price, ts, costs);
    }
  }

  // ---------------------------------------------------------------------------------------------
  // The band

  /** A fair value marked at `factor` per unit price, against a limit, solved for the price. */
  lemma FairAgainst<C>(sdk: Sdk<C>, core: C, factor: real, price: real, mark: real, limit: real)
    requires sdk.balance1(core) > 0.0 && sdk.totalSupply(core) > 0.0 && factor > 0.0 && mark == price * factor
    ensures price <= PriceAtFair(sdk, core, limit, factor) ==> FairLp(sdk, core, mark) <= limit
    ensures price >= PriceAtFair(sdk, core, limit, factor) ==> FairLp(sdk, core, mark) >= limit
  {
    var coin0: real, coin1: real, supply: real := sdk.balance0(core), sdk.balance1(core), sdk.totalSupply(core);
    var unit := coin1 * factor;
    MulPos(coin1, factor);
    DivCompare(supply * limit - coin0, price, unit);
    DivCompare(coin0 + mark * coin1, limit, supply);
    assert price * unit == mark * coin1;
  }

  /** Executable LEVAMM prices follow the numerator. */
  lemma PricesFollow(l: Ledger, x0: real, x1: real)
    requires x1 <= x0 && l.collateral > 0.0 && 0.0 <= l.fee < 1.0
    ensures BuyPrice(l, x1) <= BuyPrice(l, x0) && SellPrice(l, x1) <= SellPrice(l, x0)
  {
    DivMonotone(x1, x0, l.collateral);
    DivMonotone(x1 / l.collateral, x0 / l.collateral, 1.0 - l.fee);
    MulMonotone(x1 / l.collateral, x0 / l.collateral, 1.0 - l.fee);
  }

  /** Inside a valid band the gate is closed at every time of the band. */
  lemma BandClosesGate<C(!new)>(sdk: Sdk<C>, core: C, l: Ledger, from: nat, to: nat, costs: Costs, price: real, ts: nat)
    requires Sound(sdk) && Sane(l)
    requires NoTradeBand(sdk, core, l, from, to, costs).valid
    requires from <= ts <= to
    requires NoTradeBand(sdk, core, l, from, to, costs).lo <= price <= NoTradeBand(sdk, core, l, from, to, costs).hi
    ensures !MayTrade(sdk, core, l, price, ts, costs)
  {
    hide CurveAt, FairLp, BuyPrice, SellPrice, PriceAtFair;
    match MarginalQuote(sdk, core, l, price, ts, costs)
    case None =>
    case Some(q) =>
      var early := MarginalQuote(sdk, core, l, 1.0, from, costs).value;
      var late := MarginalQuote(sdk, core, l, 1.0, to, costs).value;
      CurveFalls(sdk, core, l, from, ts);
      CurveFalls(sdk, core, l, ts, to);
      PricesFollow(l, early.curve.x, q.curve.x);
      PricesFollow(l, q.curve.x, late.curve.x);
      FairAgainst(sdk, core, early.bid, price, q.bid, BuyPrice(l, late.curve.x));
      FairAgainst(sdk, core, early.ask, price, q.ask, SellPrice(l, early.curve.x));
  }
}
