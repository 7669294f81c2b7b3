/** The quote, the decision and the route in terms of reserves, prices and the ledger alone, with the exact conditions
    under which each step goes ahead. */
module Yb2LTerms {
  import opened Algebra
  import opened PoolSdk
  import opened Wrappers
  import opened Yb2L
  import opened Yb2LFill
  import opened Yb2LInvariant
  import Yb2LRoute

  // ---------------------------------------------------------------------------------------------
  // The quote

  /** Debt at a time, by simple interest. */
  function Grown(l: Ledger, ts: nat): real { l.debt * (1.0 + l.rate * (ts - l.rateTime) as real) }

  lemma GrownIs(l: Ledger, ts: nat)
    requires Sane(l) && ts >= l.rateTime
    ensures ProjectedDebt(l, ts) == Grown(l, ts) >= 0.0
  {
    GrowthAtLeastOne(l, ts);
    MulNonNeg(l.rate, (ts - l.rateTime) as real);
    MulNonNeg(l.debt, 1.0 + l.rate * (ts - l.rateTime) as real);
  }

  /** The price sold at or bought at, after the basis points of execution. */
  function AfterBps(price: real, bps: real): real { price * (10000.0 + bps) / 10000.0 }

  /** Debt with its growth, the invariant it leaves, and the LP's worth in coin 0 with coin 1 sold at the bid or
      bought at the ask. */
  predicate Marks<C>(sdk: Sdk<C>, core: C, l: Ledger, price: real, ts: nat, costs: Costs, q: Quote) {
    var supply, c := sdk.totalSupply(core), q.curve;
    && c.debt == Grown(l, ts) && c.x == c.x0 - c.debt > 0.0
    && Root(l.levRatio, Value(c.oracle, l.collateral), c.debt, c.x0)
    && q.bid == AfterBps(price, -costs.bidBps) > 0.0 && q.ask == AfterBps(price, costs.askBps) > 0.0
    && q.fairBid * supply == sdk.balance0(core) + q.bid * sdk.balance1(core)
    && q.fairAsk * supply == sdk.balance0(core) + q.ask * sdk.balance1(core)
  }

  lemma QuoteMarks<C(!new)>(sdk: Sdk<C>, core: C, l: Ledger, price: real, ts: nat, costs: Costs)
    requires Sound(sdk) && Sane(l) && ts >= l.rateTime
    requires MarginalQuote(sdk, core, l, price, ts, costs).Some?
    ensures var q := MarginalQuote(sdk, core, l, price, ts, costs).value;
            Marks(sdk, core, l, price, ts, costs, q) && q.curve.oracle == LpOracle(sdk, core, l)
  {
    hide LpOracle, ProjectedDebt, X0, Quadratic, Slope, Value, Grown, FairLp, BidMark, AskMark, AfterBps;
    GrownIs(l, ts);
    var q := MarginalQuote(sdk, core, l, price, ts, costs).value;
    X0Solves(sdk, l, q.curve.oracle, l.collateral, q.curve.debt, false);
    FairIs(sdk, core, q.bid);
    FairIs(sdk, core, q.ask);
    MarkIs(price, costs);
  }

  lemma FairIs<C>(sdk: Sdk<C>, core: C, mark: real)
    requires sdk.totalSupply(core) > 0.0
    ensures FairLp(sdk, core, mark) * sdk.totalSupply(core) == sdk.balance0(core) + mark * sdk.balance1(core)
  {
    DivMul(sdk.balance0(core) + mark * sdk.balance1(core), sdk.totalSupply(core));
  }

  lemma MarkIs(price: real, costs: Costs)
    ensures BidMark(price, costs) == AfterBps(price, -costs.bidBps)
    ensures AskMark(price, costs) == AfterBps(price, costs.askBps)
  {}

  /** The larger root leaves something above the debt. */
  ghost predicate HasRoom(lev: real, value: real, debt: real) { exists x0 :: Root(lev, value, debt, x0) && x0 > debt }

  /** A quote exists exactly when the shares, the marks, the fee and the curve all allow one. */
  lemma QuoteExists<C(!new)>(sdk: Sdk<C>, core: C, l: Ledger, price: real, ts: nat, costs: Costs)
    requires Sound(sdk) && Sane(l) && ts >= l.rateTime
    ensures
      MarginalQuote(sdk, core, l, price, ts, costs).Some? <==>
      && sdk.totalSupply(core) > 0.0 && l.fee < 1.0
      && AfterBps(price, -costs.bidBps) > 0.0 && AfterBps(price, costs.askBps) > 0.0
      && Value(LpOracle(sdk, core, l), l.collateral) > 0.0
      && HasRoom(l.levRatio, Value(LpOracle(sdk, core, l), l.collateral), Grown(l, ts))
  {
    hide LpOracle, ProjectedDebt, X0, Quadratic, Slope, Value, Grown, FairLp, BidMark, AskMark, AfterBps;
    GrownIs(l, ts);
    MarkIs(price, costs);
    RoomIs(sdk, l, LpOracle(sdk, core, l), Grown(l, ts));
  }

  lemma RoomIs<C(!new)>(sdk: Sdk<C>, l: Ledger, oracle: real, debt: real)
    requires Sound(sdk) && Sane(l) && debt >= 0.0
    ensures
      var x0, value := X0(sdk, l, oracle, l.collateral, debt, false), Value(oracle, l.collateral);
      x0.Some? && x0.value - debt > 0.0 <==> value > 0.0 && HasRoom(l.levRatio, value, debt)
  {
    hide X0, Quadratic, Slope, Value;
    var value := Value(oracle, l.collateral);
    X0Exists(sdk, l, oracle, l.collateral, debt);
    if X0(sdk, l, oracle, l.collateral, debt, false).Some? {
      X0Solves(sdk, l, oracle, l.collateral, debt, false);
      var x0 := X0(sdk, l, oracle, l.collateral, debt, false).value;
      assert Root(l.levRatio, value, debt, x0);
      if HasRoom(l.levRatio, value, debt) {
        var x :| Root(l.levRatio, value, debt, x) && x > debt;
        RootIsOne(l.levRatio, value, debt, x, x0);
      }
    } else if HasRoom(l.levRatio, value, debt) {
      var x :| Root(l.levRatio, value, debt, x) && x > debt;
      assert Solvable(l.levRatio, value, debt);
    }
  }

  /** The larger solution. */
  predicate Root(lev: real, value: real, debt: real, x: real) {
    Quadratic(lev, value, debt, x) == 0.0 && Slope(lev, value, x) >= 0.0
  }

  lemma RootIsOne(lev: real, value: real, debt: real, x: real, y: real)
    requires lev > 0.0 && Root(lev, value, debt, x) && Root(lev, value, debt, y)
    ensures x == y
  {
    Completed(lev, value, debt, x);
    Completed(lev, value, debt, y);
    var a, b := Slope(lev, value, x), Slope(lev, value, y);
    SquareIs(a);
    SquareIs(b);
    assert 4.0 * lev * 0.0 == 0.0;
    hide Quadratic, Square;
    Squares(a, b);
    Squares(b, a);
    assert lev * x == lev * y;
    Commute(lev, x);
    Commute(lev, y);
    Cancel(x, y, lev);
  }

  // ---------------------------------------------------------------------------------------------
  // The gate and the band

  /** The gate is open exactly when there is a quote whose executable price is below the fair bid or above the fair
      ask. */
  lemma GateIs<C(!new)>(sdk: Sdk<C>, core: C, l: Ledger, price: real, ts: nat, costs: Costs)
    requires Sound(sdk) && Sane(l)
    ensures
      var q := MarginalQuote(sdk, core, l, price, ts, costs);
      MayTrade(sdk, core, l, price, ts, costs) <==>
      !l.killed && ts >= l.rateTime && q.Some? && Crosses(l, q.value)
  {
    hide MarginalQuote, BuyPrice, SellPrice, Crosses;
    var q := MarginalQuote(sdk, core, l, price, ts, costs);
    if q.Some? { PricesCross(l, q.value); }
  }

  predicate Crosses(l: Ledger, q: Quote) {
    q.curve.x < q.fairBid * l.collateral * (1.0 - l.fee) || q.curve.x * (1.0 - l.fee) > q.fairAsk * l.collateral
  }

  lemma PricesCross(l: Ledger, q: Quote)
    requires Sane(l) && l.fee < 1.0
    ensures BuyPrice(l, q.curve.x) < q.fairBid || SellPrice(l, q.curve.x) > q.fairAsk <==> Crosses(l, q)
  {
    var x, c, f := q.curve.x, l.collateral, 1.0 - l.fee;
    DivCompare(x / c, q.fairBid, f);
    DivCompare(x, q.fairBid * f, c);
    assert q.fairBid * f * c == q.fairBid * c * f;
    DivMul(x, c);
    assert x / c * f * c == x * f;
    if x / c * f > q.fairAsk { MulStrict(q.fairAsk, x / c * f, c); } else { MulMonotone(x / c * f, q.fairAsk, c); }
  }

  /** The band's ends before the margin: where the fair bid at the end of the span, and the fair ask at its start,
      meet the executable prices. */
  predicate Meets<C>(sdk: Sdk<C>, core: C, l: Ledger, early: Quote, late: Quote, lo: real, hi: real)
    requires l.collateral > 0.0 && l.fee < 1.0
  {
    var b0, b1, supply := sdk.balance0(core), sdk.balance1(core), sdk.totalSupply(core);
    && b0 + hi * early.bid * b1 == supply * BuyPrice(l, late.curve.x)
    && b0 + lo * early.ask * b1 == supply * SellPrice(l, early.curve.x)
  }

  /** A band is given exactly when the actor is alive, the span begins no earlier than the ledger, there are quotes at
      both of its ends, coin 1 is in the pool, and something is left between the two ends after a billionth's margin.
      */
  lemma BandIs<C(!new)>(sdk: Sdk<C>, core: C, l: Ledger, from: nat, to: nat, costs: Costs) returns (lo: real, hi: real)
    requires Sound(sdk) && Sane(l)
    ensures
      var early, late, band := MarginalQuote(sdk, core, l, 1.0, from, costs),
                               MarginalQuote(sdk, core, l, 1.0, to, costs),
                               NoTradeBand(sdk, core, l, from, to, costs);
      var given := !l.killed && l.rateTime <= from <= to && early.Some? && late.Some? && sdk.balance1(core) > 0.0;
      && (given ==> Meets(sdk, core, l, early.value, late.value, lo, hi)
                    && band.lo == lo + Abs(lo) * 0.000000001 && band.hi == hi - Abs(hi) * 0.000000001)
      && (band.valid <==> given && lo + Abs(lo) * 0.000000001 < hi - Abs(hi) * 0.000000001)
      && band.from == from && band.to == to
  {
    hide MarginalQuote, BuyPrice, SellPrice, PriceAtFair;
    var early, late := MarginalQuote(sdk, core, l, 1.0, from, costs), MarginalQuote(sdk, core, l, 1.0, to, costs);
    lo, hi := 0.0, 0.0;
    if !l.killed && l.rateTime <= from <= to && early.Some? && late.Some? && sdk.balance1(core) > 0.0 {
      QuoteMarks(sdk, core, l, 1.0, from, costs);
      hi := PriceAtFair(sdk, core, BuyPrice(l, late.value.curve.x), early.value.bid);
      lo := PriceAtFair(sdk, core, SellPrice(l, early.value.curve.x), early.value.ask);
      PriceMeets(sdk, core, BuyPrice(l, late.value.curve.x), early.value.bid);
      PriceMeets(sdk, core, SellPrice(l, early.value.curve.x), early.value.ask);
    }
  }

  lemma PriceMeets<C>(sdk: Sdk<C>, core: C, fair: real, factor: real)
    requires sdk.balance1(core) > 0.0 && factor > 0.0
    ensures sdk.balance0(core) + PriceAtFair(sdk, core, fair, factor) * factor * sdk.balance1(core) ==
            sdk.totalSupply(core) * fair
  {
    MulPos(sdk.balance1(core), factor);
    DivMul(sdk.totalSupply(core) * fair - sdk.balance0(core), sdk.balance1(core) * factor);
    assert PriceAtFair(sdk, core, fair, factor) * factor * sdk.balance1(core) ==
           PriceAtFair(sdk, core, fair, factor) * (sdk.balance1(core) * factor);
  }

  // ---------------------------------------------------------------------------------------------
  // Proposals

  /** A move from (c0, d0) to (c1, d1) at these collateral values brings the ratio of value to debt nearer to two. */
  predicate Nears(v0: real, d0: real, v1: real, d1: real) {
    && d1 > 0.0
    && (|| (v1 > 2.0 * d1 && (d0 <= 0.0 || v0 * d1 > v1 * d0))
        || (v1 <= 2.0 * d1 && d0 > 0.0 && v0 * d1 < v1 * d0))
  }

  lemma NearsIs(oracle: real, c0: real, d0: real, c1: real, d1: real)
    ensures ChecksSafety(oracle, c0, d0, c1, d1) <==> !Nears(Value(oracle, c0), d0, Value(oracle, c1), d1)
  {
    if d1 > 0.0 {
      var v0, v1 := Value(oracle, c0), Value(oracle, c1);
      DivCompare(v1, 2.0, d1);
      if d0 > 0.0 { RatiosCompare(v0, d0, v1, d1); }
    }
  }

  lemma RatiosCompare(v0: real, d0: real, v1: real, d1: real)
    requires d0 > 0.0 && d1 > 0.0
    ensures v0 / d0 < v1 / d1 <==> v0 * d1 < v1 * d0
    ensures v0 / d0 > v1 / d1 <==> v0 * d1 > v1 * d0
  {
    var r := v1 / d1;
    DivMul(v1, d1);
    DivCompare(v0, r, d0);
    assert (r * d0) * d1 == v1 * d0;
    if v0 < r * d0 { MulStrict(v0, r * d0, d1); }
    if v0 > r * d0 { MulStrict(r * d0, v0, d1); }
  }

  /** The ledger may move to this collateral and debt: the invariant is there and no lower, and unless the move nears
      the target ratio the debt is within the safety bounds. */
  ghost predicate MayMove(l: Ledger, curve: Curve, collateral: real, debt: real) {
    var v0, v1 := Value(curve.oracle, l.collateral), Value(curve.oracle, collateral);
    && v1 > 0.0 && collateral > 0.0 && debt >= 0.0
    && (Nears(v0, curve.debt, v1, debt) || l.minSafe * v1 <= debt <= l.maxSafe * v1)
    && exists x0 :: Root(l.levRatio, v1, debt, x0) && x0 >= curve.x0
  }

  lemma MoveIsVetted<C(!new)>(sdk: Sdk<C>, l: Ledger, curve: Curve, collateral: real, debt: real)
    requires Sound(sdk) && Sane(l)
    ensures
      var safe := ChecksSafety(curve.oracle, l.collateral, curve.debt, collateral, debt);
      var x0 := X0(sdk, l, curve.oracle, collateral, debt, safe);
      x0.Some? && x0.value >= curve.x0 <==> MayMove(l, curve, collateral, debt)
  {
    var safe := ChecksSafety(curve.oracle, l.collateral, curve.debt, collateral, debt);
    NearsIs(curve.oracle, l.collateral, curve.debt, collateral, debt);
    SafeX0(sdk, l, curve.oracle, collateral, debt);
    X0Exists(sdk, l, curve.oracle, collateral, debt);
    hide X0, Quadratic, Slope, Value, ChecksSafety, Nears;
    var v1 := Value(curve.oracle, collateral);
    var open := X0(sdk, l, curve.oracle, collateral, debt, false);
    if open.Some? {
      X0Solves(sdk, l, curve.oracle, collateral, debt, false);
      assert Root(l.levRatio, v1, debt, open.value);
      forall x | Root(l.levRatio, v1, debt, x) ensures x == open.value {
        RootIsOne(l.levRatio, v1, debt, x, open.value);
      }
    }
    forall x ensures Root(l.levRatio, v1, debt, x) ==> Solvable(l.levRatio, v1, debt) {}
  }

  /** The safety test is on the debt alone. */
  lemma SafeX0<C>(sdk: Sdk<C>, l: Ledger, oracle: real, collateral: real, debt: real)
    requires l.levRatio > 0.0
    ensures
      var open, v := X0(sdk, l, oracle, collateral, debt, false), Value(oracle, collateral);
      X0(sdk, l, oracle, collateral, debt, true) ==
      if l.minSafe * v <= debt <= l.maxSafe * v then open else None
  {
    hide Discriminant, LargerRoot;
    var v := Value(oracle, collateral);
    Commute(l.minSafe, v);
    Commute(l.maxSafe, v);
  }

  /** Everything that makes a direction-0 fill to the reserve `end` a proposal: it buys LP down the curve until the
      curve price is `target`, repays no more than the debt, clears the profit floor, and may move the ledger. */
  /** The x-reserve at which the curve price is `target`. */
  predicate IsEnd(l: Ledger, curve: Curve, target: real, end: real) {
    end >= 0.0 && end * end == curve.x * l.collateral * target
  }

  ghost predicate BuyPossible(l: Ledger, curve: Curve, target: real, fair: real, minProfit: real, end: real) {
    && target > 0.0 && fair > 0.0 && end > curve.x && IsEnd(l, curve, target, end)
    && end / target < l.collateral
    && var paid, got := end - curve.x, (l.collateral - end / target) * (1.0 - l.fee);
       && got > 0.0 && paid <= curve.debt && got * fair - paid > minProfit
       && MayMove(l, curve, l.collateral - got, curve.debt - paid)
  }

  /** The same for a direction-1 fill, which brings LP and takes no more stable than there is. */
  ghost predicate SellPossible(l: Ledger, curve: Curve, target: real, fair: real, minProfit: real, end: real) {
    && target > 0.0 && fair > 0.0 && end < curve.x && IsEnd(l, curve, target, end)
    && end / target > l.collateral
    && var paid, got := end / target - l.collateral, (curve.x - end) * (1.0 - l.fee);
       && got > 0.0 && got <= l.cash && got - paid * fair > minProfit
       && MayMove(l, curve, l.collateral + paid, curve.debt + got)
  }

  ghost predicate BuyOpen(l: Ledger, curve: Curve, target: real, fair: real, minProfit: real) {
    exists end :: BuyPossible(l, curve, target, fair, minProfit, end)
  }

  ghost predicate SellOpen(l: Ledger, curve: Curve, target: real, fair: real, minProfit: real) {
    exists end :: SellPossible(l, curve, target, fair, minProfit, end)
  }

  lemma EndIsOne(l: Ledger, curve: Curve, target: real, a: real, b: real)
    requires IsEnd(l, curve, target, a) && IsEnd(l, curve, target, b)
    ensures a == b
  {
    Squares(a, b);
    Squares(b, a);
  }

  /** A proposal is valid exactly when its fill is possible. */
  lemma ProposalIsExact<C(!new)>(sdk: Sdk<C>, l: Ledger, curve: Curve, target: real, fair: real, minProfit: real)
    requires Sound(sdk) && Sane(l) && l.fee < 1.0 && curve.x > 0.0
    ensures ProposeFill(sdk, l, 0, curve, target, fair, minProfit).valid <==>
            BuyOpen(l, curve, target, fair, minProfit)
    ensures ProposeFill(sdk, l, 1, curve, target, fair, minProfit).valid <==>
            SellOpen(l, curve, target, fair, minProfit)
  {
    if target > 0.0 && fair > 0.0 {
      EndReserveRoot(sdk, curve.x, l.collateral, target);
      var end: real := EndReserve(sdk, curve.x, l.collateral, target);
      BuyIsExact(sdk, l, curve, target, fair, minProfit, end);
      SellIsExact(sdk, l, curve, target, fair, minProfit, end);
      hide MayMove, ProposeFill, EndReserve, IsEnd;
      forall other | BuyPossible(l, curve, target, fair, minProfit, other) ensures other == end {
        EndIsOne(l, curve, target, other, end);
      }
      forall other | SellPossible(l, curve, target, fair, minProfit, other) ensures other == end {
        EndIsOne(l, curve, target, other, end);
      }
      hide BuyPossible, SellPossible;
    } else {
      assert !ProposeFill(sdk, l, 0, curve, target, fair, minProfit).valid;
      assert !ProposeFill(sdk, l, 1, curve, target, fair, minProfit).valid;
    }
  }

  lemma VettedIsExact<C(!new)>(sdk: Sdk<C>, l: Ledger, curve: Curve, minProfit: real, fill: Fill)
    requires Sound(sdk) && Sane(l) && fill.valid
    ensures Vetted(sdk, l, curve, minProfit, fill).valid <==>
            fill.input > 0.0 && fill.output > 0.0 && fill.profit > minProfit &&
            MayMove(l, curve, fill.collateral, fill.debt)
  {
    hide X0, ChecksSafety, MayMove;
    MoveIsVetted(sdk, l, curve, fill.collateral, fill.debt);
  }

  lemma BuyIsExact<C(!new)>(sdk: Sdk<C>, l: Ledger, curve: Curve, target: real, fair: real, minProfit: real, end: real)
    requires Sound(sdk) && Sane(l) && l.fee < 1.0 && curve.x > 0.0 && target > 0.0 && fair > 0.0
    requires end == EndReserve(sdk, curve.x, l.collateral, target)
    requires IsEnd(l, curve, target, end)
    ensures ProposeFill(sdk, l, 0, curve, target, fair, minProfit).valid <==>
            BuyPossible(l, curve, target, fair, minProfit, end)
  {
    var fill := BuyLegs(l, curve, target, fair, end);
    VettedIsExact(sdk, l, curve, minProfit, fill);
    BuyTerms(l, curve, target, fair, minProfit, end);
    hide EndReserve, Vetted, BuyLegs, BuyFits, BuyPossible, MayMove;
  }

  lemma BuyTerms(l: Ledger, curve: Curve, target: real, fair: real, minProfit: real, end: real)
    requires target > 0.0 && fair > 0.0 && IsEnd(l, curve, target, end)
    ensures
      var fill := BuyLegs(l, curve, target, fair, end);
      BuyPossible(l, curve, target, fair, minProfit, end) <==>
      BuyFits(l, curve, target, end, fill) && fill.input > 0.0 && fill.output > 0.0 && fill.profit > minProfit &&
      MayMove(l, curve, fill.collateral, fill.debt)
  {
    hide MayMove, Pending;
  }

  lemma SellIsExact<C(!new)>(sdk: Sdk<C>, l: Ledger, curve: Curve, target: real, fair: real, minProfit: real, end: real)
    requires Sound(sdk) && Sane(l) && l.fee < 1.0 && curve.x > 0.0 && target > 0.0 && fair > 0.0
    requires end == EndReserve(sdk, curve.x, l.collateral, target)
    requires IsEnd(l, curve, target, end)
    ensures ProposeFill(sdk, l, 1, curve, target, fair, minProfit).valid <==>
            SellPossible(l, curve, target, fair, minProfit, end)
  {
    var fill := SellLegs(l, curve, target, fair, end);
    VettedIsExact(sdk, l, curve, minProfit, fill);
    SellTerms(l, curve, target, fair, minProfit, end);
    hide EndReserve, Vetted, SellLegs, SellFits, SellPossible, MayMove;
  }

  lemma SellTerms(l: Ledger, curve: Curve, target: real, fair: real, minProfit: real, end: real)
    requires target > 0.0 && fair > 0.0 && IsEnd(l, curve, target, end)
    ensures
      var fill := SellLegs(l, curve, target, fair, end);
      SellPossible(l, curve, target, fair, minProfit, end) <==>
      SellFits(l, curve, target, end, fill) && fill.input > 0.0 && fill.output > 0.0 && fill.profit > minProfit &&
      MayMove(l, curve, fill.collateral, fill.debt)
  {
    hide MayMove, Pending;
  }

  /** What a fill leaves: debt repaid in cash, or borrowed out of it, collateral moved by the LP leg, and what was
      pending before still pending, with the redeemed total moved by what is repaid. */
  predicate Leaves(l: Ledger, curve: Curve, target: real, fair: real, end: real, fill: Fill)
    requires target > 0.0
  {
    && fill.minted == fill.debt + fill.redeemed - Max(0.0, curve.debt + l.redeemed - l.minted)
    && if fill.direction == 0 then
         && fill.input == end - curve.x && fill.output == (l.collateral - end / target) * (1.0 - l.fee)
         && fill.profit == fill.output * fair - fill.input
         && fill.collateral == l.collateral - fill.output && fill.debt == curve.debt - fill.input
         && fill.cash == l.cash + fill.input && fill.redeemed == l.redeemed + fill.input
       else
         && fill.input == end / target - l.collateral && fill.output == (curve.x - end) * (1.0 - l.fee)
         && fill.profit == fill.output - fill.input * fair
         && fill.collateral == l.collateral + fill.input && fill.debt == curve.debt + fill.output
         && fill.cash == l.cash - fill.output && fill.redeemed == l.redeemed
  }

  lemma LegsLeave(l: Ledger, curve: Curve, target: real, fair: real, end: real)
    requires target > 0.0
    ensures Leaves(l, curve, target, fair, end, BuyLegs(l, curve, target, fair, end))
    ensures Leaves(l, curve, target, fair, end, SellLegs(l, curve, target, fair, end))
    ensures BuyLegs(l, curve, target, fair, end).direction == 0 && SellLegs(l, curve, target, fair, end).direction == 1
  {}

  ghost predicate BuyMade(l: Ledger, curve: Curve, target: real, fair: real, minProfit: real, fill: Fill) {
    && target > 0.0 && fill.direction == 0
    && exists end :: BuyPossible(l, curve, target, fair, minProfit, end) && Leaves(l, curve, target, fair, end, fill)
  }

  ghost predicate SellMade(l: Ledger, curve: Curve, target: real, fair: real, minProfit: real, fill: Fill) {
    && target > 0.0 && fill.direction == 1
    && exists end :: SellPossible(l, curve, target, fair, minProfit, end) && Leaves(l, curve, target, fair, end, fill)
  }

  /** A valid proposal is of its direction and is the possible fill. */
  lemma FillIs<C(!new)>(sdk: Sdk<C>, l: Ledger, direction: nat, curve: Curve, target: real, fair: real, minProfit: real)
      returns (end: real)
    requires Sound(sdk) && Sane(l) && l.fee < 1.0 && curve.x > 0.0 && direction <= 1
    requires ProposeFill(sdk, l, direction, curve, target, fair, minProfit).valid
    ensures
      var fill := ProposeFill(sdk, l, direction, curve, target, fair, minProfit);
      && fill.direction == direction && target > 0.0 && Leaves(l, curve, target, fair, end, fill)
      && (direction == 0 ==> BuyPossible(l, curve, target, fair, minProfit, end))
      && (direction == 1 ==> SellPossible(l, curve, target, fair, minProfit, end))
  {
    hide BuyPossible, SellPossible, BuyFits, SellFits, Vetted, BuyLegs, SellLegs, Leaves;
    end := EndReserve(sdk, curve.x, l.collateral, target);
    assert IsEnd(l, curve, target, end) by { EndReserveRoot(sdk, curve.x, l.collateral, target); }
    LegsLeave(l, curve, target, fair, end);
    hide EndReserve, IsEnd;
    if direction == 0 {
      BuyIsExact(sdk, l, curve, target, fair, minProfit, end);
    } else {
      SellIsExact(sdk, l, curve, target, fair, minProfit, end);
    }
  }

  // ---------------------------------------------------------------------------------------------
  // The decision

  /** The fee expected of a proportional add: the noise fee, and while donations are protected half the pool's fee, or
      as much of it as the time left, of the period, and the donated shares, of the largest ratio, make up. */
  predicate AddCost<C>(sdk: Sdk<C>, pool: Pool<C>, ts: nat, fee: real) {
    var half, left := sdk.fee(pool) / 2.0, sdk.protectionExpiry(pool.core) - ts as real;
    var supply, period, ratio := sdk.totalSupply(pool.core), sdk.protectionPeriod, sdk.donationMaxRatio;
    if left > 0.0 && period > 0.0 && supply > 0.0 && ratio > 0.0 then
      Weighs(fee - sdk.noiseFee, half, left, period, sdk.donationShares(pool.core), supply, ratio)
    else fee == sdk.noiseFee
  }

  lemma AddFeeIs<C>(sdk: Sdk<C>, pool: Pool<C>, ts: nat)
    ensures AddCost(sdk, pool, ts, AddFee(sdk, pool, ts))
  {
    hide Spam;
    var left, supply := sdk.protectionExpiry(pool.core) - ts as real, sdk.totalSupply(pool.core);
    if left > 0.0 && sdk.protectionPeriod > 0.0 && supply > 0.0 && sdk.donationMaxRatio > 0.0 {
      SpamIs(sdk.fee(pool) / 2.0, left, sdk.protectionPeriod, sdk.donationShares(pool.core), supply,
             sdk.donationMaxRatio);
    }
    hide Weighs;
  }

  /** At most half the fee, and at most that half weighed by the time left, of the period, and the shares, of the
      largest ratio; one of the two exactly. */
  predicate Weighs(spam: real, half: real, left: real, period: real, shares: real, supply: real, ratio: real) {
    var whole, part := spam * ratio * supply * period, Min(left, period) * half * shares;
    0.0 <= spam <= half && whole <= part && (spam == half || whole == part)
  }

  lemma SpamIs(half: NonNeg, left: real, period: real, shares: NonNeg, supply: real, ratio: real)
    requires left > 0.0 && period > 0.0 && supply > 0.0 && ratio > 0.0
    ensures Weighs(Spam(half, left, period, shares, supply, ratio), half, left, period, shares, supply, ratio)
  {
    var p := Min(left / period, 1.0);
    DivCompare(left, 1.0, period);
    DivPos(left, period);
    DivMul(left, period);
    assert p * period == Min(left, period);
    var weight := p * half * shares;
    MulNonNeg(p, half);
    MulNonNeg(p * half, shares);
    DivPos(weight, supply);
    DivPos(weight / supply, ratio);
    var full := weight / supply / ratio;
    DivMul(weight, supply);
    DivMul(weight / supply, ratio);
    Unwound(full, ratio, supply, period, weight, weight / supply);
    assert weight * period == Min(left, period) * half * shares by {
      assert p * half * shares * period == (p * period) * half * shares;
    }
    if half < full {
      MulPos(ratio, supply);
      MulPos(ratio * supply, period);
      MulMonotone(half, full, ratio * supply * period);
      assert half * (ratio * supply * period) == half * ratio * supply * period;
      assert full * (ratio * supply * period) == full * ratio * supply * period;
    }
  }

  lemma Unwound(full: real, ratio: real, supply: real, period: real, weight: real, share: real)
    requires full * ratio == share && share * supply == weight
    ensures full * ratio * supply * period == weight * period
  {}

  /** The price a fill must beat: the fair one less, or with the pool's own fee more, a fixed cost spread over a
      fiftieth of the reserve traded against. */
  predicate BidEdgeIs(fair: real, minProfit: real, reserve: real, edge: real) {
    var base := 0.02 * reserve;
    if base > 0.0 then edge * base == fair * Max(0.0, base - minProfit) else edge == fair
  }

  predicate AskEdgeIs(fair: real, addFee: real, minProfit: real, reserve: real, ask: real, edge: real) {
    var base := 0.02 * (reserve * ask);
    if base > 0.0 then edge * (1.0 - addFee) * base == fair * (base + minProfit) else edge * (1.0 - addFee) == fair
  }

  lemma BidEdgeBeats(fair: real, minProfit: real, reserve: real)
    ensures BidEdgeIs(fair, minProfit, reserve, BidEdge(fair, FixedFraction(minProfit, Reference(reserve, 1.0))))
  {
    var base := reserve * 1.0 * 0.02;
    if base > 0.0 {
      var fixed := minProfit / base;
      DivMul(minProfit, base);
      DivCompare(minProfit, 1.0, base);
      assert Max(0.0, 1.0 - fixed) * base == Max(0.0, base - minProfit) by {
        assert (1.0 - fixed) * base == base - fixed * base;
      }
      assert fair * Max(0.0, 1.0 - fixed) * base == fair * (Max(0.0, 1.0 - fixed) * base);
    } else {
      assert fair * 1.0 == fair;
    }
  }

  lemma AskEdgeBeats(fair: real, addFee: real, minProfit: real, reserve: real, ask: real)
    requires addFee < 1.0
    ensures AskEdgeIs(fair, addFee, minProfit, reserve, ask,
                      AskEdge(fair, addFee, FixedFraction(minProfit, Reference(reserve, ask))))
  {
    var base, grossed := reserve * ask * 0.02, fair / (1.0 - addFee);
    DivMul(fair, 1.0 - addFee);
    if base > 0.0 {
      var fixed := minProfit / base;
      DivMul(minProfit, base);
      assert (1.0 + fixed) * base == base + minProfit;
      assert grossed * (1.0 + fixed) * (1.0 - addFee) * base == (grossed * (1.0 - addFee)) * ((1.0 + fixed) * base);
    }
  }

  /** Which side of the curve the end lies on says which side of the raw price the target is. */
  lemma SideOfCurve(l: Ledger, curve: Curve, target: real, end: real)
    requires Sane(l) && curve.x > 0.0 && IsEnd(l, curve, target, end)
    ensures end > curve.x ==> curve.x / l.collateral < target
    ensures end < curve.x ==> curve.x / l.collateral > target
  {
    var x, c, t := curve.x, l.collateral, target;
    Beside(x, t * c, end) by { assert x * c * t == x * (t * c); }
    DivCompare(x, t, c);
  }

  lemma Beside(x: real, y: real, end: real)
    requires x > 0.0 && end >= 0.0 && end * end == x * y
    ensures end > x ==> x < y
    ensures end < x ==> x > y
  {
    Squares(x, end);
    Squares(end, x);
    if y <= x { MulMonotone(y, x, x); Commute(y, x); }
    if y >= x { MulMonotone(x, y, x); Commute(y, x); }
  }

  /** A possible buy crosses: the executable price is below the edge. */
  lemma BuyCrosses(l: Ledger, curve: Curve, edge: real, fair: real, minProfit: real, end: real)
    requires Sane(l) && l.fee < 1.0 && curve.x > 0.0
    requires BuyPossible(l, curve, BuyTarget(l, edge), fair, minProfit, end)
    ensures BuyPrice(l, curve.x) < edge
  {
    EndOfBuy(l, curve, BuyTarget(l, edge), fair, minProfit, end);
    hide BuyPossible, IsEnd;
    SideOfCurve(l, curve, BuyTarget(l, edge), end);
    TargetIsEdge(l, curve.x, edge);
    hide BuyTarget, BuyPrice;
  }

  /** The raw price passes a target exactly when the executable price passes its edge. */
  lemma TargetIsEdge(l: Ledger, x: real, edge: real)
    requires Sane(l) && l.fee < 1.0
    ensures x / l.collateral < BuyTarget(l, edge) <==> BuyPrice(l, x) < edge
    ensures x / l.collateral > SellTarget(l, edge) <==> SellPrice(l, x) > edge
  {
    DivCompare(x / l.collateral, edge, 1.0 - l.fee);
    DivCompare(edge, x / l.collateral, 1.0 - l.fee);
  }

  lemma EndOfBuy(l: Ledger, curve: Curve, target: real, fair: real, minProfit: real, end: real)
    requires BuyPossible(l, curve, target, fair, minProfit, end)
    ensures end > curve.x && IsEnd(l, curve, target, end)
  {
    hide MayMove, IsEnd;
  }

  lemma EndOfSell(l: Ledger, curve: Curve, target: real, fair: real, minProfit: real, end: real)
    requires SellPossible(l, curve, target, fair, minProfit, end)
    ensures end < curve.x && IsEnd(l, curve, target, end)
  {
    hide MayMove, IsEnd;
  }

  lemma SellCrosses(l: Ledger, curve: Curve, edge: real, fair: real, minProfit: real, end: real)
    requires Sane(l) && l.fee < 1.0 && curve.x > 0.0
    requires SellPossible(l, curve, SellTarget(l, edge), fair, minProfit, end)
    ensures SellPrice(l, curve.x) > edge
  {
    EndOfSell(l, curve, SellTarget(l, edge), fair, minProfit, end);
    hide SellPossible, IsEnd;
    SideOfCurve(l, curve, SellTarget(l, edge), end);
    TargetIsEdge(l, curve.x, edge);
    hide SellTarget, SellPrice;
  }

  /** The whole decision: which direction has a possible fill at its edge, and which of the two is chosen. */
  ghost predicate Decides<C>(sdk: Sdk<C>, pool: Pool<C>, l: Ledger, costs: Costs, q: Quote, addFee: real, edge0: real,
                             target0: real, edge1: real, grossed: real, target1: real, d: Decision) {
    var min := costs.minProfit;
    && BidEdgeIs(q.fairBid, min, sdk.balance0(pool.core), edge0) && target0 == edge0 * (1.0 - l.fee)
    && (addFee < 1.0 ==>
          && AskEdgeIs(q.fairAsk, addFee, min, sdk.balance1(pool.core), q.ask, edge1)
          && grossed * (1.0 - addFee) == q.fairAsk && target1 * (1.0 - l.fee) == edge1)
    && (d.p2.valid <==> BuyOpen(l, q.curve, target0, q.fairBid, min))
    && (d.p2.valid ==> BuyMade(l, q.curve, target0, q.fairBid, min, d.p2))
    && (d.p1.valid <==> addFee < 1.0 && SellOpen(l, q.curve, target1, grossed, min))
    && (d.p1.valid ==> SellMade(l, q.curve, target1, grossed, min, d.p1))
    && (d.chosen == 0 <==> d.p2.valid && (d.p1.valid ==> d.p1.profit <= d.p2.profit))
    && (d.chosen == 1 <==> d.p1.valid && (d.p2.valid ==> d.p2.profit < d.p1.profit))
    && -1 <= d.chosen <= 1
  }

  lemma DecisionIsExact<C(!new)>(sdk: Sdk<C>, pool: Pool<C>, l: Ledger, price: real, ts: nat, costs: Costs)
      returns (q: Quote, addFee: real, edge0: real, target0: real, edge1: real, grossed: real, target1: real)
    requires Sound(sdk) && Sane(l) && ts >= l.rateTime
    requires MarginalQuote(sdk, pool.core, l, price, ts, costs).Some?
    ensures q == MarginalQuote(sdk, pool.core, l, price, ts, costs).value
    ensures Marks(sdk, pool.core, l, price, ts, costs, q) && AddCost(sdk, pool, ts, addFee)
    ensures Decides(sdk, pool, l, costs, q, addFee, edge0, target0, edge1, grossed, target1,
                    Decide(sdk, pool, l, price, ts, costs))
  {
    hide CurveAt, BidMark, AskMark, FairLp, AddFee, ProposeFill, FixedFraction, Reference, BidEdge, AskEdge, GrossedUp,
         BuyTarget, SellTarget, BuyPrice, SellPrice, BuyOpen, SellOpen, BuyMade, SellMade, Marks, AddCost, BidEdgeIs,
           AskEdgeIs;
    q := MarginalQuote(sdk, pool.core, l, price, ts, costs).value;
    QuoteMarks(sdk, pool.core, l, price, ts, costs);
    addFee := AddFee(sdk, pool, ts);
    AddFeeIs(sdk, pool, ts);
    var b0, b1 := sdk.balance0(pool.core), sdk.balance1(pool.core);
    edge0 := BidEdge(q.fairBid, FixedFraction(costs.minProfit, Reference(b0, 1.0)));
    BidEdgeBeats(q.fairBid, costs.minProfit, b0);
    target0 := BuyTarget(l, edge0);
    BuySide(sdk, l, q.curve, edge0, q.fairBid, costs.minProfit);
    edge1, grossed, target1 := 0.0, 0.0, 0.0;
    if addFee < 1.0 {
      edge1 := AskEdge(q.fairAsk, addFee, FixedFraction(costs.minProfit, Reference(b1, q.ask)));
      AskEdgeBeats(q.fairAsk, addFee, costs.minProfit, b1, q.ask);
      grossed, target1 := GrossedUp(q.fairAsk, addFee), SellTarget(l, edge1);
      Regrossed(q.fairAsk, addFee, edge1, l);
      SellSide(sdk, l, q.curve, edge1, grossed, costs.minProfit);
    }
  }

  lemma Regrossed(fair: real, addFee: real, edge: real, l: Ledger)
    requires addFee < 1.0 && l.fee < 1.0
    ensures GrossedUp(fair, addFee) * (1.0 - addFee) == fair && SellTarget(l, edge) * (1.0 - l.fee) == edge
  {
    DivMul(fair, 1.0 - addFee);
    DivMul(edge, 1.0 - l.fee);
  }

  lemma ValidIsMade<C(!new)>(sdk: Sdk<C>, l: Ledger, direction: nat, curve: Curve, target: real, fair: real,
                             minProfit: real)
    requires Sound(sdk) && Sane(l) && l.fee < 1.0 && curve.x > 0.0 && direction <= 1
    ensures
      var fill := ProposeFill(sdk, l, direction, curve, target, fair, minProfit);
      fill.valid ==>
        if direction == 0 then BuyMade(l, curve, target, fair, minProfit, fill)
        else SellMade(l, curve, target, fair, minProfit, fill)
  {
    hide BuyPossible, SellPossible, ProposeFill, Leaves, X0;
    if ProposeFill(sdk, l, direction, curve, target, fair, minProfit).valid {
      var end := FillIs(sdk, l, direction, curve, target, fair, minProfit);
    }
  }

  lemma BuySide<C(!new)>(sdk: Sdk<C>, l: Ledger, curve: Curve, edge: real, fair: real, minProfit: real)
    requires Sound(sdk) && Sane(l) && l.fee < 1.0 && curve.x > 0.0
    ensures BuyTarget(l, edge) == edge * (1.0 - l.fee)
    ensures BuyPrice(l, curve.x) < edge && ProposeFill(sdk, l, 0, curve, BuyTarget(l, edge), fair, minProfit).valid <==>
            BuyOpen(l, curve, BuyTarget(l, edge), fair, minProfit)
    ensures var fill := ProposeFill(sdk, l, 0, curve, BuyTarget(l, edge), fair, minProfit);
            fill.valid ==> BuyMade(l, curve, BuyTarget(l, edge), fair, minProfit, fill)
  {
    var fill := ProposeFill(sdk, l, 0, curve, BuyTarget(l, edge), fair, minProfit);
    ValidIsMade(sdk, l, 0, curve, BuyTarget(l, edge), fair, minProfit);
    hide BuyPossible, BuyMade, ProposeFill, BuyPrice, Leaves;
    ProposalIsExact(sdk, l, curve, BuyTarget(l, edge), fair, minProfit);
    forall end | BuyPossible(l, curve, BuyTarget(l, edge), fair, minProfit, end) ensures BuyPrice(l, curve.x) < edge {
      BuyCrosses(l, curve, edge, fair, minProfit, end);
    }
  }

  lemma SellSide<C(!new)>(sdk: Sdk<C>, l: Ledger, curve: Curve, edge: real, fair: real, minProfit: real)
    requires Sound(sdk) && Sane(l) && l.fee < 1.0 && curve.x > 0.0
    ensures SellPrice(l, curve.x) > edge &&
            ProposeFill(sdk, l, 1, curve, SellTarget(l, edge), fair, minProfit).valid <==>
            SellOpen(l, curve, SellTarget(l, edge), fair, minProfit)
    ensures var fill := ProposeFill(sdk, l, 1, curve, SellTarget(l, edge), fair, minProfit);
            fill.valid ==> SellMade(l, curve, SellTarget(l, edge), fair, minProfit, fill)
  {
    var fill := ProposeFill(sdk, l, 1, curve, SellTarget(l, edge), fair, minProfit);
    ValidIsMade(sdk, l, 1, curve, SellTarget(l, edge), fair, minProfit);
    hide SellPossible, SellMade, ProposeFill, SellPrice, SellTarget, Leaves;
    ProposalIsExact(sdk, l, curve, SellTarget(l, edge), fair, minProfit);
    forall end | SellPossible(l, curve, SellTarget(l, edge), fair, minProfit, end)
      ensures SellPrice(l, curve.x) > edge
    {
      SellCrosses(l, curve, edge, fair, minProfit, end);
    }
  }

  // ---------------------------------------------------------------------------------------------
  // The route

  /** The least mint asked of a donation is its discounted worth in shares, less a relative margin. */
  lemma MinMintIs(discount: real, donation: real, lpPrice: Pos)
    ensures MinMint(discount, donation, lpPrice) * lpPrice == 0.999999 * ((1.0 - discount) * donation)
  {
    DivMul((1.0 - 0.000001) * (1.0 - discount) * donation, lpPrice);
  }

  /** The donation of the interest a filled ledger can pay, when it is worth making; `core` is the pool after it. */
  ghost predicate Gift<C(!new)>(sdk: Sdk<C>, pool: Pool<C>, l: Ledger, fill: Fill, ts: nat, core: C) {
    var owed := Max(0.0, fill.debt + fill.redeemed - fill.minted);
    var balance := l.ltCash + Min(owed, fill.cash);
    if balance > 0.000001 then
      sdk.addDonation(pool, balance, 0.0, MinMint(l.ltDiscount, balance, sdk.lpPriceAt(pool.core, ts))) == Some(core)
    else core == pool.core
  }

  predicate Burns<C>(sdk: Sdk<C>, pool: Pool<C>, fill: Fill) {
    fill.direction == 0 ==>
      fill.output <= Circulating(sdk, pool.core) && sdk.removeLiquidity(pool, fill.output).Some?
  }

  ghost predicate GivesAndBurns<C(!new)>(sdk: Sdk<C>, pool: Pool<C>, l: Ledger, fill: Fill, ts: nat) {
    exists core :: Gift(sdk, pool, l, fill, ts, core) && Burns(sdk, pool.(core := core), fill)
  }

  /** What a settled route leaves: the fill's ledger at the route's time and rate, with the interest it could pay
      moved out of cash and, when it was worth a donation, given away; and the pool after the donation and the burn.
      */
  ghost predicate Settled<C(!new)>(sdk: Sdk<C>, pool: Pool<C>, l: Ledger, ts: nat, g: Legs<C>, f: Fired<C>) {
    var fill := g.fill;
    var interest := Min(Max(0.0, fill.debt + fill.redeemed - fill.minted), fill.cash);
    var balance := l.ltCash + interest;
    && f.donated == (balance > 0.000001) && f.donation == (if f.donated then balance else 0.0)
    && f.ledger == l.(debt := fill.debt, collateral := fill.collateral, cash := fill.cash - interest,
                      minted := fill.minted + interest, redeemed := fill.redeemed, rateTime := ts,
                      rateMul := f.ledger.rateMul, ltCash := if f.donated then 0.0 else balance)
    && f.ledger.rateMul == l.rateMul * (1.0 + l.rate * (ts - l.rateTime) as real)
    && f.input == fill.input && f.output == fill.output && f.profit == fill.profit
    && exists core ::
         && Gift(sdk, pool, l, fill, ts, core)
         && (f.donated ==> (f.donationMoved <==> sdk.priceScale(core) != sdk.priceScale(pool.core)))
         && (if fill.direction == 0 then sdk.removeLiquidity(pool.(core := core), fill.output) == Some(f.core)
             else f.core == core)
  }

  lemma AccrueAtOnce(l: Ledger)
    requires l.rateMul > 0.0 && l.cash >= 0.0
    ensures
      var interest := Min(Max(0.0, l.debt + l.redeemed - l.minted), l.cash);
      Accrue(l, l.rateTime) ==
        l.(minted := l.minted + interest, cash := l.cash - interest, ltCash := l.ltCash + interest)
  {
    AdvanceNow(l);
    hide AdvanceDebt;
  }

  lemma AdvanceNow(l: Ledger)
    requires l.rateMul > 0.0
    ensures AdvanceDebt(l, l.rateTime) == l
  {
    assert l.rate * 0.0 == 0.0;
    assert l.rateMul * (1.0 + 0.0) == l.rateMul;
    DivCompare(l.debt * l.rateMul, l.debt, l.rateMul);
  }

  /** The last half of a route goes through exactly when the donation is accepted, and in direction 0 the shares it
      frees can be burnt. */
  lemma SettleIsExact<C(!new)>(sdk: Sdk<C>, pool: Pool<C>, l: Ledger, ts: nat, g: Legs<C>)
    requires Sound(sdk) && Sane(l) && ts >= l.rateTime && g.fill.cash >= 0.0 && g.fill.direction <= 1
    requires g.fill.direction == 0 ==> g.fill.output > 0.0
    ensures Settle(sdk, pool, l, ts, g).Some? <==> GivesAndBurns(sdk, pool, l, g.fill, ts)
    ensures Settle(sdk, pool, l, ts, g).Some? ==> Settle(sdk, pool, l, ts, g).value.direction == g.fill.direction
    ensures Settle(sdk, pool, l, ts, g).Some? ==> Settled(sdk, pool, l, ts, g, Settle(sdk, pool, l, ts, g).value)
  {
    hide Circulating, MinMint;
    GrowthAtLeastOne(l, ts);
    var filled := ApplyFill(AdvanceDebt(l, ts), g.fill);
    AdvanceKeeps(l, ts);
    AccrueAtOnce(filled);
    hide Accrue, AdvanceDebt;
    var d := DonateInterest(sdk, pool, filled, ts);
    if d.Some? { assert Gift(sdk, pool, l, g.fill, ts, d.value.core); }
  }

  lemma AdvanceKeeps(l: Ledger, ts: nat)
    requires Sane(l) && ts >= l.rateTime
    ensures
      var a := AdvanceDebt(l, ts);
      && a == l.(debt := a.debt, rateMul := a.rateMul, rateTime := ts)
      && a.rateMul == l.rateMul * (1.0 + l.rate * (ts - l.rateTime) as real)
  {}

  /** A direction-0 route fires exactly when it is the one chosen, the ledger's collateral is the circulating shares
      give or take a hundredth, and the donation and the burn go through. */
  lemma BuyRouteIsExact<C(!new)>(sdk: Sdk<C>, pool: Pool<C>, l: Ledger, price: real, ts: nat, costs: Costs)
    requires Sound(sdk) && Sane(l)
    ensures
      var f, d := TryFire(sdk, pool, l, price, ts, costs), Decide(sdk, pool, l, price, ts, costs);
      (f.Some? && f.value.direction == 0) <==>
      (!l.killed && price > 0.0 && ts >= l.rateTime && d.chosen == 0 &&
       -0.01 <= l.collateral - Circulating(sdk, pool.core) <= 0.01 && GivesAndBurns(sdk, pool, l, d.p2, ts))
  {
    hide Decide, Settle, AddLegs, Circulating, GivesAndBurns;
    var d := Decide(sdk, pool, l, price, ts, costs);
    if !l.killed && ts >= l.rateTime && d.chosen >= 0 {
      Yb2LRoute.DecisionIsFair(sdk, pool, l, price, ts, costs);
      if d.chosen == 0 {
        var g := Legs(pool.core, d.p2, 0, 0, 0);
        SettleIsExact(sdk, pool, l, ts, g);
        assert pool.(core := pool.core) == pool;
      } else {
        MintSideSettles(sdk, pool, l, price, ts, costs, d.p1);
      }
    }
  }

  lemma MintSideSettles<C(!new)>(sdk: Sdk<C>, pool: Pool<C>, l: Ledger, price: real, ts: nat, costs: Costs, fill: Fill)
    requires Sound(sdk) && Sane(l) && ts >= l.rateTime
    ensures
      var g := AddLegs(sdk, pool, l, price, ts, costs, fill);
      g.Some? ==>
        var settled := Settle(sdk, pool.(core := g.value.core), l, ts, g.value);
        && (settled.Some? <==> GivesAndBurns(sdk, pool.(core := g.value.core), l, g.value.fill, ts))
        && (settled.Some? ==> settled.value.direction == 1)
  {
    hide Settle, Circulating, GivesAndBurns, AddLegs, Tolerance;
    var g := AddLegs(sdk, pool, l, price, ts, costs, fill);
    if g.Some? {
      Yb2LRoute.AddLegsMove(sdk, pool, l, price, ts, costs, fill);
      SettleIsExact(sdk, pool.(core := g.value.core), l, ts, g.value);
    }
  }

  /** A direction-1 route fires exactly when it is the one chosen, the gap is as small, the mint side goes through, and
      the donation is accepted. */
  lemma SellRouteIsExact<C(!new)>(sdk: Sdk<C>, pool: Pool<C>, l: Ledger, price: real, ts: nat, costs: Costs)
    requires Sound(sdk) && Sane(l)
    ensures
      var f, d := TryFire(sdk, pool, l, price, ts, costs), Decide(sdk, pool, l, price, ts, costs);
      (f.Some? && f.value.direction == 1) <==>
      (!l.killed && price > 0.0 && ts >= l.rateTime && d.chosen == 1 &&
       -0.01 <= l.collateral - Circulating(sdk, pool.core) <= 0.01 &&
       var g := AddLegs(sdk, pool, l, price, ts, costs, d.p1);
       g.Some? && GivesAndBurns(sdk, pool.(core := g.value.core), l, g.value.fill, ts))
  {
    hide Decide, Settle, AddLegs, Circulating, GivesAndBurns;
    var d := Decide(sdk, pool, l, price, ts, costs);
    if !l.killed && ts >= l.rateTime && d.chosen >= 0 {
      Yb2LRoute.DecisionIsFair(sdk, pool, l, price, ts, costs);
      ChosenAtMostOne(sdk, pool, l, price, ts, costs);
      if d.chosen == 0 {
        var g := Legs(pool.core, d.p2, 0, 0, 0);
        SettleIsExact(sdk, pool, l, ts, g);
        assert pool.(core := pool.core) == pool;
      } else {
        MintSideSettles(sdk, pool, l, price, ts, costs, d.p1);
      }
    }
  }

  lemma ChosenAtMostOne<C>(sdk: Sdk<C>, pool: Pool<C>, l: Ledger, price: real, ts: nat, costs: Costs)
    requires l.levRatio > 0.0 && l.rateMul > 0.0
    ensures -1 <= Decide(sdk, pool, l, price, ts, costs).chosen <= 1
  {
    hide MarginalQuote, AddFee, ProposeFill;
  }

  const BINARY64 := 0.00000000000000022204460492503131

  /** Within a billionth of the target, or of one share, in binary64 terms. */
  predicate Close(minted: real, target: real) {
    var gap := if minted >= target then minted - target else target - minted;
    gap <= 0.000000001 * target || gap <= 64.0 * BINARY64 || gap <= 64.0 * BINARY64 * target
  }

  /** What a mint that missed its target is put right by: another of the shortfall that brings it close, or a burn of
      the excess. */
  predicate Corrects<C>(sdk: Sdk<C>, mid: Pool<C>, target: real, minted: real) {
    if Close(minted, target) then true
    else if minted < target then
      var more := AddToMint(sdk, mid, target - minted);
      more.Some? && Close(minted + more.value.minted, target)
    else minted - target <= Circulating(sdk, mid.core) && sdk.removeLiquidity(mid, minted - target).Some?
  }

  /** The mint side goes through exactly when the first add comes close, the decision on the changed pool is still
      direction 1, and the mint can be corrected to its input. */
  lemma MintSideIsExact<C(!new)>(sdk: Sdk<C>, pool: Pool<C>, l: Ledger, price: real, ts: nat, costs: Costs, fill: Fill)
    requires Sound(sdk) && Sane(l)
    ensures
      AddLegs(sdk, pool, l, price, ts, costs, fill).Some? <==>
      var first := AddToMint(sdk, pool, fill.input);
      first.Some? && Close(first.value.minted, fill.input) &&
      var mid := pool.(core := first.value.core);
      var again := Decide(sdk, mid, l, price, ts, costs);
      again.chosen == 1 && Corrects(sdk, mid, again.p1.input, first.value.minted)
  {
    hide AddToMint, Decide, Circulating, Close, Tolerance;
    var first := AddToMint(sdk, pool, fill.input);
    if first.Some? {
      CloseIs(first.value.minted, fill.input);
      var mid := pool.(core := first.value.core);
      var again := Decide(sdk, mid, l, price, ts, costs);
      ChosenIsValid(sdk, mid, l, price, ts, costs);
      CloseIs(first.value.minted, again.p1.input);
      CloseIs(again.p1.input, again.p1.input);
      var more := AddToMint(sdk, mid, again.p1.input - first.value.minted);
      if more.Some? { CloseIs(first.value.minted + more.value.minted, again.p1.input); }
      Yb2LRoute.TolerancePos(again.p1.input);
    }
  }

  lemma ChosenIsValid<C>(sdk: Sdk<C>, pool: Pool<C>, l: Ledger, price: real, ts: nat, costs: Costs)
    requires l.levRatio > 0.0 && l.rateMul > 0.0
    ensures Decide(sdk, pool, l, price, ts, costs).chosen == 1 ==> Decide(sdk, pool, l, price, ts, costs).p1.valid
  {
    hide MarginalQuote, AddFee, ProposeFill;
  }

  lemma CloseIs(minted: real, target: real)
    ensures Close(minted, target) <==> Abs(minted - target) <= Tolerance(target)
  {}
}
