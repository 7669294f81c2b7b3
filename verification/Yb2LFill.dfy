/** The closed-form fill is the best XYK fill in its direction. */
module Yb2LFill {
  import opened Algebra
  import opened PoolSdk
  import opened Yb2L

  /** Profit of bringing stable until the x-reserve is `end`: LP received after the fee, valued at
      `edge`, less stable paid. The product of the reserves (x, c) is kept before the fee. */
  function BuyProfit(x: real, c: real, factor: real, edge: real, end: real): real
    requires end != 0.0
  {
    (c - x * c / end) * factor * edge - (end - x)
  }

  /** Profit of bringing LP until the collateral reserve is `end`: stable received after the fee, less
      LP paid, valued at `edge`. */
  function SellProfit(x: real, c: real, factor: real, edge: real, end: real): real
    requires end != 0.0
  {
    (x - x * c / end) * factor - (end - c) * edge
  }

  /** Moving a reserve from `end` to `best` on a curve: `u` is the other reserve's worth at `end`, where
      its worth at `best` is `best` itself. */
  lemma CompleteSquare(u: real, end: real, best: real)
    requires u * end == best * best
    ensures (u + end - 2.0 * best) * end == Square(end - best)
  {
    SquareIs(end - best);
    assert (u + end - 2.0 * best) * end == u * end + end * end - 2.0 * (best * end);
    assert (end - best) * (end - best) == end * end - 2.0 * (best * end) + best * best;
  }

  lemma Reassociate(a: real, b: real, c: real)
    ensures (a * b) * c == (a * c) * b
  {}

  /** How far any other end point falls short of the optimum: exactly its squared distance over itself. */
  lemma BuyShortfall(x: real, c: real, factor: real, edge: real, root: real, end: real)
    requires x > 0.0 && c > 0.0 && factor > 0.0 && edge > 0.0 && root > 0.0 && end > 0.0
    requires root * root == x * c * (edge * factor)
    ensures BuyProfit(x, c, factor, edge, root) - BuyProfit(x, c, factor, edge, end) == Square(end - root) / end
  {
    var inv, t := x * c, edge * factor;
    var y, k := inv / end, inv / root;
    Worth(inv, t, root, y, end);
    Worth(inv, t, root, k, root);
    Cancel(k * t, root, root);
    CompleteSquare(y * t, end, root);
    BuyDifference(x, c, factor, edge, t, y, k, end, root);
    Cancel(y * t + end - 2.0 * root, Square(end - root) / end, end);
  }

  lemma Worth(inv: real, t: real, root: real, y: real, end: real)
    requires y * end == inv && root * root == inv * t
    ensures (y * t) * end == root * root
  {
    Reassociate(y, t, end);
  }

  lemma BuyDifference(x: real, c: real, factor: real, edge: real, t: real, y: real, k: real, end: real, root: real)
    requires t == edge * factor && k * t == root
    ensures ((c - k) * factor * edge - (root - x)) - ((c - y) * factor * edge - (end - x)) == y * t + end - 2.0 * root
  {
    assert (c - k) * factor * edge == c * t - k * t;
    assert (c - y) * factor * edge == c * t - y * t;
  }

  lemma RootsMeet(inv: real, factor: real, edge: real, best: real, end: real, y: real, u: real)
    requires edge > 0.0 && best * best * edge == inv * factor && y * end == inv && u * edge == y * factor
    ensures u * end == best * best
  {
    Reassociate(y, factor, end);
    Reassociate(u, end, edge);
    Cancel(u * end, best * best, edge);
  }

  lemma SellShortfall(x: real, c: real, factor: real, edge: real, best: real, end: real)
    requires x > 0.0 && c > 0.0 && factor > 0.0 && edge > 0.0 && best > 0.0 && end > 0.0
    requires best * best * edge == x * c * factor
    ensures SellProfit(x, c, factor, edge, best) - SellProfit(x, c, factor, edge, end) ==
            edge * Square(end - best) / end
  {
    var inv := x * c;
    var y, k := inv / end, inv / best;
    var u := y * factor / edge;      // x left at `end`, in LP at the edge price
    DivMul(y * factor, edge);
    DivMul(inv, end);
    DivMul(inv, best);
    RootsMeet(inv, factor, edge, best, end, y, u);
    assert k * factor == best * edge by {
      Reassociate(k, factor, best);
      Reassociate(best, edge, best);
      Cancel(k * factor, best * edge, best);
    }
    CompleteSquare(u, end, best);
    SellDifference(x, c, factor, edge, u, y, k, end, best);
    var gap := (u + end - 2.0 * best) * edge;
    Reassociate(u + end - 2.0 * best, edge, end);
    Cancel(gap, edge * Square(end - best) / end, end);
  }

  lemma SellDifference(x: real, c: real, factor: real, edge: real, u: real, y: real, k: real, end: real, best: real)
    requires k * factor == best * edge && u * edge == y * factor
    ensures ((x - k) * factor - (best - c) * edge) - ((x - y) * factor - (end - c) * edge) ==
            (u + end - 2.0 * best) * edge
  {
    assert (x - k) * factor == x * factor - k * factor;
    assert (x - y) * factor == x * factor - y * factor;
    assert (best - c) * edge == best * edge - c * edge;
    assert (end - c) * edge == end * edge - c * edge;
  }

  /** The reserve product kept at the target, in both coordinates. */
  lemma TargetOnCurve(inv: real, target: real, xTarget: real)
    requires inv > 0.0 && target > 0.0 && xTarget >= 0.0 && xTarget * xTarget == inv * target
    ensures xTarget > 0.0
    ensures xTarget / target > 0.0
    ensures inv / xTarget == xTarget / target
    ensures xTarget * (xTarget / target) == inv
    ensures inv / (xTarget / target) == xTarget
    ensures (xTarget / target) * (xTarget / target) * target == inv
  {
    MulPos(inv, target);
    var c := xTarget / target;
    assert c * target == xTarget;
    DivPos(xTarget, target);
    assert xTarget * c == inv by {
      assert (xTarget * c) * target == inv * target;
      DivCompare(inv * target, xTarget * c, target);
      DivCompare(inv * target, inv, target);
    }
    DivCompare(inv, c, xTarget);
    DivCompare(inv, xTarget, c);
    assert c * c * target == c * xTarget;
  }

  /** `end` earns strictly more than every other size. */
  ghost predicate BestBuy(x: real, c: real, factor: real, edge: real, end: real)
    requires end > 0.0
  {
    forall other: Pos :: other != end ==> BuyProfit(x, c, factor, edge, other) < BuyProfit(x, c, factor, edge, end)
  }

  ghost predicate BestSell(x: real, c: real, factor: real, edge: real, end: real)
    requires end > 0.0
  {
    forall other: Pos :: other != end ==> SellProfit(x, c, factor, edge, other) < SellProfit(x, c, factor, edge, end)
  }

  lemma SquaredDistance(d: real, a: real, weight: real)
    requires a > 0.0 && d != 0.0 && weight > 0.0
    ensures Square(d) / a > 0.0 && weight * Square(d) / a > 0.0
  {
    hide Square;
    MulPos(weight, Square(d));
    DivPos(Square(d), a);
    DivPos(weight * Square(d), a);
  }

  lemma BuyGeometry(x: real, c: real, factor: real, edge: real, target: real, end: real)
    requires x > 0.0 && c > 0.0 && factor > 0.0 && target > 0.0 && end >= 0.0
    requires target == edge * factor && end * end == x * c * target
    ensures end > 0.0 && end / target > 0.0
    ensures x * c / end == end / target && end * (end / target) == x * c && end / (end / target) == target
    ensures BestBuy(x, c, factor, edge, end)
  {
    hide BuyProfit;
    MulPos(x, c);
    TargetOnCurve(x * c, target, end);
    if edge <= 0.0 { MulNonNeg(-edge, factor); }
    DivCompare(end, target, end / target);
    DivMul(end, target);
    forall other: Pos | other != end ensures BuyProfit(x, c, factor, edge, other) < BuyProfit(x, c, factor, edge, end) {
      BuyShortfall(x, c, factor, edge, end, other);
      SquaredDistance(other - end, other, 1.0);
    }
  }

  lemma SellGeometry(x: real, c: real, factor: real, edge: real, target: real, end: real)
    requires x > 0.0 && c > 0.0 && factor > 0.0 && target > 0.0 && end >= 0.0
    requires edge == target * factor && end * end == x * c * target
    ensures end > 0.0 && end / target > 0.0
    ensures x * c / (end / target) == end && (end / target) * end == x * c && end / (end / target) == target
    ensures BestSell(x, c, factor, edge, end / target)
  {
    hide SellProfit;
    MulPos(x, c);
    TargetOnCurve(x * c, target, end);
    MulPos(target, factor);
    var best := end / target;
    DivCompare(end, target, best);
    DivMul(end, target);
    assert best * best * edge == x * c * factor by {
      assert best * best * edge == (best * best * target) * factor;
    }
    forall other: Pos | other != best
      ensures SellProfit(x, c, factor, edge, other) < SellProfit(x, c, factor, edge, best)
    {
      SellShortfall(x, c, factor, edge, best, other);
      SquaredDistance(other - best, other, edge);
    }
  }

  /** A direction-0 fill at entry edge `edge` moves along the curve from (x, c), pays the fee out of its output,
      ends where the fee-adjusted price is the edge, and earns more there than any other size would. */
  ghost predicate OptimalBuy(x: real, c: real, fee: real, edge: real, fill: Fill) {
    var end := x + fill.input;
    && fill.input > 0.0 && fill.output > 0.0 && end > 0.0
    && var left := x * c / end;
       && end * left == x * c
       && fill.output == (c - left) * (1.0 - fee)
       && 0.0 < left <= fill.collateral
       && end / left == edge * (1.0 - fee)
       && BestBuy(x, c, 1.0 - fee, edge, end)
  }

  ghost predicate OptimalSell(x: real, c: real, fee: real, edge: real, fill: Fill) {
    var end := c + fill.input;
    && fill.input > 0.0 && fill.output > 0.0 && end > 0.0
    && var left := x * c / end;
       && end * left == x * c
       && fill.output == (x - left) * (1.0 - fee)
       && left > 0.0 && fill.collateral == end
       && left / end * (1.0 - fee) == edge
       && BestSell(x, c, 1.0 - fee, edge, end)
  }

  lemma BuyOptimal(x: real, c: real, fee: real, edge: real, target: real, end: real, fill: Fill)
    requires x > 0.0 && c > 0.0 && 0.0 <= fee < 1.0 && target > 0.0 && end >= 0.0
    requires target == edge * (1.0 - fee) && end * end == x * c * target
    requires end / target < c && fill.output == (c - end / target) * (1.0 - fee)
    requires fill.input == end - x && fill.input > 0.0 && fill.output > 0.0 && fill.collateral == c - fill.output
    ensures OptimalBuy(x, c, fee, edge, fill)
  {
    hide BestBuy;
    BuyGeometry(x, c, 1.0 - fee, edge, target, end);
    KeptByFee(c, end / target, fee, fill.output);
    assert x + fill.input == end;
  }

  lemma SellOptimal(x: real, c: real, fee: real, edge: real, target: real, end: real, fill: Fill)
    requires x > 0.0 && c > 0.0 && 0.0 <= fee < 1.0 && target > 0.0 && end >= 0.0
    requires edge == target * (1.0 - fee) && end * end == x * c * target
    requires fill.output == (x - end) * (1.0 - fee)
    requires fill.input == end / target - c && fill.input > 0.0 && fill.output > 0.0 &&
             fill.collateral == c + fill.input
    ensures OptimalSell(x, c, fee, edge, fill)
  {
    hide BestSell;
    SellGeometry(x, c, 1.0 - fee, edge, target, end);
    assert c + fill.input == end / target;
  }

  lemma BuyFillIsOptimal<C(!new)>(sdk: Sdk<C>, l: Ledger, curve: Curve, edge: real, fair: real, minProfit: real)
    requires Sound(sdk) && Sane(l) && l.fee < 1.0 && curve.x > 0.0
    requires ProposeFill(sdk, l, 0, curve, BuyTarget(l, edge), fair, minProfit).valid
    ensures OptimalBuy(curve.x, l.collateral, l.fee, edge,
                       ProposeFill(sdk, l, 0, curve, BuyTarget(l, edge), fair, minProfit))
  {
    hide ProposeFill, EndReserve, OptimalBuy;
    var target := BuyTarget(l, edge);
    VettedLegs(sdk, l, 0, curve, target, fair, minProfit);
    EndReserveRoot(sdk, curve.x, l.collateral, target);
    BuyOptimal(curve.x, l.collateral, l.fee, edge, target, EndReserve(sdk, curve.x, l.collateral, target),
               ProposeFill(sdk, l, 0, curve, target, fair, minProfit));
  }

  lemma SellFillIsOptimal<C(!new)>(sdk: Sdk<C>, l: Ledger, curve: Curve, edge: real, fair: real, minProfit: real)
    requires Sound(sdk) && Sane(l) && l.fee < 1.0 && curve.x > 0.0
    requires ProposeFill(sdk, l, 1, curve, SellTarget(l, edge), fair, minProfit).valid
    ensures OptimalSell(curve.x, l.collateral, l.fee, edge,
                        ProposeFill(sdk, l, 1, curve, SellTarget(l, edge), fair, minProfit))
  {
    hide ProposeFill, EndReserve, OptimalSell;
    var target := SellTarget(l, edge);
    DivMul(edge, 1.0 - l.fee);
    VettedLegs(sdk, l, 1, curve, target, fair, minProfit);
    EndReserveRoot(sdk, curve.x, l.collateral, target);
    SellOptimal(curve.x, l.collateral, l.fee, edge, target, EndReserve(sdk, curve.x, l.collateral, target),
                ProposeFill(sdk, l, 1, curve, target, fair, minProfit));
  }

  lemma KeptByFee(c: real, left: real, fee: real, output: real)
    requires left < c && 0.0 <= fee && output == (c - left) * (1.0 - fee)
    ensures left <= c - output
  {
    MulNonNeg(c - left, fee);
    assert c - output == left + (c - left) * fee;
  }

  lemma EndReserveRoot<C(!new)>(sdk: Sdk<C>, x: real, c: real, target: real)
    requires Sound(sdk) && x > 0.0 && c > 0.0 && target > 0.0
    ensures EndReserve(sdk, x, c, target) * EndReserve(sdk, x, c, target) == x * c * target
  {
    MulPos(x, c);
    MulPos(x * c, target);
    var v: NonNeg := x * c * target;
    assert sdk.sqrt(v) * sdk.sqrt(v) == v;
  }

  /** What a valid proposal's legs are. */
  lemma VettedLegs<C>(sdk: Sdk<C>, l: Ledger, direction: nat, curve: Curve, target: real, fair: real, minProfit: real)
    requires Sane(l) && l.fee < 1.0 && curve.x > 0.0 && direction <= 1
    requires ProposeFill(sdk, l, direction, curve, target, fair, minProfit).valid
    ensures target > 0.0 && fair > 0.0
    ensures
      var fill := ProposeFill(sdk, l, direction, curve, target, fair, minProfit);
      var end := EndReserve(sdk, curve.x, l.collateral, target);
      && fill.direction == direction && fill.input > 0.0 && fill.output > 0.0 && fill.profit > minProfit
      && (direction == 0 ==>
            && end > curve.x && end / target < l.collateral
            && fill.input == end - curve.x && fill.output == (l.collateral - end / target) * (1.0 - l.fee)
            && fill.collateral == l.collateral - fill.output && fill.profit == fill.output * fair - fill.input)
      && (direction == 1 ==>
            && end < curve.x && end / target > l.collateral
            && fill.input == end / target - l.collateral && fill.output == (curve.x - end) * (1.0 - l.fee)
            && fill.collateral == l.collateral + fill.input && fill.profit == fill.output - fill.input * fair)
  {
    hide EndReserve, X0, ChecksSafety, Pending;
  }

  /** Whatever the full decision proposes is optimal at its own entry edge, and it picks the better proposal. */
  lemma DecisionIsOptimal<C(!new)>(sdk: Sdk<C>, pool: Pool<C>, l: Ledger, price: real, ts: nat, costs: Costs)
    requires Sound(sdk) && Sane(l)
    requires Decide(sdk, pool, l, price, ts, costs).chosen >= 0
    ensures
      var d := Decide(sdk, pool, l, price, ts, costs);
      var q := MarginalQuote(sdk, pool.core, l, price, ts, costs).value;
      && (d.chosen == 0 ==> d.p2.valid && (d.p1.valid ==> d.p1.profit <= d.p2.profit))
      && (d.chosen == 1 ==> d.p1.valid && (d.p2.valid ==> d.p2.profit < d.p1.profit))
      && (d.p2.valid ==>
            OptimalBuy(q.curve.x, l.collateral, l.fee,
                       BidEdge(q.fairBid, FixedFraction(costs.minProfit, Reference(sdk.balance0(pool.core), 1.0))),
                       d.p2))
      && (d.p1.valid ==>
            AddFee(sdk, pool, ts) < 1.0 &&
            OptimalSell(q.curve.x, l.collateral, l.fee,
                        AskEdge(q.fairAsk, AddFee(sdk, pool, ts),
                                FixedFraction(costs.minProfit, Reference(sdk.balance1(pool.core), q.ask))), d.p1))
  {
    hide CurveAt, BidMark, AskMark, FairLp, BuyPrice, SellPrice, AddFee, ProposeFill, FixedFraction, Reference,
         BidEdge, AskEdge, GrossedUp, BuyTarget, SellTarget, OptimalBuy, OptimalSell;
    var d := Decide(sdk, pool, l, price, ts, costs);
    var q := MarginalQuote(sdk, pool.core, l, price, ts, costs).value;
    if d.p2.valid {
      BuyFillIsOptimal(sdk, l, q.curve,
                       BidEdge(q.fairBid, FixedFraction(costs.minProfit, Reference(sdk.balance0(pool.core), 1.0))),
                       q.fairBid, costs.minProfit);
    }
    if d.p1.valid {
      SellFillIsOptimal(sdk, l, q.curve,
                        AskEdge(q.fairAsk, AddFee(sdk, pool, ts),
                                FixedFraction(costs.minProfit, Reference(sdk.balance1(pool.core), q.ask))),
                        GrossedUp(q.fairAsk, AddFee(sdk, pool, ts)), costs.minProfit);
    }
  }
}
