/** What the invariant x0 of the leveraged curve is, and what the constants around it mean. */
module Yb2LInvariant {
  import opened Algebra
  import opened PoolSdk
  import opened Wrappers
  import opened Yb2L

  /** The quadratic of the invariant for collateral worth `value`, and its slope. */
  function Quadratic(lev: real, value: real, debt: real, x: real): real {
    lev * (x * x) - value * x + value * debt
  }

  function Value(oracle: real, collateral: real): real { oracle * collateral }

  function Slope(lev: real, value: real, x: real): real { 2.0 * lev * x - value }

  /** Twice the leverage ratio times a root is the value plus or minus the discriminant's root. */
  lemma Completed(lev: real, value: real, debt: real, x: real)
    ensures 4.0 * lev * Quadratic(lev, value, debt, x) ==
            Square(Slope(lev, value, x)) - (value * value - 4.0 * value * lev * debt)
  {
    var y := lev * x;
    SquareIs(2.0 * lev * x - value);
    assert 2.0 * lev * x == 2.0 * y;
    assert (2.0 * y - value) * (2.0 * y - value) == 4.0 * (y * y) - 4.0 * (y * value) + value * value;
    assert 4.0 * lev * (lev * (x * x)) == 4.0 * (y * y) by { assert lev * (lev * (x * x)) == y * y; }
    assert 4.0 * lev * (value * x) == 4.0 * (y * value) by { assert lev * (value * x) == y * value; }
    assert 4.0 * lev * (value * debt) == 4.0 * value * lev * debt;
    Spread(4.0 * lev, lev * (x * x), value * x, value * debt);
  }

  lemma Spread(c: real, p: real, q: real, r: real)
    ensures c * (p - q + r) == c * p - c * q + c * r
  {}

  /** x0 is the larger root of its quadratic: it solves it, where the slope is not negative. */
  lemma X0Solves<C(!new)>(sdk: Sdk<C>, l: Ledger, oracle: real, collateral: real, debt: real, safe: bool)
    requires Sound(sdk) && l.levRatio > 0.0
    requires X0(sdk, l, oracle, collateral, debt, safe).Some?
    ensures
      var x0, value := X0(sdk, l, oracle, collateral, debt, safe).value, Value(oracle, collateral);
      Quadratic(l.levRatio, value, debt, x0) == 0.0 && Slope(l.levRatio, value, x0) >= 0.0
  {
    var lev, value := l.levRatio, Value(oracle, collateral);
    var disc: NonNeg := Discriminant(l, value, debt);
    var root: real := sdk.sqrt(disc);
    assert root * root == disc;
    var x0 := LargerRoot(l, value, root);
    DivMul(value + root, 2.0 * lev);
    assert Slope(lev, value, x0) == root;
    hide Slope, Quadratic;
    Completed(lev, value, debt, x0);
    SquareIs(root);
    NoFactor(4.0 * lev, Quadratic(lev, value, debt, x0));
  }

  lemma NoFactor(c: real, q: real)
    requires c > 0.0 && c * q == 0.0
    ensures q == 0.0
  {
    Commute(c, q);
    assert 0.0 * c == 0.0;
    Cancel(q, 0.0, c);
  }

  /** Every solution is at most x0. */
  lemma X0IsLargest<C(!new)>(sdk: Sdk<C>, l: Ledger, oracle: real, collateral: real, debt: real, safe: bool, x: real)
    requires Sound(sdk) && l.levRatio > 0.0
    requires X0(sdk, l, oracle, collateral, debt, safe).Some?
    requires Quadratic(l.levRatio, Value(oracle, collateral), debt, x) == 0.0
    ensures x <= X0(sdk, l, oracle, collateral, debt, safe).value
  {
    var lev, value := l.levRatio, Value(oracle, collateral);
    var x0 := X0(sdk, l, oracle, collateral, debt, safe).value;
    X0Solves(sdk, l, oracle, collateral, debt, safe);
    Completed(lev, value, debt, x);
    Completed(lev, value, debt, x0);
    var a, b := Slope(lev, value, x), Slope(lev, value, x0);
    SquareIs(a);
    SquareIs(b);
    hide X0, Quadratic, Square;
    assert 4.0 * lev * 0.0 == 0.0;
    assert a * a == b * b;
    if x > x0 {
      MulStrict(x0, x, 2.0 * lev);
      Commute(x0, 2.0 * lev);
      Commute(x, 2.0 * lev);
      Squares(a, b);
    }
  }

  ghost predicate Solvable(lev: real, value: real, debt: real) { exists x :: Quadratic(lev, value, debt, x) == 0.0 }

  /** Outside the safety test, x0 is undefined exactly when there is no collateral value, the debt is negative, or no
      number solves the quadratic. */
  lemma X0Exists<C(!new)>(sdk: Sdk<C>, l: Ledger, oracle: real, collateral: real, debt: real)
    requires Sound(sdk) && l.levRatio > 0.0
    ensures X0(sdk, l, oracle, collateral, debt, false).Some? <==>
            Value(oracle, collateral) > 0.0 && collateral > 0.0 && debt >= 0.0 &&
            Solvable(l.levRatio, Value(oracle, collateral), debt)
  {
    var lev, value := l.levRatio, Value(oracle, collateral);
    if X0(sdk, l, oracle, collateral, debt, false).Some? {
      X0Solves(sdk, l, oracle, collateral, debt, false);
      assert Quadratic(lev, value, debt, X0(sdk, l, oracle, collateral, debt, false).value) == 0.0;
    } else if Solvable(lev, value, debt) {
      var x :| Quadratic(lev, value, debt, x) == 0.0;
      Completed(lev, value, debt, x);
      assert 4.0 * lev * 0.0 == 0.0;
      hide Quadratic, Square;
    }
  }

  /** With debt at half the collateral's value, and at a leverage of two, the curve's raw price is the oracle's. */
  lemma AtTarget<C(!new)>(sdk: Sdk<C>, l: Ledger, oracle: real, collateral: real)
    requires Sound(sdk) && l.levRatio == 4.0 / 9.0 && oracle > 0.0 && collateral > 0.0
    ensures
      var value := oracle * collateral;
      var x0 := X0(sdk, l, oracle, collateral, value / 2.0, false);
      && x0.Some? && x0.value - value / 2.0 == value && (x0.value - value / 2.0) / collateral == oracle
  {
    var value := oracle * collateral;
    MulPos(oracle, collateral);
    var disc := Discriminant(l, value, value / 2.0);
    assert disc == (value / 3.0) * (value / 3.0);
    var third: NonNeg := value / 3.0;
    MulNonNeg(third, third);
    RootOfSquare(sdk, disc, third);
    DivCompare(value, oracle, collateral);
  }

  lemma RootOfSquare<C(!new)>(sdk: Sdk<C>, square: NonNeg, root: NonNeg)
    requires Sound(sdk) && square == root * root
    ensures sdk.sqrt(square) == root
  {
    var r: real := sdk.sqrt(square);
    assert r * r == square;
    Squares(r, root);
    Squares(root, r);
  }

  /** At a leverage of two, debt within the safety bounds always has an invariant, and so has the target's. */
  lemma SafeHasInvariant<C>(sdk: Sdk<C>, l: Ledger, oracle: real, collateral: real, debt: real)
    requires l.levRatio == 4.0 / 9.0 && l.minSafe == 1.0 / 16.0 && l.maxSafe == 17.0 / 32.0
    requires oracle * collateral > 0.0 && collateral > 0.0
    ensures
      var value := oracle * collateral;
      && (X0(sdk, l, oracle, collateral, debt, true).Some? <==> value / 16.0 <= debt <= value * 17.0 / 32.0)
      && X0(sdk, l, oracle, collateral, value / 2.0, true).Some?
  {
    var value := oracle * collateral;
    Roomy(l, value, debt);
    Roomy(l, value, value / 2.0);
    hide Discriminant;
  }

  lemma Roomy(l: Ledger, value: real, debt: real)
    requires l.levRatio == 4.0 / 9.0 && value > 0.0
    ensures 0.0 <= debt <= value * 17.0 / 32.0 ==> Discriminant(l, value, debt) >= 0.0
  {
    assert Discriminant(l, value, debt) == value * (value - 16.0 / 9.0 * debt);
    if 0.0 <= debt <= value * 17.0 / 32.0 { MulNonNeg(value, value - 16.0 / 9.0 * debt); }
  }

  /** The LP oracle is twice the virtual price at the geometric mean of the coins' prices, in the seeded stable. */
  lemma OracleIs<C(!new)>(sdk: Sdk<C>, core: C, l: Ledger)
    requires Sound(sdk)
    ensures
      var mean := LpOracle(sdk, core, l) * LpOracle(sdk, core, l);
      var whole := 2.0 * sdk.virtualPrice(core) * l.aggregator;
      mean == whole * whole * sdk.priceScale(core)
    ensures l.aggregator >= 0.0 ==> LpOracle(sdk, core, l) >= 0.0
  {
    var root: real := sdk.sqrt(sdk.priceScale(core));
    assert root * root == sdk.priceScale(core);
    var whole := 2.0 * sdk.virtualPrice(core) * l.aggregator;
    assert LpOracle(sdk, core, l) == whole * root;
    assert (whole * root) * (whole * root) == whole * whole * (root * root);
    if l.aggregator >= 0.0 {
      MulNonNeg(2.0 * sdk.virtualPrice(core), l.aggregator);
      MulNonNeg(whole, root);
    }
  }

  /** A fresh ledger borrows half the pool's value at its own price against all circulating shares, holds the configured
      multiple of that in cash, pays in a year the donation rate of that value, and targets a leverage of two. */
  lemma FreshIs<C>(sdk: Sdk<C>, core: C, apy: real, fee: real, ts: nat, multiplier: real)
    requires apy >= 0.0 && Fresh(sdk, core, apy, fee, ts, multiplier).Some?
    ensures
      var l := Fresh(sdk, core, apy, fee, ts, multiplier).value;
      var tvl := sdk.balance0(core) + sdk.balance1(core) * sdk.priceScale(core);
      && 2.0 * l.debt == tvl && l.collateral == Circulating(sdk, core) && l.cash == l.debt * multiplier &&
         l.ltCash == 0.0
      && l.rateMul > 0.0 && ProjectedDebt(l, ts + 31536000) - l.debt == apy * tvl
      && l.levRatio == 4.0 / 9.0 && l.minSafe == 1.0 / 16.0 && l.maxSafe == 17.0 / 32.0
      && l.fee == fee && l.rateTime == ts && l.minted == l.debt && l.redeemed == 0.0 && !l.killed && l.aggregator == 1.0
      && l.ltDiscount == 0.01
  {
    var tvl := sdk.balance0(core) + sdk.balance1(core) * sdk.priceScale(core);
    var l := Fresh(sdk, core, apy, fee, ts, multiplier).value;
    MulNonNeg(apy, tvl);
    DivPos(apy * tvl, l.debt);
    GrowthAtLeastOne(l, ts + 31536000);
    YearOfInterest(apy * tvl, l.debt, l.rate);
  }

  lemma YearOfInterest(interest: real, debt: real, rate: real)
    requires debt > 0.0 && rate == interest / debt / (365.0 * 86400.0)
    ensures debt * (1.0 + rate * 31536000.0) - debt == interest
  {
    DivMul(interest, debt);
    assert rate * 31536000.0 == interest / debt;
    assert debt * (1.0 + rate * 31536000.0) == debt + (rate * 31536000.0) * debt;
  }

  lemma FreshExists<C>(sdk: Sdk<C>, core: C, apy: real, fee: real, ts: nat, multiplier: real)
    ensures
      Fresh(sdk, core, apy, fee, ts, multiplier).Some? <==>
      && sdk.balance0(core) + sdk.balance1(core) * sdk.priceScale(core) > 0.0 && Circulating(sdk, core) > 0.0
      && 0.0 <= fee <= 1.0 && multiplier > 0.0
  {}

  /** A historical state is accepted exactly when its quantities and times make sense. */
  lemma CheckpointExists(c: Checkpoint)
    ensures
      FromCheckpoint(c).Some? <==>
      && 0 < c.rateTime <= c.sourceTs && c.leverage == 2.0
      && c.collateral > 0.0 && c.debt > 0.0 && c.rateMul > 0.0 && c.aggregator > 0.0
      && c.rate >= 0.0 && c.minted >= 0.0 && c.redeemed >= 0.0 && c.cash >= 0.0 && c.ltCash >= 0.0
      && 0.0 <= c.fee <= 1.0 && 0.0 <= c.ltDiscount <= 1.0
  {}

  /** A historical ledger keeps what it recorded. */
  lemma CheckpointIs(c: Checkpoint)
    requires FromCheckpoint(c).Some?
    ensures
      var l := FromCheckpoint(c).value;
      && l.fee == c.fee && l.collateral == c.collateral && l.debt == c.debt && l.rate == c.rate &&
         l.rateMul == c.rateMul
      && l.rateTime == c.rateTime && l.minted == c.minted && l.redeemed == c.redeemed && l.cash == c.cash
      && l.ltCash == c.ltCash && l.killed == c.killed && l.aggregator == c.aggregator && l.ltDiscount == c.ltDiscount
  {}
}
