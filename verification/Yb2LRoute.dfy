/** What every committed route, and every run of attempts, keeps. */
module Yb2LRoute {
  import opened Algebra
  import opened PoolSdk
  import opened Wrappers
  import opened Yb2L

  /** Debt plus both cash balances: the coin-0 side of the ledger. */
  function Holdings(l: Ledger): real { l.debt + l.cash + l.ltCash }

  /** Ledger collateral against the LP shares that are really outstanding. */
  function Gap<C>(sdk: Sdk<C>, core: C, l: Ledger): real { l.collateral - Circulating(sdk, core) }

  // ---------------------------------------------------------------------------------------------
  // Fills

  /** A valid fill of `l` on `curve` moves debt and cash by exactly opposite amounts and keeps both
      nonnegative, keeps pending interest, and never lowers the invariant x0. */
  ghost predicate FairFill<C>(sdk: Sdk<C>, l: Ledger, curve: Curve, fill: Fill)
    requires l.levRatio > 0.0
  {
    && fill.valid && fill.input > 0.0 && fill.output > 0.0 && fill.direction <= 1
    && fill.debt - curve.debt == -(fill.cash - l.cash)
    && Abs(fill.debt - curve.debt) == (if fill.direction == 0 then fill.input else fill.output)
    && fill.debt >= 0.0 && fill.cash >= 0.0 && fill.collateral > 0.0
    && fill.collateral == (if fill.direction == 0 then l.collateral - fill.output else l.collateral + fill.input)
    && Pending(fill.debt, fill.minted, fill.redeemed) == Pending(curve.debt, l.minted, l.redeemed)
    && X0(sdk, l, curve.oracle, fill.collateral, fill.debt, false).Some?
    && X0(sdk, l, curve.oracle, fill.collateral, fill.debt, false).value >= curve.x0
  }

  lemma ProposalIsFair<C>(sdk: Sdk<C>, l: Ledger, direction: nat, curve: Curve, target: real, fair: real,
                          minProfit: real)
    requires Sane(l) && l.fee < 1.0 && curve.x > 0.0 && curve.debt >= 0.0 && direction <= 1
    requires ProposeFill(sdk, l, direction, curve, target, fair, minProfit).valid
    ensures FairFill(sdk, l, curve, ProposeFill(sdk, l, direction, curve, target, fair, minProfit))
    ensures ProposeFill(sdk, l, direction, curve, target, fair, minProfit).direction == direction
  {
    hide EndReserve, ChecksSafety, Discriminant, LargerRoot;
    var end: real := EndReserve(sdk, curve.x, l.collateral, target);
    DivPos(end, target);
    if direction == 0 {
      FeeShareBelow(l.collateral, end / target, l.fee);
    }
  }

  lemma FeeShareBelow(c: real, left: real, fee: real)
    requires 0.0 <= left < c && 0.0 <= fee < 1.0
    ensures (left > 0.0 || fee > 0.0) ==> (c - left) * (1.0 - fee) < c
    ensures (c - left) * (1.0 - fee) <= c
  {
    MulNonNeg(c - left, fee);
    assert (c - left) * (1.0 - fee) == c - left - (c - left) * fee;
    if fee > 0.0 { MulPos(c - left, fee); }
  }

  lemma DecisionIsFair<C>(sdk: Sdk<C>, pool: Pool<C>, l: Ledger, price: real, ts: nat, costs: Costs)
    requires Sane(l) && ts >= l.rateTime
    requires Decide(sdk, pool, l, price, ts, costs).chosen >= 0
    ensures MarginalQuote(sdk, pool.core, l, price, ts, costs).Some?
    ensures
      var d := Decide(sdk, pool, l, price, ts, costs);
      var curve := MarginalQuote(sdk, pool.core, l, price, ts, costs).value.curve;
      && curve.debt == ProjectedDebt(l, ts)
      && (d.chosen == 0 ==> FairFill(sdk, l, curve, d.p2) && d.p2.direction == 0)
      && (d.chosen == 1 ==> FairFill(sdk, l, curve, d.p1) && d.p1.direction == 1)
  {
    hide FairLp, BuyPrice, SellPrice, AddFee, ProposeFill, FixedFraction, Reference, BidEdge, AskEdge, GrossedUp,
         BuyTarget, SellTarget, FairFill, ProjectedDebt, LpOracle, X0, BidMark, AskMark;
    var d := Decide(sdk, pool, l, price, ts, costs);
    var q := MarginalQuote(sdk, pool.core, l, price, ts, costs).value;
    DebtNonNeg(l, ts);
    if d.chosen == 0 {
      ProposalIsFair(sdk, l, 0, q.curve,
                     BuyTarget(l,
                               BidEdge(q.fairBid,
                                       FixedFraction(costs.minProfit, Reference(sdk.balance0(pool.core), 1.0)))),
                     q.fairBid, costs.minProfit);
    } else {
      var addFee := AddFee(sdk, pool, ts);
      ProposalIsFair(sdk, l, 1, q.curve,
                     SellTarget(l,
                                AskEdge(q.fairAsk, addFee,
                                        FixedFraction(costs.minProfit, Reference(sdk.balance1(pool.core), q.ask)))),
                     GrossedUp(q.fairAsk, addFee), costs.minProfit);
    }
  }

  lemma DebtNonNeg(l: Ledger, ts: nat)
    requires Sane(l) && ts >= l.rateTime
    ensures ProjectedDebt(l, ts) >= l.debt >= 0.0
  {
    GrowthAtLeastOne(l, ts);
    var dt := (ts - l.rateTime) as real;
    MulNonNeg(l.rate, dt);
    MulNonNeg(l.debt, l.rate * dt);
    assert l.debt * (1.0 + l.rate * dt) == l.debt + l.debt * (l.rate * dt);
  }

  // ---------------------------------------------------------------------------------------------
  // Interest

  /** Accrual at the ledger's own time moves the interest it can pay from cash to the LT's balance. */
  lemma AccrueNow(l: Ledger)
    requires Sane(l)
    ensures
      var a := Accrue(l, l.rateTime);
      var owed := Pending(l.debt, l.minted, l.redeemed);
      && Sane(a) && Holdings(a) == Holdings(l) && a.debt == l.debt && a.collateral == l.collateral
      && a.rateTime == l.rateTime
      && a.ltCash - l.ltCash == Min(owed, l.cash)
      && Pending(a.debt, a.minted, a.redeemed) == owed - Min(owed, l.cash)
  {
    GrowthAtLeastOne(l, l.rateTime);
    assert l.rate * 0.0 == 0.0;
    assert l.rateMul * (1.0 + 0.0) == l.rateMul;
    DivCompare(l.debt * l.rateMul, l.debt, l.rateMul);
  }

  // ---------------------------------------------------------------------------------------------
  // Pool legs

  lemma AddMoves<C(!new)>(sdk: Sdk<C>, pool: Pool<C>, target: real)
    requires Sound(sdk) && AddToMint(sdk, pool, target).Some?
    ensures var a := AddToMint(sdk, pool, target).value;
            a.minted > 0.0 && Circulating(sdk, a.core) == Circulating(sdk, pool.core) + a.minted
  {
    hide Circulating;
  }

  function Portion(amount: real, fraction: real): real { amount * fraction }

  /** A deposit of a fraction of both reserves. */
  function Deposit<C>(sdk: Sdk<C>, pool: Pool<C>, fraction: real): Option<(C, real)> {
    sdk.addLiquidity(pool, Portion(sdk.balance0(pool.core), fraction), Portion(sdk.balance1(pool.core), fraction))
  }

  /** A pool that mints for such a deposit a fixed part of the fraction of its shares. */
  ghost predicate MintsInProportion<C>(sdk: Sdk<C>, pool: Pool<C>, part: real) {
    forall fraction: real :: fraction > 0.0 ==>
      Deposit(sdk, pool, fraction).Some? &&
      Deposit(sdk, pool, fraction).value.1 == Portion(part, Portion(fraction, sdk.totalSupply(pool.core)))
  }

  lemma ScaledIsPortion(amount: real, target: real, reference: real)
    requires reference > 0.0
    ensures Scaled(amount, target, reference) == Portion(amount, target / reference)
  {}

  lemma PortionTwice(amount: real, first: real, again: real)
    ensures Portion(Portion(amount, first), again) == Portion(amount, Portion(first, again))
  {}

  /** A first fraction `f` that mints the part's share of the target, and the second that makes up for the part. */
  lemma ShareOfTarget(part: real, target: real, supply: real)
    requires part > 0.0 && target > 0.0 && supply > 0.0
    ensures
      var f, probe := target / supply, Portion(part, Portion(target / supply, supply));
      && f > 0.0 && probe > 0.0 && target / probe > 0.0 && Portion(f, target / probe) > 0.0
      && Portion(part, Portion(Portion(f, target / probe), supply)) == target
  {
    var f := target / supply;
    DivPos(target, supply);
    DivMul(target, supply);
    MulPos(part, target);
    var probe := part * target;
    assert Portion(part, Portion(f, supply)) == probe;
    var again := target / probe;
    DivPos(target, probe);
    DivMul(target, probe);
    MulPos(f, again);
    assert part * (f * again * supply) == (part * (f * supply)) * again;
    Commute(again, probe);
  }

  /** On such a pool, whatever its part, the probe makes the deposit mint exactly the target. */
  lemma MintsTheTarget<C>(sdk: Sdk<C>, pool: Pool<C>, target: real, part: real)
    requires MintsInProportion(sdk, pool, part) && part > 0.0 && target > 0.0 && sdk.totalSupply(pool.core) > 0.0
    ensures AddToMint(sdk, pool, target).Some? && AddToMint(sdk, pool, target).value.minted == target
  {
    var supply := sdk.totalSupply(pool.core);
    var f := target / supply;
    var probe := Portion(part, Portion(f, supply));
    ShareOfTarget(part, target, supply);
    ScaledIsPortion(sdk.balance0(pool.core), target, supply);
    ScaledIsPortion(sdk.balance1(pool.core), target, supply);
    ScaledIsPortion(Portion(sdk.balance0(pool.core), f), target, probe);
    ScaledIsPortion(Portion(sdk.balance1(pool.core), f), target, probe);
    PortionTwice(sdk.balance0(pool.core), f, target / probe);
    PortionTwice(sdk.balance1(pool.core), f, target / probe);
    hide Portion, Scaled;
    assert Deposit(sdk, pool, f).Some? && Deposit(sdk, pool, f).value.1 == probe;
    assert Deposit(sdk, pool, Portion(f, target / probe)).Some?;
  }

  lemma CorrectMoves<C(!new)>(sdk: Sdk<C>, mid: Pool<C>, fill: Fill, minted: real)
    requires Sound(sdk) && Correct(sdk, mid, fill, minted).Some?
    ensures var c := Correct(sdk, mid, fill, minted).value;
            Circulating(sdk, c.core) == Circulating(sdk, mid.core) + (c.minted - minted)
  {
    hide Circulating, AddToMint;
    var delta := fill.input - minted;
    TolerancePos(fill.input);
    if delta > Tolerance(fill.input) { AddMoves(sdk, mid, delta); }
  }

  lemma TolerancePos(target: real)
    ensures Tolerance(target) > 0.0
  {}

  /** The mint side leaves the shares minted within the tolerance of the fill's input. */
  lemma AddLegsMove<C(!new)>(sdk: Sdk<C>, pool: Pool<C>, l: Ledger, price: real, ts: nat, costs: Costs, fill: Fill)
    requires Sound(sdk) && Sane(l) && ts >= l.rateTime
    requires AddLegs(sdk, pool, l, price, ts, costs, fill).Some?
    ensures
      var g := AddLegs(sdk, pool, l, price, ts, costs, fill).value;
      && Abs(Circulating(sdk, g.core) - Circulating(sdk, pool.core) - g.fill.input) <= Tolerance(g.fill.input)
      && g.fill.direction == 1
      && (exists curve: Curve :: curve.debt == ProjectedDebt(l, ts) && FairFill(sdk, l, curve, g.fill))
  {
    hide Circulating, AddToMint, Correct, Decide, FairFill, ProjectedDebt, Tolerance;
    var first := AddToMint(sdk, pool, fill.input).value;
    AddMoves(sdk, pool, fill.input);
    var mid := pool.(core := first.core);
    DecisionIsFair(sdk, mid, l, price, ts, costs);
    var again := Decide(sdk, mid, l, price, ts, costs);
    CorrectMoves(sdk, mid, again.p1, first.minted);
  }

  // ---------------------------------------------------------------------------------------------
  // The whole route

  /** What a committed route did: the coin-0 side changed by the debt's growth less the donation, the gap
      moved only by the mint side's tolerance, and the ledger stands at the route's time. */
  ghost predicate Committed<C>(sdk: Sdk<C>, core: C, l: Ledger, ts: nat, f: Fired<C>)
    requires l.rateMul > 0.0
  {
    && Sane(f.ledger) && f.ledger.rateTime == ts && !f.ledger.killed && f.direction <= 1 && f.input > 0.0
    && Holdings(f.ledger) == Holdings(l) + (ProjectedDebt(l, ts) - l.debt) - (if f.donated then f.donation else 0.0)
    && (f.donated ==> f.donation > DONATION_FLOOR && f.ledger.ltCash == 0.0)
    && (f.direction == 0 ==> Gap(sdk, f.core, f.ledger) == Gap(sdk, core, l))
    && (f.direction == 1 ==> Abs(Gap(sdk, f.core, f.ledger) - Gap(sdk, core, l)) <= Tolerance(f.input))
  }

  lemma SettleCommits<C(!new)>(sdk: Sdk<C>, pool: Pool<C>, core0: C, l: Ledger, ts: nat, g: Legs<C>, curve: Curve)
    requires Sound(sdk) && Sane(l) && ts >= l.rateTime && !l.killed
    requires curve.debt == ProjectedDebt(l, ts) && FairFill(sdk, l, curve, g.fill) && pool.core == g.core
    requires g.fill.direction == 0 ==> g.core == core0
    requires g.fill.direction == 1 ==>
      Abs(Circulating(sdk, g.core) - Circulating(sdk, core0) - g.fill.input) <= Tolerance(g.fill.input)
    requires Settle(sdk, pool, l, ts, g).Some?
    ensures Committed(sdk, core0, l, ts, Settle(sdk, pool, l, ts, g).value)
  {
    hide Circulating, ProjectedDebt, X0, Tolerance, Accrue;
    GrowthAtLeastOne(l, ts);
    var filled := ApplyFill(AdvanceDebt(l, ts), g.fill);
    assert Sane(filled) && filled.rateTime == ts;
    AccrueNow(filled);
    assert Holdings(filled) == Holdings(l) + (ProjectedDebt(l, ts) - l.debt);
    AccrueKeepsRest(filled);
    var d := DonateInterest(sdk, pool, filled, ts).value;
    assert Circulating(sdk, d.core) == Circulating(sdk, pool.core);
  }

  lemma AccrueKeepsRest(l: Ledger)
    requires l.rateMul > 0.0
    ensures Accrue(l, l.rateTime).killed == l.killed
  {}

  /** Every fired route is committed as a whole. */
  lemma FiredIsCommitted<C(!new)>(sdk: Sdk<C>, pool: Pool<C>, l: Ledger, price: real, ts: nat, costs: Costs)
    requires Sound(sdk) && Sane(l)
    requires TryFire(sdk, pool, l, price, ts, costs).Some?
    ensures !l.killed && ts >= l.rateTime && Abs(Gap(sdk, pool.core, l)) <= GAP_LIMIT
    ensures Committed(sdk, pool.core, l, ts, TryFire(sdk, pool, l, price, ts, costs).value)
  {
    hide Decide, AddLegs, Settle, Committed, FairFill, Circulating, Tolerance, ProjectedDebt, MarginalQuote;
    var d := Decide(sdk, pool, l, price, ts, costs);
    DecisionIsFair(sdk, pool, l, price, ts, costs);
    if d.chosen == 0 {
      SettleCommits(sdk, pool, pool.core, l, ts, Legs(pool.core, d.p2, 0, 0, 0),
                    MarginalQuote(sdk, pool.core, l, price, ts, costs).value.curve);
      assert pool.(core := pool.core) == pool;
    } else {
      AddLegsMove(sdk, pool, l, price, ts, costs, d.p1);
      var g := AddLegs(sdk, pool, l, price, ts, costs, d.p1).value;
      var curve: Curve :| curve.debt == ProjectedDebt(l, ts) && FairFill(sdk, l, curve, g.fill);
      SettleCommits(sdk, pool.(core := g.core), pool.core, l, ts, g, curve);
    }
  }

  /** A fired route added or removed liquidity, and a donation it made is positive. */
  lemma FiredHasLegs<C(!new)>(sdk: Sdk<C>, pool: Pool<C>, l: Ledger, price: real, ts: nat, costs: Costs)
    requires Sound(sdk) && Sane(l)
    requires TryFire(sdk, pool, l, price, ts, costs).Some?
    ensures var f := TryFire(sdk, pool, l, price, ts, costs).value;
            (f.adds > 0 || f.removes > 0) && (f.donated ==> f.donation > 0.0)
  {
    hide Decide, Settle, AddToMint, Correct, Circulating, Tolerance, FairFill, MarginalQuote, ProjectedDebt;
    DecisionIsFair(sdk, pool, l, price, ts, costs);
    var d := Decide(sdk, pool, l, price, ts, costs);
    var g := if d.chosen == 0 then Legs(pool.core, d.p2, 0, 0, 0)
             else AddLegs(sdk, pool, l, price, ts, costs, d.p1).value;
    FiredIsCommitted(sdk, pool, l, price, ts, costs);
    SettleCounts(sdk, pool.(core := g.core), l, ts, g);
  }

  lemma SettleCounts<C>(sdk: Sdk<C>, pool: Pool<C>, l: Ledger, ts: nat, g: Legs<C>)
    requires Sane(l) && Settle(sdk, pool, l, ts, g).Some?
    ensures var f := Settle(sdk, pool, l, ts, g).value;
            f.direction == g.fill.direction && f.adds == g.adds &&
            f.removes == (if g.fill.direction == 0 then g.removes + 1 else g.removes)
  {
    hide DonateInterest, RemoveLeg, ApplyFill, AdvanceDebt;
    GrowthAtLeastOne(l, ts);
  }

  // ---------------------------------------------------------------------------------------------
  // Runs: attempts at any prices and times, between any other pool operations

  datatype Move<C> = Attempt(price: real, ts: nat, ctx: Context) | Elsewhere(core: C)

  /** `grown` and `donated` total the debt growth and donations of committed routes; `slack` is the
      largest tolerance a direction-1 fill was allowed. */
  datatype Trail<C> = Trail(core: C, ledger: Ledger, grown: real, donated: real, slack: real)

  /** Other operations on the pool keep the circulating shares. */
  predicate Permitted<C>(sdk: Sdk<C>, core: C, move: Move<C>) {
    move.Elsewhere? ==> Circulating(sdk, move.core) == Circulating(sdk, core)
  }

  function Step<C>(sdk: Sdk<C>, costs: Costs, s: Trail<C>, move: Move<C>): Trail<C>
    requires Sane(s.ledger)
  {
    match move
    case Elsewhere(core) => s.(core := core)
    case Attempt(price, ts, ctx) =>
      match TryFire(sdk, Pool(s.core, ts, ctx), s.ledger, price, ts, costs)
      case None => s
      case Some(f) =>
        Trail(f.core, f.ledger, s.grown + (ProjectedDebt(s.ledger, ts) - s.ledger.debt),
              s.donated + (if f.donated then f.donation else 0.0),
              if f.direction == 1 then Max(s.slack, Tolerance(f.input)) else s.slack)
  }

  ghost predicate Run<C(!new)>(sdk: Sdk<C>, costs: Costs, s: Trail<C>, moves: seq<Move<C>>, end: Trail<C>)
    requires Sane(s.ledger)
    decreases |moves|
  {
    if moves == [] then end == s
    else
      && Permitted(sdk, s.core, moves[0])
      && Sane(Step(sdk, costs, s, moves[0]).ledger)
      && Run(sdk, costs, Step(sdk, costs, s, moves[0]), moves[1..], end)
  }

  lemma StepKeeps<C(!new)>(sdk: Sdk<C>, costs: Costs, s: Trail<C>, move: Move<C>)
    requires Sound(sdk) && Sane(s.ledger) && Permitted(sdk, s.core, move)
    ensures
      var t := Step(sdk, costs, s, move);
      && Sane(t.ledger) && t.slack >= s.slack
      && Holdings(t.ledger) - t.grown + t.donated == Holdings(s.ledger) - s.grown + s.donated
      && (Abs(Gap(sdk, s.core, s.ledger)) <= GAP_LIMIT + s.slack ==>
          Abs(Gap(sdk, t.core, t.ledger)) <= GAP_LIMIT + t.slack)
      && (s.ledger.killed ==> t == s.(core := t.core))
  {
    hide TryFire, Circulating, Tolerance, ProjectedDebt;
    match move
    case Elsewhere(core) =>
    case Attempt(price, ts, ctx) =>
      var pool := Pool(s.core, ts, ctx);
      if TryFire(sdk, pool, s.ledger, price, ts, costs).Some? {
        FiredIsCommitted(sdk, pool, s.ledger, price, ts, costs);
      }
  }

  /** Over every run: the ledger stays sane, the coin-0 side changes only by debt growth less donations, and
      the collateral gap stays within the entry limit plus one reconciliation tolerance. */
  lemma {:induction false} RunKeeps<C(!new)>(sdk: Sdk<C>, costs: Costs, s: Trail<C>, moves: seq<Move<C>>, end: Trail<C>)
    requires Sound(sdk) && Sane(s.ledger) && Run(sdk, costs, s, moves, end)
    ensures Sane(end.ledger)
    ensures Holdings(end.ledger) == Holdings(s.ledger) + (end.grown - s.grown) - (end.donated - s.donated)
    ensures Abs(Gap(sdk, s.core, s.ledger)) <= GAP_LIMIT + s.slack ==>
            Abs(Gap(sdk, end.core, end.ledger)) <= GAP_LIMIT + end.slack
    decreases |moves|
  {
    if moves != [] {
      StepKeeps(sdk, costs, s, moves[0]);
      RunKeeps(sdk, costs, Step(sdk, costs, s, moves[0]), moves[1..], end);
    }
  }

  /** Every move, when its turn comes, is permitted. */
  ghost predicate Allowed<C(!new)>(sdk: Sdk<C>, costs: Costs, s: Trail<C>, moves: seq<Move<C>>)
    requires Sound(sdk) && Sane(s.ledger)
    decreases |moves|
  {
    hide TryFire;
    moves == [] || (
      Permitted(sdk, s.core, moves[0]) && (
        StepKeeps(sdk, costs, s, moves[0]);
        Allowed(sdk, costs, Step(sdk, costs, s, moves[0]), moves[1..])))
  }

  /** Runs never get stuck: every permitted sequence of moves has its end state. */
  lemma {:induction false} RunExists<C(!new)>(sdk: Sdk<C>, costs: Costs, s: Trail<C>, moves: seq<Move<C>>)
    requires Sound(sdk) && Sane(s.ledger)
    requires Allowed(sdk, costs, s, moves)
    ensures exists end: Trail<C> :: Run(sdk, costs, s, moves, end)
    decreases |moves|
  {
    if moves == [] {
      assert Run(sdk, costs, s, moves, s);
    } else {
      StepKeeps(sdk, costs, s, moves[0]);
      RunExists(sdk, costs, Step(sdk, costs, s, moves[0]), moves[1..]);
      var end: Trail<C> :| Run(sdk, costs, Step(sdk, costs, s, moves[0]), moves[1..], end);
      assert Run(sdk, costs, s, moves, end);
    }
  }

  // ---------------------------------------------------------------------------------------------
  // Starting points

  /** A fresh ledger is sane and its collateral is exactly the circulating shares; it owes nothing yet. */
  lemma FreshStartsClean<C>(sdk: Sdk<C>, core: C, apy: real, fee: real, ts: nat, multiplier: real)
    requires apy >= 0.0 && Fresh(sdk, core, apy, fee, ts, multiplier).Some?
    ensures
      var l := Fresh(sdk, core, apy, fee, ts, multiplier).value;
      && Sane(l) && Gap(sdk, core, l) == 0.0 && Pending(l.debt, l.minted, l.redeemed) == 0.0
      && ProjectedDebt(l, ts) == l.debt
  {
    var tvl := sdk.balance0(core) + sdk.balance1(core) * sdk.priceScale(core);
    var debt := tvl / 2.0;
    MulNonNeg(apy, tvl);
    DivPos(apy * tvl, debt);
    MulPos(debt, multiplier);
    var l := Fresh(sdk, core, apy, fee, ts, multiplier).value;
    GrowthAtLeastOne(l, ts);
  }

  /** A validated historical state derives the same leverage constants as a fresh one, and is sane. */
  lemma CheckpointIsSane(c: Checkpoint)
    requires FromCheckpoint(c).Some?
    ensures
      var l := FromCheckpoint(c).value;
      Sane(l) && l.levRatio == 4.0 / 9.0 && l.minSafe == 1.0 / 16.0 && l.maxSafe == 17.0 / 32.0
  {}
}
