/** The YieldBasis 2L ledger and the computations the actor makes from it: quotes, the
    closed-form XYK fill, the conservative gate and band, and the all-or-nothing route. */
module Yb2L {
  import opened Algebra
  import opened PoolSdk
  import opened Wrappers

  datatype Ledger = Ledger(
    levRatio: real, minSafe: real, maxSafe: real, fee: real, collateral: real, debt: real,
    rate: real, rateMul: real, rateTime: nat, minted: real, redeemed: real, cash: real,
    ltDiscount: real, ltCash: real, killed: bool, aggregator: real)

  datatype Costs = Costs(bidBps: real, askBps: real, minProfit: real)

  /** What both ways of building a ledger establish and every fill keeps. */
  ghost predicate Sane(l: Ledger) {
    && l.levRatio > 0.0
    && 0.0 <= l.fee <= 1.0
    && l.rate >= 0.0
    && l.rateMul > 0.0
    && l.debt >= 0.0
    && l.collateral > 0.0
    && l.cash >= 0.0
    && l.ltCash >= 0.0
  }

  /** An initial ledger over a funded pool; None where the source throws. */
  function Fresh<C>(sdk: Sdk<C>, core: C, apy: real, fee: real, ts: nat, multiplier: real): Option<Ledger> {
    var tvl := sdk.balance0(core) + sdk.balance1(core) * sdk.priceScale(core);
    var collateral := Circulating(sdk, core);
    if !(tvl > 0.0) || !(collateral > 0.0) then None
    else if !(0.0 <= fee <= 1.0) || !(multiplier > 0.0) then None
    else
      var debt := tvl / 2.0;
      Some(Ledger(4.0 / 9.0, 1.0 / 16.0, 17.0 / 32.0, fee, collateral, debt,
                  apy * tvl / debt / (365.0 * 86400.0), 1.0, ts, debt, 0.0, debt * multiplier,
                  0.01, 0.0, false, 1.0))
  }

  datatype Checkpoint = Checkpoint(
    sourceTs: nat, leverage: real, fee: real, collateral: real, debt: real, rate: real, rateMul: real,
    rateTime: nat, minted: real, redeemed: real, cash: real, ltCash: real, aggregator: real,
    ltDiscount: real, killed: bool)

  /** The quantity and timestamp checks on a historical state. */
  predicate ValidCheckpoint(c: Checkpoint) {
    && 0 < c.rateTime <= c.sourceTs
    && c.leverage == 2.0 && c.collateral > 0.0 && c.debt > 0.0 && c.rateMul > 0.0 && c.aggregator > 0.0
    && c.rate >= 0.0 && c.minted >= 0.0 && c.redeemed >= 0.0 && c.cash >= 0.0 && c.ltCash >= 0.0
    && 0.0 <= c.fee <= 1.0 && 0.0 <= c.ltDiscount <= 1.0
  }

  function FromCheckpoint(c: Checkpoint): Option<Ledger> {
    if !ValidCheckpoint(c) then None
    else
      var denominator := 2.0 * c.leverage - 1.0;
      var square := c.leverage * c.leverage;
      Some(Ledger(square / (denominator * denominator), 1.0 / (4.0 * square),
                  denominator * denominator / (4.0 * square) - 1.0 / (8.0 * square),
                  c.fee, c.collateral, c.debt, c.rate, c.rateMul, c.rateTime, c.minted, c.redeemed, c.cash,
                  c.ltDiscount, c.ltCash, c.killed, c.aggregator))
  }

  function ProjectedDebt(l: Ledger, ts: nat): real
    requires l.rateMul > 0.0
  {
    if ts < l.rateTime then 0.0
    else l.debt * (l.rateMul * (1.0 + l.rate * (ts - l.rateTime) as real)) / l.rateMul
  }

  function LpOracle<C>(sdk: Sdk<C>, core: C, l: Ledger): real {
    2.0 * sdk.virtualPrice(core) * sdk.sqrt(sdk.priceScale(core)) * l.aggregator
  }

  function Discriminant(l: Ledger, value: real, debt: real): real {
    value * value - 4.0 * value * l.levRatio * debt
  }

  function LargerRoot(l: Ledger, value: real, root: real): real
    requires l.levRatio > 0.0
  {
    (value + root) / (2.0 * l.levRatio)
  }

  /** The invariant x0 of the LEVAMM: the larger root of its quadratic, when it is defined. */
  function X0<C>(sdk: Sdk<C>, l: Ledger, oracle: real, collateral: real, debt: real, safe: bool): Option<real>
    requires l.levRatio > 0.0
  {
    var value := oracle * collateral;
    if !(value > 0.0) || !(collateral > 0.0) || !(debt >= 0.0) then None
    else if safe && (debt < value * l.minSafe || debt > value * l.maxSafe) then None
    else
      var disc := Discriminant(l, value, debt);
      if disc < 0.0 then None else Some(LargerRoot(l, value, sdk.sqrt(disc)))
  }

  /** The side of a quote that no external price enters: the invariant and x = x0 - debt. */
  datatype Curve = Curve(oracle: real, debt: real, x0: real, x: real)

  function CurveAt<C>(sdk: Sdk<C>, core: C, l: Ledger, ts: nat): (r: Option<Curve>)
    requires l.levRatio > 0.0 && l.rateMul > 0.0
    ensures r.Some? ==> r.value.x > 0.0 && l.collateral > 0.0 && 0.0 <= l.fee < 1.0 && sdk.totalSupply(core) > 0.0
  {
    var debt := ProjectedDebt(l, ts);
    var oracle := LpOracle(sdk, core, l);
    match X0(sdk, l, oracle, l.collateral, debt, false)
    case None => None
    case Some(x0) =>
      var x := x0 - debt;
      if !(x > 0.0) || !(l.collateral > 0.0) || !(sdk.totalSupply(core) > 0.0) || !(0.0 <= l.fee < 1.0) then None
      else Some(Curve(oracle, debt, x0, x))
  }

  function BidMark(price: real, costs: Costs): real { price * (1.0 - costs.bidBps / 10000.0) }
  function AskMark(price: real, costs: Costs): real { price * (1.0 + costs.askBps / 10000.0) }

  /** The value of one LP share with coin 1 marked at `mark`. */
  function FairLp<C>(sdk: Sdk<C>, core: C, mark: real): real
    requires sdk.totalSupply(core) > 0.0
  {
    (sdk.balance0(core) + mark * sdk.balance1(core)) / sdk.totalSupply(core)
  }

  datatype Quote = Quote(curve: Curve, fairBid: real, fairAsk: real, bid: real, ask: real)

  /** The marginal quote; None is the hard abstention. */
  function MarginalQuote<C>(sdk: Sdk<C>, core: C, l: Ledger, price: real, ts: nat, costs: Costs): (r: Option<Quote>)
    requires l.levRatio > 0.0 && l.rateMul > 0.0
    ensures r.Some? ==> l.collateral > 0.0 && 0.0 <= l.fee < 1.0 && r.value.curve.x > 0.0
  {
    match CurveAt(sdk, core, l, ts)
    case None => None
    case Some(curve) =>
      var bid, ask := BidMark(price, costs), AskMark(price, costs);
      if !(bid > 0.0) || !(ask > 0.0) then None
      else Some(Quote(curve, FairLp(sdk, core, bid), FairLp(sdk, core, ask), bid, ask))
  }

  /** LEVAMM prices an outside trader pays (p2, buys LP) and receives (p1, sells LP). */
  function BuyPrice(l: Ledger, x: real): real
    requires l.collateral > 0.0 && l.fee < 1.0
  {
    x / l.collateral / (1.0 - l.fee)
  }

  function SellPrice(l: Ledger, x: real): real
    requires l.collateral > 0.0
  {
    x / l.collateral * (1.0 - l.fee)
  }

  predicate MayTrade<C>(sdk: Sdk<C>, core: C, l: Ledger, price: real, ts: nat, costs: Costs)
    requires l.levRatio > 0.0 && l.rateMul > 0.0
  {
    if l.killed || ts < l.rateTime then false
    else match MarginalQuote(sdk, core, l, price, ts, costs)
         case None => false
         case Some(q) => BuyPrice(l, q.curve.x) < q.fairBid || SellPrice(l, q.curve.x) > q.fairAsk
  }

  datatype Band = Band(valid: bool, from: nat, to: nat, lo: real, hi: real)

  const BAND_MARGIN := 0.000000001

  /** The external price at which the fair LP value, marked at `factor` per unit price, equals `fair`. */
  function PriceAtFair<C>(sdk: Sdk<C>, core: C, fair: real, factor: real): real
    requires sdk.balance1(core) > 0.0 && factor > 0.0
  {
    MulPos(sdk.balance1(core), factor);
    (sdk.totalSupply(core) * fair - sdk.balance0(core)) / (sdk.balance1(core) * factor)
  }

  function NoTradeBand<C>(sdk: Sdk<C>, core: C, l: Ledger, from: nat, to: nat, costs: Costs): Band
    requires l.levRatio > 0.0 && l.rateMul > 0.0
  {
    var none := Band(false, from, to, 0.0, 0.0);
    if l.killed || from < l.rateTime || to < from then none
    else match (MarginalQuote(sdk, core, l, 1.0, from, costs), MarginalQuote(sdk, core, l, 1.0, to, costs))
         case (Some(early), Some(late)) =>
           var coin1 := sdk.balance1(core);
           if !(coin1 > 0.0) || !(early.bid > 0.0) || !(early.ask > 0.0) then none
           else
             var hi := PriceAtFair(sdk, core, BuyPrice(l, late.curve.x), early.bid);
             var lo := PriceAtFair(sdk, core, SellPrice(l, early.curve.x), early.ask);
             var lo' := lo + Abs(lo) * BAND_MARGIN;
             var hi' := hi - Abs(hi) * BAND_MARGIN;
             Band(lo' < hi', from, to, lo', hi')
         case _ => none
  }

  /** The part of `half` that donated shares weigh while their protection lasts. */
  function Spam(half: NonNeg, left: real, period: real, shares: NonNeg, supply: real, ratio: real): NonNeg
    requires left > 0.0 && period > 0.0 && supply > 0.0 && ratio > 0.0
  {
    DivPos(left, period);
    var protection: NonNeg := Min(left / period, 1.0);
    MulNonNeg(protection, half);
    MulNonNeg(protection * half, shares);
    DivPos(protection * half * shares, supply);
    DivPos(protection * half * shares / supply, ratio);
    Min(half, protection * half * shares / supply / ratio)
  }

  /** The fee a proportional add is expected to pay: noise plus donation-spam protection. */
  function AddFee<C>(sdk: Sdk<C>, pool: Pool<C>, ts: nat): NonNeg {
    var left := sdk.protectionExpiry(pool.core) - ts as real;
    var supply := sdk.totalSupply(pool.core);
    if left > 0.0 && sdk.protectionPeriod > 0.0 && supply > 0.0 && sdk.donationMaxRatio > 0.0 then
      sdk.noiseFee + Spam(sdk.fee(pool) / 2.0, left, sdk.protectionPeriod, sdk.donationShares(pool.core), supply,
                          sdk.donationMaxRatio)
    else sdk.noiseFee
  }

  datatype Fill = Fill(valid: bool, direction: nat, input: real, output: real, profit: real,
                       collateral: real, debt: real, cash: real, minted: real, redeemed: real)

  const NO_FILL := Fill(false, 0, 0.0, 0.0, 0.0, 0.0, 0.0, 0.0, 0.0, 0.0)

  function Pending(debt: real, minted: real, redeemed: real): real {
    Max(0.0, debt + redeemed - minted)
  }

  /** Whether the contract's safety bounds apply to a move from (c0, d0) to (c1, d1): a move
      toward the target ratio is exempt. A debt-free side has an unbounded ratio. */
  predicate ChecksSafety(oracle: real, c0: real, d0: real, c1: real, d1: real) {
    d1 <= 0.0 ||
    var after := oracle * c1 / d1;
    !(after > 2.0 && (d0 <= 0.0 || oracle * c0 / d0 > after)) &&
    !(after <= 2.0 && d0 > 0.0 && oracle * c0 / d0 < after)
  }

  /** The x-reserve at which the curve through (x, c) has price `target`. */
  function EndReserve<C>(sdk: Sdk<C>, x: real, c: real, target: real): NonNeg
    requires x > 0.0 && c > 0.0 && target > 0.0
  {
    MulPos(x, c);
    MulPos(x * c, target);
    sdk.sqrt(x * c * target)
  }

  /** Curve prices whose fee-adjusted value is the entry edge. */
  function BuyTarget(l: Ledger, edge: real): real { edge * (1.0 - l.fee) }

  function SellTarget(l: Ledger, edge: real): real
    requires l.fee < 1.0
  {
    edge / (1.0 - l.fee)
  }

  /** A fill that buys LP until the x-reserve is `end`: repaid debt in, LP out after the fee. */
  function BuyLegs(l: Ledger, curve: Curve, target: real, fair: real, end: real): Fill
    requires target > 0.0
  {
    var input, output := end - curve.x, (l.collateral - end / target) * (1.0 - l.fee);
    var debt, pending := curve.debt, Pending(curve.debt, l.minted, l.redeemed);
    Fill(true, 0, input, output, output * fair - input, l.collateral - output, debt - input,
         l.cash + input, debt - input + (l.redeemed + input) - pending, l.redeemed + input)
  }

  /** A fill that brings LP until the x-reserve is `end`: LP in, borrowed stable out after the fee. */
  function SellLegs(l: Ledger, curve: Curve, target: real, fair: real, end: real): Fill
    requires target > 0.0
  {
    var input, output := end / target - l.collateral, (curve.x - end) * (1.0 - l.fee);
    var debt, pending := curve.debt, Pending(curve.debt, l.minted, l.redeemed);
    Fill(true, 1, input, output, output - input * fair, l.collateral + input, debt + output,
         l.cash - output, debt + output + l.redeemed - pending, l.redeemed)
  }

  /** The curve lies on the right side of the target, and the legs within what is owed or held. */
  predicate BuyFits(l: Ledger, curve: Curve, target: real, end: real, fill: Fill)
    requires target > 0.0
  {
    end > curve.x && end / target < l.collateral && fill.input <= curve.debt
  }

  predicate SellFits(l: Ledger, curve: Curve, target: real, end: real, fill: Fill)
    requires target > 0.0
  {
    end < curve.x && end / target > l.collateral && fill.output <= l.cash
  }

  function ProposeFill<C>(sdk: Sdk<C>, l: Ledger, direction: nat, curve: Curve, target: real, fair: real,
                          minProfit: real): Fill
    requires l.levRatio > 0.0
    requires curve.x > 0.0 && l.collateral > 0.0
  {
    if !(target > 0.0) || !(fair > 0.0) then NO_FILL
    else
      var end := EndReserve(sdk, curve.x, l.collateral, target);
      if direction == 0 then
        var fill := BuyLegs(l, curve, target, fair, end);
        if BuyFits(l, curve, target, end, fill) then Vetted(sdk, l, curve, minProfit, fill) else NO_FILL
      else
        var fill := SellLegs(l, curve, target, fair, end);
        if SellFits(l, curve, target, end, fill) then Vetted(sdk, l, curve, minProfit, fill) else NO_FILL
  }

  /** The last checks of a proposal: positive legs, the profit floor, and an invariant that does not fall. */
  function Vetted<C>(sdk: Sdk<C>, l: Ledger, curve: Curve, minProfit: real, fill: Fill): (r: Fill)
    requires l.levRatio > 0.0
    ensures r.valid ==> r == fill
  {
    if !(fill.input > 0.0) || !(fill.output > 0.0) || !(fill.profit > minProfit) then NO_FILL
    else
      var safe := ChecksSafety(curve.oracle, l.collateral, curve.debt, fill.collateral, fill.debt);
      match X0(sdk, l, curve.oracle, fill.collateral, fill.debt, safe)
      case None => NO_FILL
      case Some(x0) => if x0 < curve.x0 then NO_FILL else fill
  }

  /** The full decision: both proposals at their entry edges, and the more profitable valid one.
      `chosen` is -1, 0 or 1; ties go to direction 0. */
  datatype Decision = Decision(chosen: int, p2: Fill, p1: Fill)

  const ABSTAIN := Decision(-1, NO_FILL, NO_FILL)

  /** A fill's fixed cost is spread over 2% of the reserve it trades against. */
  function Reference(reserve: real, mark: real): real { reserve * mark * 0.02 }

  function FixedFraction(minProfit: real, reference: real): real {
    if reference > 0.0 then minProfit / reference else 0.0
  }

  function BidEdge(fair: real, fixed: real): real { fair * Max(0.0, 1.0 - fixed) }

  function GrossedUp(fair: real, addFee: real): real
    requires addFee < 1.0
  {
    fair / (1.0 - addFee)
  }

  function AskEdge(fair: real, addFee: real, fixed: real): real
    requires addFee < 1.0
  {
    GrossedUp(fair, addFee) * (1.0 + fixed)
  }

  function Decide<C>(sdk: Sdk<C>, pool: Pool<C>, l: Ledger, price: real, ts: nat, costs: Costs): Decision
    requires l.levRatio > 0.0 && l.rateMul > 0.0
  {
    match MarginalQuote(sdk, pool.core, l, price, ts, costs)
    case None => ABSTAIN
    case Some(q) =>
      var addFee := AddFee(sdk, pool, ts);
      var fixed0 := FixedFraction(costs.minProfit, Reference(sdk.balance0(pool.core), 1.0));
      var fixed1 := FixedFraction(costs.minProfit, Reference(sdk.balance1(pool.core), q.ask));
      var bidEdge := BidEdge(q.fairBid, fixed0);
      var p2 := if BuyPrice(l, q.curve.x) < bidEdge
                then ProposeFill(sdk, l, 0, q.curve, BuyTarget(l, bidEdge), q.fairBid, costs.minProfit)
                else NO_FILL;
      var p1 := if addFee >= 1.0 then NO_FILL   // an infinite fair price admits nothing
                else
                  var fair := GrossedUp(q.fairAsk, addFee);
                  var askEdge := AskEdge(q.fairAsk, addFee, fixed1);
                  if SellPrice(l, q.curve.x) > askEdge
                  then ProposeFill(sdk, l, 1, q.curve, SellTarget(l, askEdge), fair, costs.minProfit)
                  else NO_FILL;
      Decision(if p2.valid && p1.valid then (if p2.profit >= p1.profit then 0 else 1)
               else if p2.valid then 0
               else if p1.valid then 1 else -1, p2, p1)
  }

  // ---------------------------------------------------------------------------------------------
  // Ledger steps

  function AdvanceDebt(l: Ledger, ts: nat): Ledger
    requires l.rateMul > 0.0
  {
    if ts < l.rateTime then l
    else
      var nextMul := l.rateMul * (1.0 + l.rate * (ts - l.rateTime) as real);
      l.(debt := l.debt * nextMul / l.rateMul, rateMul := nextMul, rateTime := ts)
  }

  function ApplyFill(l: Ledger, fill: Fill): Ledger {
    l.(debt := fill.debt, collateral := fill.collateral, cash := fill.cash, minted := fill.minted,
       redeemed := fill.redeemed)
  }

  function Accrue(l: Ledger, ts: nat): Ledger
    requires l.rateMul > 0.0
  {
    var a := AdvanceDebt(l, ts);
    var owed := Pending(a.debt, a.minted, a.redeemed);
    var interest := if owed > a.cash then Max(0.0, a.cash) else owed;
    a.(minted := a.minted + interest, cash := a.cash - interest, ltCash := a.ltCash + interest)
  }

  // ---------------------------------------------------------------------------------------------
  // Pool legs; None is a refused leg

  datatype Added<C> = Added(core: C, minted: real, moved: bool)

  function Scaled(amount: real, target: real, reference: real): real
    requires reference > 0.0
  {
    amount * (target / reference)
  }

  function AddToMint<C>(sdk: Sdk<C>, pool: Pool<C>, target: real): Option<Added<C>> {
    var supply := sdk.totalSupply(pool.core);
    if !(target > 0.0) || !(supply > 0.0) then None
    else
      var a0, a1 := Scaled(sdk.balance0(pool.core), target, supply), Scaled(sdk.balance1(pool.core), target, supply);
      match sdk.addLiquidity(pool, a0, a1)
      case None => None
      case Some(probe) =>
        if !(probe.1 > 0.0) then None
        else
          match sdk.addLiquidity(pool, Scaled(a0, target, probe.1), Scaled(a1, target, probe.1))
          case None => None
          case Some(added) =>
            if !(added.1 > 0.0) then None
            else Some(Added(added.0, added.1, sdk.priceScale(added.0) != sdk.priceScale(pool.core)))
  }

  function RemoveLeg<C>(sdk: Sdk<C>, pool: Pool<C>, lp: real): Option<C> {
    if !(lp > 0.0) then Some(pool.core)
    else if lp > Circulating(sdk, pool.core) then None
    else sdk.removeLiquidity(pool, lp)
  }

  const EPSILON := 0.00000000000000022204460492503131   // binary64
  function Tolerance(target: real): real {
    Max(0.000000001 * target, 64.0 * EPSILON * Max(1.0, target))
  }

  datatype Legs<C> = Legs(core: C, fill: Fill, adds: nat, removes: nat, moves: nat)

  /** The mint side of a direction-1 route: add, decide again on the changed pool, then correct up or down. */
  function AddLegs<C>(sdk: Sdk<C>, pool: Pool<C>, l: Ledger, price: real, ts: nat, costs: Costs, fill: Fill)
    : Option<Legs<C>>
    requires l.levRatio > 0.0 && l.rateMul > 0.0
  {
    match AddToMint(sdk, pool, fill.input)
    case None => None
    case Some(first) =>
      if Abs(first.minted - fill.input) > Tolerance(fill.input) then None
      else
        var mid := pool.(core := first.core);
        var again := Decide(sdk, mid, l, price, ts, costs);
        if again.chosen != 1 || !again.p1.valid then None
        else
          var moves := if first.moved then 1 else 0;
          match Correct(sdk, mid, again.p1, first.minted)
          case None => None
          case Some(c) =>
            if Abs(c.minted - again.p1.input) > Tolerance(again.p1.input) then None
            else Some(Legs(c.core, again.p1, 1 + c.adds, c.removes, moves + c.moves))
  }

  datatype Correction<C> = Correction(core: C, minted: real, adds: nat, removes: nat, moves: nat)

  function Correct<C>(sdk: Sdk<C>, mid: Pool<C>, fill: Fill, minted: real): Option<Correction<C>> {
    var delta := fill.input - minted;
    if delta > Tolerance(fill.input) then
      match AddToMint(sdk, mid, delta)
      case None => None
      case Some(up) => Some(Correction(up.core, minted + up.minted, 1, 0, if up.moved then 1 else 0))
    else if delta < -Tolerance(fill.input) then
      match RemoveLeg(sdk, mid, -delta)
      case None => None
      case Some(core) => Some(Correction(core, minted + delta, 0, 1, 0))
    else Some(Correction(mid.core, minted, 0, 0, 0))
  }

  const DONATION_FLOOR := 0.000001

  /** The least share mint a donation accepts: its discounted worth in shares, less a relative margin. */
  function MinMint(discount: real, donation: real, lpPrice: Pos): real {
    (1.0 - 0.000001) * (1.0 - discount) * donation / lpPrice
  }

  datatype Donated<C> = Donated(core: C, ledger: Ledger, amount: real, committed: bool, moved: bool)

  /** Accrue interest and donate it to the pool; None when the pool refuses the donation. */
  function DonateInterest<C>(sdk: Sdk<C>, pool: Pool<C>, l: Ledger, ts: nat): Option<Donated<C>>
    requires l.rateMul > 0.0
  {
    var a := Accrue(l, ts);
    if !(a.ltCash > DONATION_FLOOR) then Some(Donated(pool.core, a, 0.0, false, false))
    else
      match sdk.addDonation(pool, a.ltCash, 0.0, MinMint(a.ltDiscount, a.ltCash, sdk.lpPriceAt(pool.core, ts)))
      case None => None
      case Some(core) => Some(Donated(core, a.(ltCash := 0.0), a.ltCash, true,
                                      sdk.priceScale(core) != sdk.priceScale(pool.core)))
  }

  datatype Fired<C> = Fired(core: C, ledger: Ledger, direction: nat, input: real, output: real, profit: real,
                            donation: real, donated: bool, donationMoved: bool,
                            adds: nat, removes: nat, addMoves: nat)

  const GAP_LIMIT := 0.01

  /** The whole route. None: nothing happened to the pool or the ledger. */
  function TryFire<C>(sdk: Sdk<C>, pool: Pool<C>, l: Ledger, price: real, ts: nat, costs: Costs): Option<Fired<C>>
    requires Sane(l)
  {
    if l.killed || !(price > 0.0) || ts < l.rateTime then None
    else
      var decision := Decide(sdk, pool, l, price, ts, costs);
      if decision.chosen < 0 then None
      else if Abs(l.collateral - Circulating(sdk, pool.core)) > GAP_LIMIT then None
      else
        var legs := if decision.chosen == 0 then Some(Legs(pool.core, decision.p2, 0, 0, 0))
                    else AddLegs(sdk, pool, l, price, ts, costs, decision.p1);
        match legs
        case None => None
        case Some(g) => Settle(sdk, pool.(core := g.core), l, ts, g)
  }

  /** Ledger move, donation and burn of a route whose mint side is done. */
  function Settle<C>(sdk: Sdk<C>, pool: Pool<C>, l: Ledger, ts: nat, g: Legs<C>): Option<Fired<C>>
    requires Sane(l)
  {
    GrowthAtLeastOne(l, ts);
    match DonateInterest(sdk, pool, ApplyFill(AdvanceDebt(l, ts), g.fill), ts)
    case None => None
    case Some(d) =>
      var burnt := if g.fill.direction == 0 then RemoveLeg(sdk, pool.(core := d.core), g.fill.output) else Some(d.core);
      match burnt
      case None => None
      case Some(core) =>
        Some(Fired(core, d.ledger, g.fill.direction, g.fill.input, g.fill.output, g.fill.profit, d.amount, d.committed,
                   d.moved, g.adds, if g.fill.direction == 0 then g.removes + 1 else g.removes, g.moves))
  }

  /** Debt grows by one nonnegative simple-interest factor, so the multiplier stays positive. */
  lemma GrowthAtLeastOne(l: Ledger, ts: nat)
    requires l.rate >= 0.0 && l.rateMul > 0.0
    ensures AdvanceDebt(l, ts).rateMul > 0.0
    ensures ts >= l.rateTime ==> ProjectedDebt(l, ts) == l.debt * (1.0 + l.rate * (ts - l.rateTime) as real)
    ensures ts >= l.rateTime ==> AdvanceDebt(l, ts).debt == ProjectedDebt(l, ts)
  {
    if ts >= l.rateTime {
      var dt := (ts - l.rateTime) as real;
      MulNonNeg(l.rate, dt);
      var growth := 1.0 + l.rate * dt;
      MulPos(l.rateMul, growth);
      DivCompare(l.debt * (l.rateMul * growth), l.debt * growth, l.rateMul);
      assert l.debt * (l.rateMul * growth) == (l.debt * growth) * l.rateMul;
    }
  }
}
