/** One whole sizing decision: the direction tests, the market of the direction, and the search. */
module TradeDecision {
  import opened Algebra
  import opened PoolSdk
  import opened Wrappers
  import opened TradeEntry
  import opened TradeReach
  import TradeBounds
  import TradeScreen
  import TradeSizing

  /** The shares of the reserve sold that a trade may take. */
  datatype Limits = Limits(minFrac: real, maxFrac: real)

  function Least(avail: real,
                 limits: Limits): real { Max(0.000000000000000001, avail * Max(0.000000000001, limits.minFrac)) }
  function Most(avail: real, limits: Limits): real { avail * limits.maxFrac }

  function Reserve<C>(sdk: Sdk<C>, core: C, i: nat): NonNeg { if i == 0 then sdk.balance0(core)
    else sdk.balance1(core) }

  /** The market of a direction: its outputs and fees by size, output sold at the bid or input bought at the ask, and
      the floors of its fees. */
  function MarketOf<C>(sdk: Sdk<C>, flow: Flow<C>, p: Pool<C>, venue: Venue, price: real, gas: real, limits: Limits,
                       i: nat)
    : TradeBounds.Market
    requires price > 0.0 && venue.discount >= 0.0
  {
    MulNonNeg(venue.discount, price);
    var floor, avail := SideFloor(sdk, p.core, sdk.fee(p), i), Reserve(sdk, p.core, i);
    TradeBounds.Market(
      (dx: real) => flow.output(p, i, dx), (dx: real) => flow.fee(p, i, dx),
      if i == 0 then Bid(venue, price) else 1.0, if i == 0 then 1.0 else Ask(venue, price), gas,
      floor, Max(floor, sdk.contextFloor(p.core, p.ctx, i)), Least(avail, limits), Most(avail, limits))
  }

  /** Its profit is what a trade of that size earns. */
  lemma ProfitIsGain<C>(sdk: Sdk<C>, flow: Flow<C>, p: Pool<C>, venue: Venue, price: real, gas: real, limits: Limits,
                        i: nat, dx: real)
    requires price > 0.0 && venue.discount >= 0.0 && i <= 1
    ensures TradeBounds.Profit(MarketOf(sdk, flow, p, venue, price, gas, limits, i), dx) ==
            Gain(flow, p, venue, price, gas, i, dx)
  {
    var fee, out, mark := flow.fee(p, i, dx), flow.output(p, i, dx), if i == 0 then Bid(venue, price)
                          else Ask(venue, price);
    assert out - fee * out == (1.0 - fee) * out;
    if i == 0 { assert Sold(1.0 - fee, out, mark) == (out - fee * out) * mark; }
  }

  /** Both floors hold of the market, given that its output is concave. */
  lemma MarketIsFaithful<C(!new)>(sdk: Sdk<C>, flow: Flow<C>, p: Pool<C>, venue: Venue, price: real, gas: real,
                                  limits: Limits, i: nat)
    requires Promised(sdk, flow) && price > 0.0 && venue.discount >= 0.0 && i <= 1
    requires Least(Reserve(sdk, p.core, i), limits) < Most(Reserve(sdk, p.core, i), limits)
    requires Smooth(sdk, flow, p, limits, i)
    ensures TradeBounds.Faithful(MarketOf(sdk, flow, p, venue, price, gas, limits, i))
  {
    var m := MarketOf(sdk, flow, p, venue, price, gas, limits, i);
    hide TradeBounds.Concave, SideFloor, Most;
    forall dx | m.lo <= dx <= m.hi
      ensures m.output(dx) >= 0.0 && m.floorFee <= m.fee(dx) && m.screenFee <= m.fee(dx)
    {
      SideFloorHolds(sdk, flow, p, i, dx);
      assert Priced(sdk, p, i, dx, flow.output(p, i, dx)) && Charged(sdk, p, i, flow.fee(p, i, dx));
    }
  }

  /** Half of what equalises the two sides, at the pool's own scale: the size at which the native fee dips. */
  function Crossing<C>(sdk: Sdk<C>, core: C, i: nat): Option<real> {
    var x0, x1 := sdk.balance0(core), sdk.balance1(core) * sdk.priceScale(core);
    var unit := if i == 0 then 1.0 else sdk.priceScale(core);
    var sold, bought := if i == 0 then x0 else x1, if i == 0 then x1 else x0;
    if sold < bought && unit > 0.0 then Some((bought - sold) / (2.0 * unit)) else None
  }

  lemma CrossingIsHalfWay<C>(sdk: Sdk<C>, core: C, i: nat)
    requires Crossing(sdk, core, i).Some?
    ensures
      var dx, scale := Crossing(sdk, core, i).value, sdk.priceScale(core);
      var x0, x1 := sdk.balance0(core), sdk.balance1(core) * scale;
      dx > 0.0 && (if i == 0 then x0 + dx else x1 + dx * scale) == (x0 + x1) / 2.0
  {
    var unit := if i == 0 then 1.0 else sdk.priceScale(core);
    var gap: real := if i == 0 then sdk.balance1(core) * sdk.priceScale(core) - sdk.balance0(core)
                     else sdk.balance0(core) - sdk.balance1(core) * sdk.priceScale(core);
    DivMul(gap, 2.0 * unit);
    DivPos(gap, 2.0 * unit);
    assert gap / (2.0 * unit) * (2.0 * unit) == 2.0 * (gap / (2.0 * unit) * unit);
  }

  /** What a decision says of its direction: a trade earns its profit and nothing tried earns more; without one, and
      without a direction or a range, or after the screen, no size earns anything. */
  ghost predicate Decides<C(!new)>(sdk: Sdk<C>, flow: Flow<C>, p: Pool<C>, venue: Venue, price: real, gas: real,
                                   limits: Limits, i: nat, tried: seq<real>, t: Trade) {
    && t.i == i && t.dy + t.fee == flow.output(p, i, t.dx) && t.fee == flow.fee(p, i, t.dx) * flow.output(p, i, t.dx)
    && t.profit == Gain(flow, p, venue, price, gas, i, t.dx) && (t.go <==> t.profit > 0.0)
    && t.notional == (if i == 0 then t.dx else t.dx * price)
    && Least(Reserve(sdk, p.core, i), limits) <= t.dx <= Most(Reserve(sdk, p.core, i), limits)
    && t.dx in tried
    && forall k :: 0 <= k < |tried| ==> Gain(flow, p, venue, price, gas, i, tried[k]) <= t.profit
  }

  /** No size of the range, when there is one, earns anything in this direction. */
  ghost predicate NothingToGain<C(!new)>(sdk: Sdk<C>, flow: Flow<C>, p: Pool<C>, venue: Venue, price: real, gas: real,
                                         limits: Limits, i: nat) {
    var avail := Reserve(sdk, p.core, i);
    Least(avail, limits) < Most(avail, limits) ==>
      forall dx :: Least(avail, limits) <= dx <= Most(avail, limits) ==> Gain(flow, p, venue, price, gas, i, dx) <= 0.0
  }

  lemma LeastIsPositive(avail: real, limits: Limits)
    ensures Least(avail, limits) > 0.0
    ensures avail == 0.0 ==> Most(avail, limits) < Least(avail, limits)
  {}

  lemma DirectionIsOne<C>(sdk: Sdk<C>, p: Pool<C>, venue: Venue, price: real, tradeOnly: bool)
    requires Direction(sdk, p, venue, price, tradeOnly).Some?
    ensures Direction(sdk, p, venue, price, tradeOnly).value <= 1 && price > 0.0
  {
    hide ContextRejects, SideFloor, Rho;
  }

  lemma NoDirection<C(!new)>(sdk: Sdk<C>, flow: Flow<C>, p: Pool<C>, venue: Venue, price: real, gas: real,
                             limits: Limits,
                             i: nat)
    requires Promised(sdk, flow) && gas >= 0.0 && price > 0.0 && i <= 1
    requires Direction(sdk, p, venue, price, false).None?
    ensures NothingToGain(sdk, flow, p, venue, price, gas, limits, i)
  {
    hide Gain, Least, Most, Direction, Promised;
    var avail := Reserve(sdk, p.core, i);
    LeastIsPositive(avail, limits);
    forall dx | Least(avail, limits) <= dx <= Most(avail, limits)
      ensures Gain(flow, p, venue, price, gas, i, dx) <= 0.0
    {
      NoneHidesNothing(sdk, flow, p, venue, price, gas, i, dx);
    }
  }

  /** The search's answer, told in terms of trades. */
  lemma AnswerDecides<C(!new)>(sdk: Sdk<C>, flow: Flow<C>, p: Pool<C>, venue: Venue, price: real, gas: real,
                               limits: Limits, i: nat, tried: seq<real>, c: TradeSizing.Candidate, t: Trade)
    requires price > 0.0 && venue.discount >= 0.0 && i <= 1
    requires var m := MarketOf(sdk, flow, p, venue, price, gas, limits, i);
             && TradeSizing.AddsUp(m, c) && c.profit == TradeBounds.Profit(m, c.dx) && m.lo <= c.dx <= m.hi
             && c.dx in tried && forall k :: 0 <= k < |tried| ==> TradeBounds.Profit(m, tried[k]) <= c.profit
    requires t == Trade(c.profit > 0.0, i, c.dx, c.dy, c.profit, c.fee, if i == 0 then c.dx else c.dx * price)
    ensures Decides(sdk, flow, p, venue, price, gas, limits, i, tried, t)
  {
    hide Gain, TradeBounds.Profit, SideFloor, Least, Most;
    ProfitIsGain(sdk, flow, p, venue, price, gas, limits, i, c.dx);
    forall k | 0 <= k < |tried| ensures Gain(flow, p, venue, price, gas, i, tried[k]) <= t.profit {
      ProfitIsGain(sdk, flow, p, venue, price, gas, limits, i, tried[k]);
    }
  }

  lemma ScreenedGainsNothing<C(!new)>(sdk: Sdk<C>, flow: Flow<C>, p: Pool<C>, venue: Venue, price: real, gas: real,
                                      limits: Limits, i: nat)
    requires price > 0.0 && venue.discount >= 0.0 && i <= 1
    requires var m := MarketOf(sdk, flow, p, venue, price, gas, limits, i);
             forall dx :: m.lo <= dx <= m.hi ==> TradeBounds.Profit(m, dx) < 0.0
    ensures NothingToGain(sdk, flow, p, venue, price, gas, limits, i)
  {
    hide Gain, TradeBounds.Profit, SideFloor, Least, Most;
    var m, avail := MarketOf(sdk, flow, p, venue, price, gas, limits, i), Reserve(sdk, p.core, i);
    forall dx | Least(avail, limits) <= dx <= Most(avail, limits)
      ensures Gain(flow, p, venue, price, gas, i, dx) <= 0.0
    {
      ProfitIsGain(sdk, flow, p, venue, price, gas, limits, i, dx);
      assert TradeBounds.Profit(m, dx) < 0.0;
    }
  }

  /** Sizes one action: picks a direction, searches its market, and trades the answer when it earns something. Nothing
      is tried only where there is nothing to gain, or no range to search. */
  method DecideTrade<C(!new)>(sdk: Sdk<C>, flow: Flow<C>, p: Pool<C>, venue: Venue, price: real, gas: real,
                              limits: Limits,
                              sc: TradeScreen.Scale, sqrt: real -> real, seed: real, tradeOnly: bool)
      returns (t: Trade, ghost tried: seq<real>)
    requires Promised(sdk, flow) && gas >= 0.0 && TradeScreen.Faithful(sc) && venue.discount >= 0.0
    requires forall i :: 0 <= i <= 1 ==> Smooth(sdk, flow, p, limits, i)
    ensures !t.go ==> (tried == [] <==> t.dx == 0.0)
    ensures tried == [] ==> !t.go && t.profit == 0.0
    ensures tried != [] ==> Direction(sdk, p, venue, price, tradeOnly).Some?
    ensures tried != [] ==>
              Decides(sdk, flow, p, venue, price, gas, limits, Direction(sdk, p, venue, price, tradeOnly).value, tried,
                      t)
    ensures tried == [] && Direction(sdk, p, venue, price, tradeOnly).Some? ==>
              NothingToGain(sdk, flow, p, venue, price, gas, limits, Direction(sdk, p, venue, price, tradeOnly).value)
    ensures !tradeOnly && price > 0.0 && Direction(sdk, p, venue, price, false).None? ==>
              NothingToGain(sdk, flow, p, venue, price, gas, limits, 0) &&
              NothingToGain(sdk, flow, p, venue, price, gas, limits, 1)
  {
    hide Gain, Least, Most, SideFloor, TradeBounds.Concave, TradeBounds.Profit, TradeBounds.Faithful, Promised, Smooth,
         TradeScreen.Faithful, MarketOf, Direction, NothingToGain, Decides, TradeSizing.AddsUp;
    var direction := Direction(sdk, p, venue, price, tradeOnly);
    tried := [];
    if direction.None? {
      if !tradeOnly && price > 0.0 {
        NoDirection(sdk, flow, p, venue, price, gas, limits, 0);
        NoDirection(sdk, flow, p, venue, price, gas, limits, 1);
      }
      return NO_TRADE, tried;
    }
    var i := direction.value;
    DirectionIsOne(sdk, p, venue, price, tradeOnly);
    var avail := Reserve(sdk, p.core, i);
    LeastIsPositive(avail, limits);
    NoRange(sdk, flow, p, venue, price, gas, limits, i);
    if !(avail > 0.0) || !(Most(avail, limits) > Least(avail, limits)) { return NO_TRADE.(i := i), tried; }
    var m := MarketOf(sdk, flow, p, venue, price, gas, limits, i);
    MarketIsFaithful(sdk, flow, p, venue, price, gas, limits, i);
    MarketRange(sdk, flow, p, venue, price, gas, limits, i);
    var search := new TradeSizing.Search(m);
    var d, _ := search.Decide(sc, sqrt, seed, Crossing(sdk, p.core, i), sdk.nativeFee(p.core), sdk.feeOrdered(p.core),
                              tradeOnly);
    if !d.sized {
      ScreenedGainsNothing(sdk, flow, p, venue, price, gas, limits, i);
      return NO_TRADE.(i := i), tried;
    }
    var c := d.c;
    t := Trade(d.go, i, c.dx, c.dy, c.profit, c.fee, if i == 0 then c.dx else c.dx * price);
    tried := search.tried;
    BestIsTried(m, tried, c);
    AnswerDecides(sdk, flow, p, venue, price, gas, limits, i, tried, c, t);
  }

  lemma BestIsTried(m: TradeBounds.Market, tried: seq<real>, c: TradeSizing.Candidate)
    requires TradeSizing.FirstBest(m, tried, c)
    ensures c.dx in tried && tried != [] && c.profit == TradeBounds.Profit(m, c.dx)
  {
    TradeSizing.BestIsMost(m, tried, c);
    hide TradeBounds.Profit;
  }

  /** The curve output of a direction is concave over the sizes allowed. */
  ghost predicate Smooth<C(!new)>(sdk: Sdk<C>, flow: Flow<C>, p: Pool<C>, limits: Limits, i: nat) {
    TradeBounds.Concave((dx: real) => flow.output(p, i, dx), Least(Reserve(sdk, p.core, i), limits),
                        Most(Reserve(sdk, p.core, i), limits))
  }

  lemma NoRange<C(!new)>(sdk: Sdk<C>, flow: Flow<C>, p: Pool<C>, venue: Venue, price: real, gas: real, limits: Limits,
                         i: nat)
    ensures var avail := Reserve(sdk, p.core, i);
            !(avail > 0.0) || !(Most(avail, limits) > Least(avail, limits)) ==>
              NothingToGain(sdk, flow, p, venue, price, gas, limits, i)
  {
    hide Gain, Least, Most;
    LeastIsPositive(Reserve(sdk, p.core, i), limits);
  }

  lemma MarketRange<C>(sdk: Sdk<C>, flow: Flow<C>, p: Pool<C>, venue: Venue, price: real, gas: real, limits: Limits,
                       i: nat)
    requires price > 0.0 && venue.discount >= 0.0
    ensures
      var m, avail := MarketOf(sdk, flow, p, venue, price, gas, limits, i), Reserve(sdk, p.core, i);
      m.lo == Least(avail, limits) && m.hi == Most(avail, limits)
  {
    hide SideFloor, Least, Most;
  }
}
