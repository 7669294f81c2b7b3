/** Which direction, if any, a native arbitrage may size: the tests in front of the search. */
module TradeEntry {
  import opened Algebra
  import opened PoolSdk
  import opened Wrappers

  /** The outcome of sizing one action. */
  datatype Trade = Trade(go: bool, i: nat, dx: real, dy: real, profit: real, fee: real, notional: real)

  const NO_TRADE := Trade(false, 0, 0.0, 0.0, 0.0, 0.0, 0.0)

  /** External proceeds and cost per unit of the event price. */
  datatype Venue = Venue(discount: real, markup: Pos)

  function Bid(venue: Venue, price: real): real { venue.discount * price }
  function Ask(venue: Venue, price: real): real { venue.markup * price }

  lemma AskPositive(venue: Venue, price: real)
    requires price > 0.0
    ensures Ask(venue, price) > 0.0
  {
    MulPos(venue.markup, price);
  }

  const LEAST := 0.000000000001

  /** The share kept after a fee, floored. */
  function Keep(fee: real): Pos { Max(1.0 - fee, LEAST) }

  function Kept(keep: real, mark: real): real { keep * mark }

  predicate SellsAbove(keep: real, mark: real, spot: real) { Kept(keep, mark) > spot }

  /** Whether the event price clears the pool's global fee floor in either direction. */
  predicate MayTrade<C>(sdk: Sdk<C>, core: C, venue: Venue, price: real) {
    price > 0.0 &&
    (SellsAbove(Keep(sdk.feeFloor(core)), Bid(venue, price), sdk.spotPrice(core)) ||
     SellsAbove(Keep(sdk.feeFloor(core)), sdk.spotPrice(core), Ask(venue, price)))
  }

  /** The lowest fee any size of a trade in direction `i` can pay. */
  function SideFloor<C>(sdk: Sdk<C>, core: C, fee: real, i: nat): real {
    var floor := sdk.feeFloor(core);
    var scarcer := if i == 0 then sdk.reserve0Scarcer(core) else sdk.reserve1Scarcer(core);
    if !sdk.nativeFee(core) || scarcer then floor
    else if sdk.feeOrdered(core) then fee else floor
  }

  /** The context's own bounds, when stronger than the global one, can rule out both directions. */
  predicate ContextRejects<C>(sdk: Sdk<C>, core: C, ctx: Context, venue: Venue, price: real) {
    var floor, f01, f10 := sdk.feeFloor(core), sdk.contextFloor(core, ctx, 0), sdk.contextFloor(core, ctx, 1);
    && (f01 > floor || f10 > floor)
    && !SellsAbove(Keep(f01), Bid(venue, price), sdk.spotPrice(core))
    && !SellsAbove(Keep(f10), sdk.spotPrice(core), Ask(venue, price))
  }

  function Rho(keep: real, mark: real, reference: real): real
    requires reference > 0.0
  {
    keep * mark / reference
  }

  /** The direction to size, or None, given the pool's spot price and fee. `tradeOnly` callers discard
      unprofitable decisions. */
  function DirectionAt<C>(sdk: Sdk<C>, pool: Pool<C>, spot: Pos, fee: real, venue: Venue, price: real,
                          tradeOnly: bool): Option<nat> {
    if !(price > 0.0) || ContextRejects(sdk, pool.core, pool.ctx, venue, price) then None
    else
      AskPositive(venue, price);
      var rho01 := Rho(Keep(SideFloor(sdk, pool.core, fee, 0)), Bid(venue, price), spot);
      var rho10 := Rho(Keep(SideFloor(sdk, pool.core, fee, 1)), spot, Ask(venue, price));
      if rho01 <= 1.0 && rho10 <= 1.0 then None
      else
        var i := if rho01 >= rho10 then 0 else 1;
        var edge := if i == 0 then Bid(venue, price) else Ask(venue, price);
        if tradeOnly && !sdk.contextMayProfit(pool.core, pool.ctx, i, spot, edge) then None else Some(i)
  }

  function Direction<C>(sdk: Sdk<C>, pool: Pool<C>, venue: Venue, price: real, tradeOnly: bool): Option<nat> {
    DirectionAt(sdk, pool, sdk.spotPrice(pool.core), sdk.fee(pool), venue, price, tradeOnly)
  }

  /** A direction is sized only when it clears the global floor, and for callers that keep only trades only
      when the context may profit in it. */
  lemma DirectionClearsFloor<C(!new)>(sdk: Sdk<C>, pool: Pool<C>, venue: Venue, price: real, tradeOnly: bool)
    requires Sound(sdk) && Direction(sdk, pool, venue, price, tradeOnly).Some?
    ensures
      var i := Direction(sdk, pool, venue, price, tradeOnly).value;
      var keep, spot := Keep(sdk.feeFloor(pool.core)), sdk.spotPrice(pool.core);
      && i <= 1 && price > 0.0
      && (i == 0 ==> SellsAbove(keep, Bid(venue, price), spot))
      && (i == 1 ==> SellsAbove(keep, spot, Ask(venue, price)))
      && (tradeOnly ==> sdk.contextMayProfit(pool.core, pool.ctx, i, spot,
                                             if i == 0 then Bid(venue, price) else Ask(venue, price)))
    ensures MayTrade(sdk, pool.core, venue, price)
  {
    hide Rho, SellsAbove, Bid, Ask;
    var i := Direction(sdk, pool, venue, price, tradeOnly).value;
    var spot: real := sdk.spotPrice(pool.core);
    assert sdk.feeFloor(pool.core) <= sdk.fee(pool);
    AskPositive(venue, price);
    if i == 0 {
      RhoAboveOne(Keep(SideFloor(sdk, pool.core, sdk.fee(pool), 0)), Keep(sdk.feeFloor(pool.core)), Bid(venue, price),
                  spot);
    } else {
      RhoAboveOne(Keep(SideFloor(sdk, pool.core, sdk.fee(pool), 1)), Keep(sdk.feeFloor(pool.core)), spot,
                  Ask(venue, price));
    }
  }

  lemma RhoAboveOne(keep: Pos, most: Pos, mark: real, reference: real)
    requires keep <= most && reference > 0.0 && Rho(keep, mark, reference) > 1.0
    ensures SellsAbove(most, mark, reference)
  {
    DivCompare(keep * mark, 1.0, reference);
    if mark <= 0.0 { MulNonNeg(keep, -mark); assert keep * -mark == -(keep * mark); }
    MulMonotone(keep, most, mark);
  }
}
