/** The tests in front of sizing hide no profitable trade. */
module TradeReach {
  import opened Algebra
  import opened PoolSdk
  import opened TradeEntry
  import opened Wrappers

  /** Gross output and fee rate of a trade of any size in a direction. */
  datatype Flow<!C> = Flow(output: (Pool<C>, nat, real) -> real, fee: (Pool<C>, nat, real) -> real)

  /** What the SDK promises of trades: no size gets more than the spot price gives, and no fee is below the pool's
      floor, the context's own, or, where the native fee is ordered, the fee at rest for a trade that sells the coin
      which is not the scarcer: that moves reserves away from where the fee dips. */
  ghost predicate Promised<C(!new)>(sdk: Sdk<C>, flow: Flow<C>) {
    forall p: Pool<C>, i: nat, dx: real :: i <= 1 && dx > 0.0 ==>
      && Priced(sdk, p, i, dx, flow.output(p, i, dx))
      && Charged(sdk, p, i, flow.fee(p, i, dx))
  }

  predicate Priced<C>(sdk: Sdk<C>, p: Pool<C>, i: nat, dx: real, out: real) {
    out >= 0.0 && if i == 0 then out * sdk.spotPrice(p.core) <= dx else out <= dx * sdk.spotPrice(p.core)
  }

  predicate Charged<C>(sdk: Sdk<C>, p: Pool<C>, i: nat, fee: real) {
    && sdk.feeFloor(p.core) <= fee <= 1.0 && sdk.contextFloor(p.core, p.ctx, i) <= fee
    && var scarcer := if i == 0 then sdk.reserve0Scarcer(p.core) else sdk.reserve1Scarcer(p.core);
       sdk.nativeFee(p.core) && sdk.feeOrdered(p.core) && !scarcer ==> sdk.fee(p) <= fee
  }

  /** What a size earns: its output after the fee sold at the bid, or bought for the ask, less gas. */
  function Gain<C>(flow: Flow<C>, p: Pool<C>, venue: Venue, price: real, gas: real, i: nat, dx: real): real {
    var net, out := 1.0 - flow.fee(p, i, dx), flow.output(p, i, dx);
    if i == 0 then Sold(net, out, Bid(venue, price)) - dx - gas else Part(net, out) - Part(dx, Ask(venue, price)) - gas
  }

  function Part(a: real, b: real): real { a * b }

  function Sold(net: real, out: real, mark: real): real { net * out * mark }

  /** The floor of a side bounds the fee of every size in it. */
  lemma SideFloorHolds<C(!new)>(sdk: Sdk<C>, flow: Flow<C>, p: Pool<C>, i: nat, dx: real)
    requires Promised(sdk, flow) && i <= 1 && dx > 0.0
    ensures SideFloor(sdk, p.core, sdk.fee(p), i) <= flow.fee(p, i, dx)
  {
    assert Priced(sdk, p, i, dx, flow.output(p, i, dx)) && Charged(sdk, p, i, flow.fee(p, i, dx));
  }

  /** A side whose first unit loses at a bound on its fees loses at every size. */
  lemma FirstUnitBounds(keep: real, net: real, out: real, mark: real, spot: real, dx: real)
    requires 0.0 <= net <= keep && out >= 0.0 && dx > 0.0 && spot > 0.0 && out * spot <= dx && Kept(keep, mark) <= spot
    ensures Sold(net, out, mark) <= dx
  {
    MulNonNeg(net, out);
    if mark <= 0.0 {
      MulNonNeg(net * out, -mark);
      assert net * out * -mark == -(net * out * mark);
    } else {
      MulMonotone(net, keep, mark);
      Commute(net, mark);
      MulMonotone(net * mark, spot, out);
      assert net * out * mark == net * mark * out;
      Commute(spot, out);
    }
  }

  lemma Unsold(keep: real, net: real, out: real, cost: real, spot: real, dx: real)
    requires 0.0 <= net <= keep && out >= 0.0 && dx > 0.0 && spot > 0.0 && out <= dx * spot && Kept(keep, spot) <= cost
    ensures Part(net, out) <= Part(dx, cost)
  {
    MulMonotone(out, dx * spot, net);
    Commute(out, net);
    Commute(dx * spot, net);
    MulMonotone(net, keep, spot);
    MulMonotone(net * spot, cost, dx);
    assert net * (dx * spot) == net * spot * dx;
    Commute(cost, dx);
  }

  /** Direction `i`, whose first unit does not clear the price at a bound on its fees. */
  lemma BlockedLoses<C(!new)>(sdk: Sdk<C>, flow: Flow<C>, p: Pool<C>, venue: Venue, price: real, gas: real, i: nat,
                              dx: real, floor: real)
    requires Promised(sdk, flow) && i <= 1 && dx > 0.0 && gas >= 0.0 && floor <= flow.fee(p, i, dx)
    requires i == 0 ==> !SellsAbove(Keep(floor), Bid(venue, price), sdk.spotPrice(p.core))
    requires i == 1 ==> !SellsAbove(Keep(floor), sdk.spotPrice(p.core), Ask(venue, price))
    ensures Gain(flow, p, venue, price, gas, i, dx) <= 0.0
  {
    assert Priced(sdk, p, i, dx, flow.output(p, i, dx)) && Charged(sdk, p, i, flow.fee(p, i, dx));
    var net, out, spot: real := 1.0 - flow.fee(p, i, dx), flow.output(p, i, dx), sdk.spotPrice(p.core);
    assert 0.0 <= net <= Keep(floor);
    hide Keep, Kept, Sold, Part, Bid, Ask;
    if i == 0 {
      FirstUnitBounds(Keep(floor), net, out, Bid(venue, price), spot, dx);
    } else {
      Unsold(Keep(floor), net, out, Ask(venue, price), spot, dx);
    }
  }

  lemma RhoAtMostOne(keep: Pos, mark: real, reference: real)
    requires reference > 0.0
    ensures Rho(keep, mark, reference) <= 1.0 <==> !SellsAbove(keep, mark, reference)
  {
    DivCompare(keep * mark, 1.0, reference);
  }

  /** When no direction is sized, no size in either direction earns anything. */
  lemma NoneHidesNothing<C(!new)>(sdk: Sdk<C>, flow: Flow<C>, p: Pool<C>, venue: Venue, price: real, gas: real, i: nat,
                                  dx: real)
    requires Promised(sdk, flow) && price > 0.0 && gas >= 0.0 && i <= 1 && dx > 0.0
    requires Direction(sdk, p, venue, price, false).None?
    ensures Gain(flow, p, venue, price, gas, i, dx) <= 0.0
  {
    hide Gain, SideFloor, Rho, SellsAbove;
    assert Charged(sdk, p, i, flow.fee(p, i, dx));
    if ContextRejects(sdk, p.core, p.ctx, venue, price) {
      BlockedLoses(sdk, flow, p, venue, price, gas, i, dx, sdk.contextFloor(p.core, p.ctx, i));
    } else {
      AskPositive(venue, price);
      SideFloorHolds(sdk, flow, p, i, dx);
      RhoAtMostOne(Keep(SideFloor(sdk, p.core, sdk.fee(p), 0)), Bid(venue, price), sdk.spotPrice(p.core));
      RhoAtMostOne(Keep(SideFloor(sdk, p.core, sdk.fee(p), 1)), sdk.spotPrice(p.core), Ask(venue, price));
      BlockedLoses(sdk, flow, p, venue, price, gas, i, dx, SideFloor(sdk, p.core, sdk.fee(p), i));
    }
  }

  /** When one direction is sized, no size in the other earns anything, as long as the bid is no higher than the ask. */
  lemma OtherSideLoses<C(!new)>(sdk: Sdk<C>, flow: Flow<C>, p: Pool<C>, venue: Venue, price: real, gas: real, i: nat,
                                dx: real)
    requires Promised(sdk, flow) && gas >= 0.0 && dx > 0.0 && venue.discount <= venue.markup
    requires Direction(sdk, p, venue, price, false) == Some(i) && sdk.feeFloor(p.core) >= 0.0 && sdk.fee(p) >= 0.0
    ensures i <= 1 && Gain(flow, p, venue, price, gas, 1 - i, dx) <= 0.0
  {
    hide Gain, SideFloor, Rho, SellsAbove, ContextRejects;
    AskPositive(venue, price);
    SideFloorHolds(sdk, flow, p, 1 - i, dx);
    var k0, k1, spot := Keep(SideFloor(sdk, p.core, sdk.fee(p), 0)), Keep(SideFloor(sdk, p.core, sdk.fee(p), 1)),
                        sdk.spotPrice(p.core);
    SideFloorNonNeg(sdk, p, 0);
    SideFloorNonNeg(sdk, p, 1);
    MulMonotone(venue.discount, venue.markup, price);
    NotBothAbove(k0, k1, Bid(venue, price), Ask(venue, price), spot);
    RhoAtMostOne(k0, Bid(venue, price), spot);
    RhoAtMostOne(k1, spot, Ask(venue, price));
    BlockedLoses(sdk, flow, p, venue, price, gas, 1 - i, dx, SideFloor(sdk, p.core, sdk.fee(p), 1 - i));
  }

  lemma SideFloorNonNeg<C>(sdk: Sdk<C>, p: Pool<C>, i: nat)
    requires sdk.feeFloor(p.core) >= 0.0 && sdk.fee(p) >= 0.0
    ensures Keep(SideFloor(sdk, p.core, sdk.fee(p), i)) <= 1.0
  {}

  lemma NotBothAbove(k0: Pos, k1: Pos, bid: real, ask: real, spot: Pos)
    requires k0 <= 1.0 && k1 <= 1.0 && bid <= ask
    ensures !SellsAbove(k0, bid, spot) || !SellsAbove(k1, spot, ask)
  {
    KeptIsLess(k0, bid);
    KeptIsLess(k1, spot);
    hide Kept;
  }

  lemma KeptIsLess(keep: Pos, mark: real)
    requires keep <= 1.0
    ensures mark >= 0.0 ==> Kept(keep, mark) <= mark
    ensures mark < 0.0 ==> Kept(keep, mark) <= 0.0
  {
    if mark >= 0.0 {
      MulMonotone(keep, 1.0, mark);
      assert 1.0 * mark == mark;
    } else {
      MulNonNeg(keep, -mark);
      assert keep * -mark == -(keep * mark);
    }
  }
}
