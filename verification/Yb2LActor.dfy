/** The state-mutating actor: it moves its own ledger and the pool, and puts both back when any leg
    of a route is refused. */
module Yb2LActor {
  import opened Algebra
  import opened PoolSdk
  import opened Wrappers
  import Y = Yb2L
  import opened Yb2L

  datatype Result = Result(
    fired: bool, direction: nat, input: real, output: real, profit: real, donation: real,
    donated: bool, donationMoved: bool, adds: nat, removes: nat, addMoves: nat)

  const NOTHING := Result(false, 0, 0.0, 0.0, 0.0, 0.0, false, false, 0, 0, 0)

  class Actor {
    var state: Ledger

    constructor (state: Ledger)
      ensures this.state == state
    {
      this.state := state;
    }

    method AdvanceDebt(ts: nat)
      requires state.rateMul > 0.0
      modifies this
      ensures state == Y.AdvanceDebt(old(state), ts)
    {
      if ts < state.rateTime { return; }
      var nextMul := state.rateMul * (1.0 + state.rate * (ts - state.rateTime) as real);
      var nextDebt := state.debt * nextMul / state.rateMul;
      state := state.(debt := nextDebt);
      state := state.(rateMul := nextMul);
      state := state.(rateTime := ts);
    }

    method AccrueInterest(ts: nat)
      requires state.rateMul > 0.0
      modifies this
      ensures state == Y.Accrue(old(state), ts)
    {
      AdvanceDebt(ts);
      var interest := Pending(state.debt, state.minted, state.redeemed);
      if interest > state.cash { interest := Max(0.0, state.cash); }
      state := state.(minted := state.minted + interest);
      state := state.(cash := state.cash - interest);
      state := state.(ltCash := state.ltCash + interest);
    }

    /** A successful add mints toward `target` shares. After a refused one the caller restores the pool. */
    static method AddLiquidityToMint<C(!new)>(sdk: Sdk<C>, pool: PoolCell<C>, target: real)
      returns (minted: Option<real>, moved: bool)
      modifies pool
      ensures minted.Some? <==> AddToMint(sdk, old(pool.p), target).Some?
      ensures minted.Some? ==>
        var a := AddToMint(sdk, old(pool.p), target).value;
        minted.value == a.minted && moved == a.moved && pool.p == old(pool.p).(core := a.core)
    {
      hide Scaled;
      minted, moved := None, false;
      var supply := sdk.totalSupply(pool.p.core);
      if !(target > 0.0) || !(supply > 0.0) { return; }
      var amount0, amount1 := Scaled(sdk.balance0(pool.p.core), target, supply),
                              Scaled(sdk.balance1(pool.p.core), target, supply);
      var probe := sdk.addLiquidity(pool.p, amount0, amount1);
      if probe.None? || !(probe.value.1 > 0.0) { return; }
      amount0, amount1 := Scaled(amount0, target, probe.value.1), Scaled(amount1, target, probe.value.1);
      var scaleBefore := sdk.priceScale(pool.p.core);
      var added := sdk.addLiquidity(pool.p, amount0, amount1);
      if added.None? { return; }
      pool.p := pool.p.(core := added.value.0);
      if !(added.value.1 > 0.0) { return; }
      minted, moved := Some(added.value.1), sdk.priceScale(pool.p.core) != scaleBefore;
    }

    static method RemoveLiquidityLeg<C(!new)>(sdk: Sdk<C>, pool: PoolCell<C>, lp: real) returns (ok: bool)
      modifies pool
      ensures ok <==> RemoveLeg(sdk, old(pool.p), lp).Some?
      ensures ok ==> pool.p == old(pool.p).(core := RemoveLeg(sdk, old(pool.p), lp).value)
      ensures !ok ==> pool.p == old(pool.p)
    {
      if !(lp > 0.0) {
        assert pool.p.(core := pool.p.core) == pool.p;
        return true;
      }
      if lp > Circulating(sdk, pool.p.core) { return false; }
      var burnt := sdk.removeLiquidity(pool.p, lp);
      if burnt.None? { return false; }
      pool.p := pool.p.(core := burnt.value);
      return true;
    }

    /** Accrues into `candidate` and donates from it; this actor is left alone. */
    static method DonateInterest<C(!new)>(sdk: Sdk<C>, pool: PoolCell<C>, ts: nat, candidate: Actor)
      returns (ok: bool, amount: real, committed: bool, moved: bool)
      requires candidate.state.rateMul > 0.0
      modifies pool, candidate
      ensures ok <==> Y.DonateInterest(sdk, old(pool.p), old(candidate.state), ts).Some?
      ensures ok ==>
        var d := Y.DonateInterest(sdk, old(pool.p), old(candidate.state), ts).value;
        && pool.p == old(pool.p).(core := d.core) && candidate.state == d.ledger
        && amount == d.amount && committed == d.committed && moved == d.moved
    {
      hide Accrue, MinMint;
      amount, committed, moved := 0.0, false, false;
      candidate.AccrueInterest(ts);
      var donation := candidate.state.ltCash;
      if !(donation > DONATION_FLOOR) {
        assert pool.p.(core := pool.p.core) == pool.p;
        return true, amount, committed, moved;
      }
      amount := donation;
      var minMint := MinMint(candidate.state.ltDiscount, donation, sdk.lpPriceAt(pool.p.core, ts));
      var scaleBefore := sdk.priceScale(pool.p.core);
      var given := sdk.addDonation(pool.p, donation, 0.0, minMint);
      if given.None? { return false, amount, committed, moved; }
      pool.p := pool.p.(core := given.value);
      candidate.state := candidate.state.(ltCash := 0.0);
      return true, amount, true, sdk.priceScale(pool.p.core) != scaleBefore;
    }

    /** One attempt: either the route is committed as a whole, or pool and ledger are exactly as before. */
    method TryFire<C(!new)>(sdk: Sdk<C>, pool: PoolCell<C>, price: real, ts: nat, costs: Costs) returns (r: Result)
      requires Sane(state)
      modifies this, pool
      ensures match Y.TryFire(sdk, old(pool.p), old(state), price, ts, costs)
              case None => !r.fired && pool.p == old(pool.p) && state == old(state)
              case Some(f) =>
                && pool.p == old(pool.p).(core := f.core) && state == f.ledger
                && r == Result(true, f.direction, f.input, f.output, f.profit, f.donation, f.donated, f.donationMoved,
                               f.adds, f.removes, f.addMoves)
    {
      hide Y.Decide, Y.AddLegs, Y.Settle, Circulating;
      r := NOTHING;
      if state.killed || !(price > 0.0) || ts < state.rateTime { return; }
      var decision := Decide(sdk, pool.p, state, price, ts, costs);
      if decision.chosen < 0 { return; }
      var chosen := if decision.chosen == 0 then decision.p2 else decision.p1;
      if Abs(state.collateral - Circulating(sdk, pool.p.core)) > GAP_LIMIT { return; }

      var actorBefore, poolBefore := state, pool.p;
      if decision.chosen != 0 {
        var ok, fill, adds, removes, moves := MintSide(sdk, pool, price, ts, costs, chosen);
        if !ok {
          pool.p, state := poolBefore, actorBefore;
          return;
        }
        chosen := fill;
        r := r.(adds := adds, removes := removes, addMoves := moves);
      } else {
        assert pool.p.(core := pool.p.core) == pool.p;
      }
      ghost var legs := Legs(pool.p.core, chosen, r.adds, r.removes, r.addMoves);
      ghost var mid := pool.p;
      assert mid == poolBefore.(core := legs.core);
      var done, settled := Commit(sdk, pool, ts, chosen, r);
      if !done {
        pool.p, state := poolBefore, actorBefore;
        return;
      }
      r := settled;
    }

    /** Accrues the debt and moves the ledger to the fill's amounts. */
    method MoveLedger(ts: nat, chosen: Fill)
      requires Sane(state)
      modifies this
      ensures state == ApplyFill(Y.AdvanceDebt(old(state), ts), chosen) && state.rateMul > 0.0
    {
      hide Y.AdvanceDebt, ProjectedDebt;
      GrowthAtLeastOne(state, ts);
      AdvanceDebt(ts);
      state := state.(debt := chosen.debt, collateral := chosen.collateral, cash := chosen.cash,
                      minted := chosen.minted, redeemed := chosen.redeemed);
    }

    /** Ledger move, donation and burn. After a refusal the caller rolls the route back. */
    method Commit<C(!new)>(sdk: Sdk<C>, pool: PoolCell<C>, ts: nat, chosen: Fill, r0: Result)
        returns (ok: bool, r: Result)
      requires Sane(state)
      modifies this, pool
      ensures ok <==> Settle(sdk, old(pool.p), old(state), ts,
                             Legs(old(pool.p).core, chosen, r0.adds, r0.removes, r0.addMoves)).Some?
      ensures ok ==>
        var f := Settle(sdk, old(pool.p), old(state), ts,
                        Legs(old(pool.p).core, chosen, r0.adds, r0.removes, r0.addMoves)).value;
        && pool.p == old(pool.p).(core := f.core) && state == f.ledger
        && r == Result(true, f.direction, f.input, f.output, f.profit, f.donation, f.donated, f.donationMoved,
                       f.adds, f.removes, f.addMoves)
    {
      hide Y.DonateInterest, Y.AdvanceDebt, Y.RemoveLeg, ApplyFill;
      MoveLedger(ts, chosen);
      r := r0.(fired := true, direction := chosen.direction, input := chosen.input, output := chosen.output,
               profit := chosen.profit);
      var candidate := new Actor(state);
      var given, amount, committed, moved := DonateInterest(sdk, pool, ts, candidate);
      if !given { return false, r; }
      r := r.(donation := amount, donated := committed, donationMoved := moved);
      if r.direction == 0 {
        var burnt := RemoveLiquidityLeg(sdk, pool, r.output);
        if !burnt { return false, r; }
        r := r.(removes := r.removes + 1);
      }
      state := candidate.state;
      return true, r;
    }

    /** The mint side of a direction-1 route, up to its last reconciliation check. */
    method MintSide<C(!new)>(sdk: Sdk<C>, pool: PoolCell<C>, price: real, ts: nat, costs: Costs, first: Fill)
      returns (ok: bool, fill: Fill, adds: nat, removes: nat, moves: nat)
      requires state.levRatio > 0.0 && state.rateMul > 0.0
      modifies pool
      ensures ok <==> AddLegs(sdk, old(pool.p), state, price, ts, costs, first).Some?
      ensures ok ==>
        && AddLegs(sdk, old(pool.p), state, price, ts, costs, first).value ==
           Legs(pool.p.core, fill, adds, removes, moves)
        && pool.p == old(pool.p).(core := pool.p.core)
    {
      hide Y.Decide, Y.Correct, Tolerance, Circulating, AddToMint;
      fill, adds, removes, moves := first, 0, 0, 0;
      var minted, moved := AddLiquidityToMint(sdk, pool, first.input);
      if minted.None? { return false, fill, adds, removes, moves; }
      adds, moves := adds + 1, moves + (if moved then 1 else 0);
      var ledgered := minted.value;
      if Abs(ledgered - first.input) > Tolerance(first.input) { return false, fill, adds, removes, moves; }
      var postadd := Decide(sdk, pool.p, state, price, ts, costs);
      if postadd.chosen != 1 || !postadd.p1.valid { return false, fill, adds, removes, moves; }
      fill := postadd.p1;
      var corrected, minted', adds', removes', moves' := CorrectMint(sdk, pool, fill, ledgered);
      if !corrected { return false, fill, adds, removes, moves; }
      adds, removes, moves := adds + adds', removes + removes', moves + moves';
      return Abs(minted' - fill.input) <= Tolerance(fill.input), fill, adds, removes, moves;
    }

    /** Brings the shares minted so far to the fill's input, up or down, when they differ by more than the tolerance. */
    static method CorrectMint<C(!new)>(sdk: Sdk<C>, pool: PoolCell<C>, fill: Fill, ledgered: real)
      returns (ok: bool, minted: real, adds: nat, removes: nat, moves: nat)
      modifies pool
      ensures ok <==> Y.Correct(sdk, old(pool.p), fill, ledgered).Some?
      ensures ok ==>
        && Y.Correct(sdk, old(pool.p), fill, ledgered).value == Correction(pool.p.core, minted, adds, removes, moves)
        && pool.p == old(pool.p).(core := pool.p.core)
    {
      hide Tolerance, Circulating, AddToMint, RemoveLeg;
      minted, adds, removes, moves := ledgered, 0, 0, 0;
      var delta := fill.input - ledgered;
      var target := Tolerance(fill.input);
      if delta > target {
        var correction, moved := AddLiquidityToMint(sdk, pool, delta);
        if correction.None? { return false, minted, adds, removes, moves; }
        adds, moves := adds + 1, moves + (if moved then 1 else 0);
        minted := minted + correction.value;
      } else if delta < -target {
        var burnt := RemoveLiquidityLeg(sdk, pool, -delta);
        if !burnt { return false, minted, adds, removes, moves; }
        removes := removes + 1;
        minted := minted + delta;
      }
      return true, minted, adds, removes, moves;
    }
  }
}
