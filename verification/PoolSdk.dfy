/** The pool SDK (`twocrypto::pool`) is an installed library that the harness calls.
    Its internals are not part of this model: the harness sees it through a record of
    functions over an abstract state `C`. What the proofs assume of it is the predicate `Sound`
    below together with the argument and result types of the record; the proofs about sizing
    also assume `TradeBounds.Faithful`, and those that follow the ledger through a whole run of
    the loop `SharesStay`. */
module PoolSdk {
  import opened Algebra
  import opened Wrappers

  type NonNeg = r: real | r >= 0.0
  type Pos = r: real | r > 0.0 witness 1.0

  /** The policy's research context: rewritten before every use. */
  datatype Context = Context(blockTs: nat, oracle: real, feed: real, feedTs: real)

  /** A pool object. `core` holds reserves, shares, oracles and policy memory; the block clock and
      the research context are scratch inputs that each event sets before it acts. */
  datatype Pool<C> = Pool(core: C, clock: nat, ctx: Context)

  /** What the harness calls. Functions of `C` alone read neither the clock nor the context. */
  datatype Sdk<!C> = Sdk(
    balance0: C -> NonNeg,
    balance1: C -> NonNeg,
    totalSupply: C -> NonNeg,
    donationShares: C -> NonNeg,
    minLiquidity: NonNeg,
    noiseFee: NonNeg,
    priceScale: C -> NonNeg,
    priceOracle: C -> real,
    virtualPrice: C -> NonNeg,
    lpPriceAt: (C, nat) -> Pos,
    touchedAt: C -> nat,
    spotPrice: C -> Pos,
    feeFloor: C -> real,
    nativeFee: C -> bool,
    fee: Pool<C> -> NonNeg,
    feeOrdered: C -> bool,
    reserve0Scarcer: C -> bool,
    reserve1Scarcer: C -> bool,
    contextFloor: (C, Context, nat) -> real,
    contextMayProfit: (C, Context, nat, real, real) -> bool,
    protectionExpiry: C -> real,
    protectionPeriod: real,
    donationMaxRatio: real,
    addLiquidity: (Pool<C>, real, real) -> Option<(C, real)>,
    removeLiquidity: (Pool<C>, real) -> Option<C>,
    addDonation: (Pool<C>, real, real, real) -> Option<C>,
    previewedSwap: (Pool<C>, nat, real, real, real) -> Option<(C, real)>,
    simulateSwap: (Pool<C>, nat, real) -> real,
    swap: (Pool<C>, nat, real) -> Option<(C, real, real)>,
    tick: Pool<C> -> (C, bool),  // the state it leaves behind, and whether it completed
    sqrt: NonNeg -> NonNeg
  )

  /** LP shares held outside the donation buffer and the locked minimum. */
  function Circulating<C>(sdk: Sdk<C>, core: C): real {
    sdk.totalSupply(core) - sdk.donationShares(core) - sdk.minLiquidity
  }

  /** What every proof assumes about the SDK. */
  ghost predicate Sound<C(!new)>(sdk: Sdk<C>) {
    && (forall v: NonNeg :: sdk.sqrt(v) * sdk.sqrt(v) == v)
       // a native fee follows from the reserves, and no fee is below the configured floor
    && (forall p: Pool<C>, q: Pool<C> :: p.core == q.core && sdk.nativeFee(p.core) ==> sdk.fee(p) == sdk.fee(q))
    && (forall p: Pool<C> :: sdk.feeFloor(p.core) <= sdk.fee(p))
       // circulating shares move by exactly what a mint or a burn reports, and never by a donation
    && (forall p: Pool<C>, a: real, b: real :: sdk.addLiquidity(p, a, b).Some? ==>
          Circulating(sdk, sdk.addLiquidity(p, a, b).value.0) ==
          Circulating(sdk, p.core) + sdk.addLiquidity(p, a, b).value.1)
    && (forall p: Pool<C>, lp: real :: sdk.removeLiquidity(p, lp).Some? ==>
          Circulating(sdk, sdk.removeLiquidity(p, lp).value) == Circulating(sdk, p.core) - lp)
    && (forall p: Pool<C>, a: real, b: real, m: real :: sdk.addDonation(p, a, b, m).Some? ==>
          Circulating(sdk, sdk.addDonation(p, a, b, m).value) == Circulating(sdk, p.core))
  }

  /** Trades and ticks leave the circulating shares alone. */
  ghost predicate SharesStay<C(!new)>(sdk: Sdk<C>) {
    && (forall p: Pool<C>, i: nat, dx: real, dy: real, fee: real :: sdk.previewedSwap(p, i, dx, dy, fee).Some? ==>
          Circulating(sdk, sdk.previewedSwap(p, i, dx, dy, fee).value.0) == Circulating(sdk, p.core))
    && (forall p: Pool<C>, i: nat, dx: real :: sdk.swap(p, i, dx).Some? ==>
          Circulating(sdk, sdk.swap(p, i, dx).value.0) == Circulating(sdk, p.core))
    && (forall p: Pool<C> :: sdk.tick(p).1 ==> Circulating(sdk, sdk.tick(p).0) == Circulating(sdk, p.core))
  }

  lemma SqrtMonotone<C(!new)>(sdk: Sdk<C>, a: NonNeg, b: NonNeg)
    requires Sound(sdk)
    ensures a <= b <==> sdk.sqrt(a) <= sdk.sqrt(b)
  {
    Squares(sdk.sqrt(a), sdk.sqrt(b));
  }

  /** The pool object itself, which every actor mutates through the SDK. */
  class PoolCell<C> {
    var p: Pool<C>

    constructor (p: Pool<C>)
      ensures this.p == p
    {
      this.p := p;
    }
  }
}
