/** Masked pool patches: applying one to a pool setup, and overlaying one on another. */
module PoolOverrides {
  import opened Wrappers

  datatype Curve = Curve(
    initialLiq: (real, real), a: real, gamma: real, midFee: real, outFee: real, feeGamma: real,
    adjustmentStepMin: real, adjustmentStepMax: real)

  /** `H` is the historical state a setup may start from. */
  datatype Start<H> = Start(
    maTime: real, reservedProfitFraction: real, adminFee: real, policyKind: string, policyConfig: seq<real>,
    initialPrice: real, startTs: nat, historicalState: Option<H>)

  datatype Flows = Flows(
    donationApy: real, donationFrequency: real, donationDuration: real, initialDonationDays: real,
    donationCoinsRatio: real, userSwapSizeFrac: real)

  /** A pool setup, its fields in three groups. */
  datatype PoolInit<H> = PoolInit(curve: Curve, start: Start<H>, flows: Flows)

  datatype Costs = Costs(arbFeeBps: real, gasCoin0: real, reportCoin0: real, entryEdgeBps: real)

  /** Run settings a patch may set, outside the masks. */
  datatype Options = Options(
    ybReleverageFee: Option<real>, reportRate: Option<real>, reportMaxAge: Option<real>,
    reportCount: Option<real>, reportRandomCount: Option<real>, reportOffset: Option<real>)

  /** One bit of the setup mask. The policy bit covers a setup's policy kind and its configuration. */
  datatype PoolField =
    | InitialLiquidity | A | Gamma | MidFee | OutFee | FeeGamma | AdjustmentStepMin | AdjustmentStepMax | MaTime
    | ReservedProfitFraction | AdminFee | Policy | InitialPrice | StartTimestamp | HistoricalState | DonationApy
    | DonationFrequency | DonationDuration | InitialDonationDays | DonationCoinsRatio | UserSwapSizeFrac

  /** One bit of the cost mask. */
  datatype CostField = ArbFeeBps | GasCoin0 | EntryEdgeBps | ReportCoin0

  /** The parsed override. Fields outside the masks carry no meaning. */
  datatype Override<H> = Override(pool: PoolInit<H>, costs: Costs, options: Options, poolFields: set<PoolField>,
                                  costFields: set<CostField>)

  function Pick<B, T>(mask: set<B>, bit: B, patched: T, kept: T): T { if bit in mask then patched else kept }

  function PatchedCurve(m: set<PoolField>, p: Curve, t: Curve): Curve {
    Curve(Pick(m, InitialLiquidity, p.initialLiq, t.initialLiq), Pick(m, A, p.a, t.a), Pick(m, Gamma, p.gamma, t.gamma),
          Pick(m, MidFee, p.midFee, t.midFee), Pick(m, OutFee, p.outFee, t.outFee),
          Pick(m, FeeGamma, p.feeGamma, t.feeGamma),
          Pick(m, AdjustmentStepMin, p.adjustmentStepMin, t.adjustmentStepMin),
          Pick(m, AdjustmentStepMax, p.adjustmentStepMax, t.adjustmentStepMax))
  }

  function PatchedStart<H>(m: set<PoolField>, p: Start<H>, t: Start<H>): Start<H> {
    Start(Pick(m, MaTime, p.maTime, t.maTime),
          Pick(m, ReservedProfitFraction, p.reservedProfitFraction, t.reservedProfitFraction),
          Pick(m, AdminFee, p.adminFee, t.adminFee), Pick(m, Policy, p.policyKind, t.policyKind),
          Pick(m, Policy, p.policyConfig, t.policyConfig), Pick(m, InitialPrice, p.initialPrice, t.initialPrice),
          Pick(m, StartTimestamp, p.startTs, t.startTs), Pick(m, HistoricalState, p.historicalState, t.historicalState))
  }

  function PatchedFlows(m: set<PoolField>, p: Flows, t: Flows): Flows {
    Flows(Pick(m, DonationApy, p.donationApy, t.donationApy),
          Pick(m, DonationFrequency, p.donationFrequency, t.donationFrequency),
          Pick(m, DonationDuration, p.donationDuration, t.donationDuration),
          Pick(m, InitialDonationDays, p.initialDonationDays, t.initialDonationDays),
          Pick(m, DonationCoinsRatio, p.donationCoinsRatio, t.donationCoinsRatio),
          Pick(m, UserSwapSizeFrac, p.userSwapSizeFrac, t.userSwapSizeFrac))
  }

  /** A setup after a patch, field by field. */
  function Patched<H>(o: Override<H>, t: PoolInit<H>): PoolInit<H> {
    PoolInit(PatchedCurve(o.poolFields, o.pool.curve, t.curve), PatchedStart(o.poolFields, o.pool.start, t.start),
             PatchedFlows(o.poolFields, o.pool.flows, t.flows))
  }

  function PatchedCosts<H>(o: Override<H>, t: Costs): Costs {
    var m, c := o.costFields, o.costs;
    Costs(Pick(m, ArbFeeBps, c.arbFeeBps, t.arbFeeBps), Pick(m, GasCoin0, c.gasCoin0, t.gasCoin0),
          Pick(m, ReportCoin0, c.reportCoin0, t.reportCoin0), Pick(m, EntryEdgeBps, c.entryEdgeBps, t.entryEdgeBps))
  }

  function Later<T>(earlier: Option<T>, patch: Option<T>): Option<T> { if patch.Some? then patch else earlier }

  function LaterOptions(e: Options, p: Options): Options {
    Options(Later(e.ybReleverageFee, p.ybReleverageFee), Later(e.reportRate, p.reportRate),
            Later(e.reportMaxAge, p.reportMaxAge),
            Later(e.reportCount, p.reportCount), Later(e.reportRandomCount, p.reportRandomCount),
            Later(e.reportOffset, p.reportOffset))
  }

  /** `o` with `patch` overlaid. */
  function Overlaid<H>(o: Override<H>, patch: Override<H>): Override<H> {
    Override(Patched(patch, o.pool), PatchedCosts(patch, o.costs), LaterOptions(o.options, patch.options),
             o.poolFields + patch.poolFields, o.costFields + patch.costFields)
  }

  /** What a candidate runs with: the setup, its costs and its options. */
  datatype Setup<H> = Setup(pool: PoolInit<H>, costs: Costs, options: Options)

  function Applied<H>(o: Override<H>, t: Setup<H>): Setup<H> {
    Setup(Patched(o, t.pool), PatchedCosts(o, t.costs), LaterOptions(t.options, o.options))
  }

  lemma CurveTwice(m: set<PoolField>, n: set<PoolField>, first: Curve, second: Curve, kept: Curve)
    ensures PatchedCurve(m + n, PatchedCurve(n, second, first), kept) ==
            PatchedCurve(n, second, PatchedCurve(m, first, kept))
  {}

  lemma StartTwice<H>(m: set<PoolField>, n: set<PoolField>, first: Start<H>, second: Start<H>, kept: Start<H>)
    ensures PatchedStart(m + n, PatchedStart(n, second, first), kept) ==
            PatchedStart(n, second, PatchedStart(m, first, kept))
  {}

  lemma FlowsTwice(m: set<PoolField>, n: set<PoolField>, first: Flows, second: Flows, kept: Flows)
    ensures PatchedFlows(m + n, PatchedFlows(n, second, first), kept) ==
            PatchedFlows(n, second, PatchedFlows(m, first, kept))
  {}

  /** Applying an overlay is applying the two patches one after the other. */
  lemma OverlayAppliesInOrder<H>(o: Override<H>, patch: Override<H>, t: Setup<H>)
    ensures Applied(Overlaid(o, patch), t) == Applied(patch, Applied(o, t))
  {
    hide PatchedCurve, PatchedStart, PatchedFlows;
    CurveTwice(o.poolFields, patch.poolFields, o.pool.curve, patch.pool.curve, t.pool.curve);
    StartTwice(o.poolFields, patch.poolFields, o.pool.start, patch.pool.start, t.pool.start);
    FlowsTwice(o.poolFields, patch.poolFields, o.pool.flows, patch.pool.flows, t.pool.flows);
  }

  function OverlaidAll<H>(o: Override<H>, patches: seq<Override<H>>): Override<H> {
    if patches == [] then o else Overlaid(OverlaidAll(o, patches[..|patches| - 1]), patches[|patches| - 1])
  }

  function AppliedAll<H>(t: Setup<H>, patches: seq<Override<H>>): Setup<H> {
    if patches == [] then t else Applied(patches[|patches| - 1], AppliedAll(t, patches[..|patches| - 1]))
  }

  /** Patches overlaid on a base and then applied act as the base and the patches applied in turn. */
  lemma {:induction false} OverlaysApplyInOrder<H>(o: Override<H>, patches: seq<Override<H>>, t: Setup<H>)
    ensures Applied(OverlaidAll(o, patches), t) == AppliedAll(Applied(o, t), patches)
  {
    hide Applied, Overlaid;
    if patches != [] {
      var n := |patches| - 1;
      OverlaysApplyInOrder(o, patches[..n], t);
      OverlayAppliesInOrder(OverlaidAll(o, patches[..n]), patches[n], t);
    }
  }

  /** The override of one candidate, patched in place while axes are laid over it. */
  class PoolOverride<H> {
    var pool: PoolInit<H>
    var costs: Costs
    var options: Options
    var poolFields: set<PoolField>
    var costFields: set<CostField>

    function View(): Override<H>
      reads this
    {
      Override(pool, costs, options, poolFields, costFields)
    }

    constructor (o: Override<H>)
      ensures View() == o
    {
      pool, costs, options, poolFields, costFields := o.pool, o.costs, o.options, o.poolFields, o.costFields;
    }

    method ApplyCurve(target: Curve) returns (t: Curve)
      ensures t == PatchedCurve(poolFields, pool.curve, target)
    {
      var p := pool.curve;
      t := target;
      if InitialLiquidity in poolFields { t := t.(initialLiq := p.initialLiq); }
      if A in poolFields { t := t.(a := p.a); }
      if Gamma in poolFields { t := t.(gamma := p.gamma); }
      if MidFee in poolFields { t := t.(midFee := p.midFee); }
      if OutFee in poolFields { t := t.(outFee := p.outFee); }
      if FeeGamma in poolFields { t := t.(feeGamma := p.feeGamma); }
      if AdjustmentStepMin in poolFields { t := t.(adjustmentStepMin := p.adjustmentStepMin); }
      if AdjustmentStepMax in poolFields { t := t.(adjustmentStepMax := p.adjustmentStepMax); }
    }

    method ApplyStart(target: Start<H>) returns (t: Start<H>)
      ensures t == PatchedStart(poolFields, pool.start, target)
    {
      var p := pool.start;
      t := target;
      if MaTime in poolFields { t := t.(maTime := p.maTime); }
      if ReservedProfitFraction in poolFields { t := t.(reservedProfitFraction := p.reservedProfitFraction); }
      if AdminFee in poolFields { t := t.(adminFee := p.adminFee); }
      if Policy in poolFields { t := t.(policyKind := p.policyKind, policyConfig := p.policyConfig); }
      if InitialPrice in poolFields { t := t.(initialPrice := p.initialPrice); }
      if StartTimestamp in poolFields { t := t.(startTs := p.startTs); }
      if HistoricalState in poolFields { t := t.(historicalState := p.historicalState); }
    }

    method ApplyFlows(target: Flows) returns (t: Flows)
      ensures t == PatchedFlows(poolFields, pool.flows, target)
    {
      var p := pool.flows;
      t := target;
      if DonationApy in poolFields { t := t.(donationApy := p.donationApy); }
      if DonationFrequency in poolFields { t := t.(donationFrequency := p.donationFrequency); }
      if DonationDuration in poolFields { t := t.(donationDuration := p.donationDuration); }
      if InitialDonationDays in poolFields { t := t.(initialDonationDays := p.initialDonationDays); }
      if DonationCoinsRatio in poolFields { t := t.(donationCoinsRatio := p.donationCoinsRatio); }
      if UserSwapSizeFrac in poolFields { t := t.(userSwapSizeFrac := p.userSwapSizeFrac); }
    }

    /** Patches the masked fields of a target and leaves the others. */
    method Apply(targetPool: PoolInit<H>, targetCosts: Costs) returns (p: PoolInit<H>, c: Costs)
      ensures p == Patched(View(), targetPool)
      ensures c == PatchedCosts(View(), targetCosts)
    {
      hide PatchedCurve, PatchedStart, PatchedFlows;
      var curve := ApplyCurve(targetPool.curve);
      var start := ApplyStart(targetPool.start);
      var flows := ApplyFlows(targetPool.flows);
      p, c := PoolInit(curve, start, flows), targetCosts;
      if ArbFeeBps in costFields { c := c.(arbFeeBps := costs.arbFeeBps); }
      if GasCoin0 in costFields { c := c.(gasCoin0 := costs.gasCoin0); }
      if EntryEdgeBps in costFields { c := c.(entryEdgeBps := costs.entryEdgeBps); }
      if ReportCoin0 in costFields { c := c.(reportCoin0 := costs.reportCoin0); }
    }

    /** Lays a patch over this override; the patch may be this very object. */
    method Overlay(patch: PoolOverride<H>)
      modifies this
      ensures View() == Overlaid(old(View()), old(patch.View()))
    {
      hide Patched, PatchedCosts;
      var p, c := patch.Apply(pool, costs);
      var o := patch.options;
      var fields, costMask := patch.poolFields, patch.costFields;
      pool, costs := p, c;
      poolFields, costFields := poolFields + fields, costFields + costMask;
      if o.reportMaxAge.Some? { options := options.(reportMaxAge := o.reportMaxAge); }
      if o.reportCount.Some? { options := options.(reportCount := o.reportCount); }
      if o.reportRandomCount.Some? { options := options.(reportRandomCount := o.reportRandomCount); }
      if o.reportOffset.Some? { options := options.(reportOffset := o.reportOffset); }
      if o.reportRate.Some? { options := options.(reportRate := o.reportRate); }
      if o.ybReleverageFee.Some? { options := options.(ybReleverageFee := o.ybReleverageFee); }
    }
  }
}
