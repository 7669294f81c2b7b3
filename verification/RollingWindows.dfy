/** Rolling-window returns over the accepted samples: which baseline a window uses, and how few samples need be
    kept to find it. */
module RollingWindows {
  import opened Algebra
  import opened Durations
  import opened Wrappers

  datatype Sample = Sample(ts: nat, vp: real)

  /** A sample is accepted when its value is positive and the period has passed since the last accepted one. */
  predicate Accepts(h: seq<Sample>, period: nat, s: Sample) {
    s.vp > 0.0 && (h == [] || s.ts >= h[|h| - 1].ts + period)
  }

  /** Accepted samples: positive, and at least a period apart. */
  predicate Spaced(h: seq<Sample>, period: nat) {
    (forall k :: 0 <= k < |h| ==> h[k].vp > 0.0) &&
    (forall k :: 0 < k < |h| ==> h[k].ts >= h[k - 1].ts + period)
  }

  lemma {:induction false} SpacedOut(h: seq<Sample>, period: nat, i: nat, j: nat)
    requires Spaced(h, period) && i <= j < |h|
    ensures h[j].ts >= h[i].ts + (j - i) * period
  {
    if i < j {
      SpacedOut(h, period, i, j - 1);
      assert (j - i) * period == (j - 1 - i) * period + period;
    }
  }

  /** Accepted samples strictly ascend in time. */
  lemma SpacedAscends(h: seq<Sample>, period: nat, i: nat, j: nat)
    requires Spaced(h, period) && period > 0 && i <= j < |h|
    ensures h[i].ts <= h[j].ts && (i < j ==> h[i].ts < h[j].ts)
  {
    SpacedOut(h, period, i, j);
    Scale(0, j - i, period);
    if i < j { Scale(1, j - i, period); }
  }

  function Cutoff(ts: nat, window: nat): nat { if ts > window then ts - window else 0 }

  /** The latest of the samples at or before `cutoff`, or the first sample. */
  function Base(h: seq<Sample>, cutoff: nat): (b: nat)
    ensures b <= |h| && (h != [] ==> b < |h|)
  {
    if |h| <= 1 then 0 else if h[|h| - 1].ts <= cutoff then |h| - 1 else Base(h[..|h| - 1], cutoff)
  }

  lemma {:induction false} BaseIsLatest(h: seq<Sample>, period: nat, cutoff: nat, k: nat)
    requires Spaced(h, period) && period > 0 && k < |h|
    ensures k <= Base(h, cutoff) <==> k == 0 || h[k].ts <= cutoff
  {
    if |h| > 1 {
      var n := |h| - 1;
      if h[n].ts <= cutoff {
        SpacedAscends(h, period, k, n);
      } else if k < n {
        BaseIsLatest(h[..n], period, cutoff, k);
      }
    }
  }

  /** What is kept of a history whose last sample was just accepted: from the baseline on. */
  function Kept(h: seq<Sample>, window: nat): seq<Sample> {
    if h == [] then [] else h[Base(h, Cutoff(h[|h| - 1].ts, window))..]
  }

  /** Dropping the front while the second sample is at or before the cutoff. */
  function Trimmed(q: seq<Sample>, cutoff: nat): seq<Sample> {
    if |q| > 1 && q[1].ts <= cutoff then Trimmed(q[1..], cutoff) else q
  }

  lemma {:induction false} TrimmedFrom(h: seq<Sample>, period: nat, cutoff: nat, i: nat)
    requires Spaced(h, period) && period > 0 && h != [] && i <= Base(h, cutoff)
    ensures Trimmed(h[i..], cutoff) == h[Base(h, cutoff)..]
    decreases |h| - i
  {
    if i + 1 < |h| { BaseIsLatest(h, period, cutoff, i + 1); }
    if i < Base(h, cutoff) {
      TrimmedFrom(h, period, cutoff, i + 1);
      assert h[i..][1..] == h[i + 1..];
    }
  }

  lemma SpacedPush(h: seq<Sample>, period: nat, s: Sample)
    requires Spaced(h, period) && Accepts(h, period, s)
    ensures Spaced(h + [s], period)
  {
    var g := h + [s];
    assert forall k :: 0 <= k < |h| ==> g[k] == h[k];
  }

  /** A later sample never needs an earlier baseline. */
  lemma BaseMoves(h: seq<Sample>, period: nat, window: nat, s: Sample)
    requires h != [] && Spaced(h + [s], period) && Spaced(h, period) && period > 0 && s.ts >= h[|h| - 1].ts
    ensures Base(h, Cutoff(h[|h| - 1].ts, window)) <= Base(h + [s], Cutoff(s.ts, window))
  {
    hide Spaced, Base;
    var b := Base(h, Cutoff(h[|h| - 1].ts, window));
    BaseIsLatest(h, period, Cutoff(h[|h| - 1].ts, window), b);
    BaseIsLatest(h + [s], period, Cutoff(s.ts, window), b);
  }

  /** Trimming the kept samples and a new one keeps exactly what the longer history needs. */
  lemma KeptMoves(h: seq<Sample>, period: nat, window: nat, s: Sample)
    requires Spaced(h, period) && period > 0 && Accepts(h, period, s)
    ensures Spaced(h + [s], period)
    ensures Trimmed(Kept(h, window) + [s], Cutoff(s.ts, window)) == Kept(h + [s], window)
  {
    SpacedPush(h, period, s);
    assert h != [] ==> s.ts >= h[|h| - 1].ts;
    hide Spaced, Accepts, Base, Trimmed, Cutoff;
    var g, c := h + [s], Cutoff(s.ts, window);
    if h == [] {
      TrimmedFrom(g, period, c, 0);
    } else {
      var b := Base(h, Cutoff(h[|h| - 1].ts, window));
      BaseMoves(h, period, window, s);
      TrimmedFrom(g, period, c, b);
      assert h[b..] + [s] == g[b..];
    }
  }

  /** Whole periods in a window, rounded up. */
  function Periods(window: nat, period: nat): nat
    requires period > 0
  {
    (window + period - 1) / period
  }

  /** The kept samples never number more than the window's periods and one. */
  lemma KeptIsShort(h: seq<Sample>, period: nat, window: nat)
    requires Spaced(h, period) && period > 0
    ensures |Kept(h, window)| <= Periods(window, period) + 1
  {
    if h != [] {
      var n := |h| - 1;
      var c := Cutoff(h[n].ts, window);
      var b := Base(h, c);
      if b < n {
        BaseIsLatest(h, period, c, b + 1);
        SpacedOut(h, period, b + 1, n);
        CountFits(n - b - 1, period, window);
      }
    }
  }

  lemma CountFits(gaps: nat, period: nat, window: nat)
    requires period > 0 && gaps * period < window
    ensures gaps + 1 <= Periods(window, period)
  {
    if gaps + 1 > Periods(window, period) {
      assert (gaps + 1) * period <= window + period - 1;
      Scale(Periods(window, period) + 1, gaps + 1, period);
    }
  }

  // ---------------------------------------------------------------------------------------------
  // Rates

  /** The growth of the window that a history ends, over its duration; none before a whole window has passed. */
  function Growth(h: seq<Sample>, window: nat): Option<(real, nat)>
    requires h != [] && forall k :: 0 <= k < |h| ==> h[k].vp > 0.0
  {
    var last := h[|h| - 1];
    var base := h[Base(h, Cutoff(last.ts, window))];
    if last.ts < base.ts + window || last.ts == base.ts then None
    else Some((last.vp / base.vp, if last.ts > base.ts then last.ts - base.ts else 0))
  }

  /** One rate per accepted sample that closes a window, by definition over the full history. */
  function Rates(h: seq<Sample>, window: nat, rate: (real, nat) -> real): seq<real>
    requires forall k :: 0 <= k < |h| ==> h[k].vp > 0.0
  {
    if h == [] then []
    else
      var before := Rates(h[..|h| - 1], window, rate);
      match Growth(h, window)
      case None => before
      case Some(g) => before + [rate(g.0, g.1)]
  }

  function Sum(rs: seq<real>): real { if rs == [] then 0.0 else Sum(rs[..|rs| - 1]) + rs[|rs| - 1] }

  lemma {:induction false} SumAppend(a: seq<real>, b: seq<real>)
    ensures Sum(a + b) == Sum(a) + Sum(b)
  {
    if b == [] {
      assert a + b == a;
    } else {
      SumAppend(a, b[..|b| - 1]);
      assert (a + b)[..|a + b| - 1] == a + b[..|b| - 1];
    }
  }

  lemma GrowthFrom(h: seq<Sample>, window: nat)
    requires h != [] && (forall k :: 0 <= k < |h| ==> h[k].vp > 0.0) && window > 0
    ensures
      var n, b := |h| - 1, Base(h, Cutoff(h[|h| - 1].ts, window));
      && (Growth(h, window).Some? <==> h[b].ts + window <= h[n].ts)
      && (Growth(h, window).Some? ==> Growth(h, window).value == (h[n].vp / h[b].vp, h[n].ts - h[b].ts))
  {
    hide Base;
  }

  /** A window is measured from its baseline: the latest accepted sample at least a window old. */
  lemma GrowthBaseline(h: seq<Sample>, period: nat, window: nat)
    requires h != [] && Spaced(h, period) && period > 0 && window > 0
    ensures
      var n, b := |h| - 1, Base(h, Cutoff(h[|h| - 1].ts, window));
      && (Growth(h, window).Some? <==> h[0].ts + window <= h[n].ts)
      && (Growth(h, window).Some? ==>
            && h[b].ts + window <= h[n].ts
            && (forall k :: 0 <= k < |h| && h[k].ts + window <= h[n].ts ==> k <= b)
            && Growth(h, window).value == (h[n].vp / h[b].vp, h[n].ts - h[b].ts))
  {
    hide Base;
    var n := |h| - 1;
    var c := Cutoff(h[n].ts, window);
    var b := Base(h, c);
    BaseIsLatest(h, period, c, b);
    SpacedAscends(h, period, 0, b);
    forall k | 0 <= k < |h| && h[k].ts + window <= h[n].ts ensures k <= b {
      BaseIsLatest(h, period, c, k);
    }
    GrowthFrom(h, window);
  }

  // ---------------------------------------------------------------------------------------------
  // The deque of the annualised geometric mean

  /** Numeric functions of the score: powers, logarithms, and exponentials. */
  datatype Numerics = Numerics(pow: (real, real) -> real, log: real -> real, exp: real -> real, expm1: real -> real)

  function Annualised(m: Numerics, growth: real, dt: nat): real {
    if dt > 0 then m.pow(growth, YEAR / (dt as real)) - 1.0 else 0.0
  }

  predicate Floored(m: Numerics, floorApy: real, growth: real, dt: nat) { Annualised(m, growth, dt) < floorApy }

  function LogApy(m: Numerics, floorApy: real): (real, nat) -> real {
    (growth: real, dt: nat) => m.log(Max(Annualised(m, growth, dt), floorApy))
  }

  /** 1 for a floored window, and its log APY when it is not. */
  function FloorMark(m: Numerics, floorApy: real): (real, nat) -> real {
    (growth: real, dt: nat) => if Floored(m, floorApy, growth, dt) then 1.0 else 0.0
  }

  function Unfloored(m: Numerics, floorApy: real): (real, nat) -> real {
    (growth: real, dt: nat) => if Floored(m, floorApy, growth, dt) then 0.0 else m.log(Annualised(m, growth, dt))
  }

  lemma RateValues(m: Numerics, floorApy: real, growth: real, dt: nat)
    ensures var apy := Annualised(m, growth, dt);
            && LogApy(m, floorApy)(growth, dt) == (if apy < floorApy then m.log(floorApy) else m.log(apy))
            && FloorMark(m, floorApy)(growth, dt) == (if apy < floorApy then 1.0 else 0.0)
            && Unfloored(m, floorApy)(growth, dt) == (if apy < floorApy then 0.0 else m.log(apy))
  {
    hide Annualised;
    var apy := Annualised(m, growth, dt);
    assert Max(apy, floorApy) == if apy < floorApy then floorApy else apy;
  }

  // ---------------------------------------------------------------------------------------------
  // The geometric mean

  /** Exponentials turn sums into products, and undo logarithms. */
  ghost predicate Exponential(m: Numerics) {
    && (forall a, b :: m.exp(a + b) == m.exp(a) * m.exp(b)) && m.exp(0.0) == 1.0
    && (forall x :: x > 0.0 ==> m.exp(m.log(x)) == x)
  }

  function FlooredApy(m: Numerics, floorApy: real): (real, nat) -> real {
    (growth: real, dt: nat) => Max(Annualised(m, growth, dt), floorApy)
  }

  function Product(xs: seq<real>): real { if xs == [] then 1.0 else Product(xs[..|xs| - 1]) * xs[|xs| - 1] }

  function Power(x: real, n: nat): real { if n == 0 then 1.0 else Power(x, n - 1) * x }

  /** The log of each window's floored APY, window by window. */
  lemma {:induction false} LogsOfApys(m: Numerics, floorApy: real, h: seq<Sample>, window: nat)
    requires Exponential(m) && floorApy > 0.0 && forall k :: 0 <= k < |h| ==> h[k].vp > 0.0
    ensures |Rates(h, window, LogApy(m, floorApy))| == |Rates(h, window, FlooredApy(m, floorApy))|
    ensures m.exp(Sum(Rates(h, window, LogApy(m, floorApy)))) == Product(Rates(h, window, FlooredApy(m, floorApy)))
  {
    if h != [] {
      LogsOfApys(m, floorApy, h[..|h| - 1], window);
      match Growth(h, window)
      case None =>
      case Some(g) =>
        LogsPush(m, Rates(h[..|h| - 1], window, LogApy(m, floorApy)),
                 Rates(h[..|h| - 1], window, FlooredApy(m, floorApy)), FlooredApy(m, floorApy)(g.0, g.1));
        hide Annualised, Growth, Exponential, Sum, Product;
    }
  }

  lemma LogsPush(m: Numerics, logs: seq<real>, apys: seq<real>, apy: real)
    requires Exponential(m) && apy > 0.0 && m.exp(Sum(logs)) == Product(apys)
    ensures m.exp(Sum(logs + [m.log(apy)])) == Product(apys + [apy])
  {
    assert (logs + [m.log(apy)])[..|logs|] == logs;
    assert (apys + [apy])[..|apys|] == apys;
  }

  lemma {:induction false} PowerOfExp(m: Numerics, x: real, n: nat)
    requires Exponential(m)
    ensures Power(m.exp(x), n) == m.exp(Times(n, x))
  {
    if n > 0 {
      PowerOfExp(m, x, n - 1);
      assert Times(n, x) == Times(n - 1, x) + x;
    } else {
      assert Times(n, x) == 0.0;
    }
  }

  function Times(n: nat, x: real): real { (n as real) * x }

  class RollingGeoApyWindow {
    const window: nat
    const floorApy: real
    const m: Numerics
    var samples: seq<Sample>
    var lastTs: nat
    var have: bool
    var sumLog: real
    var sumUnfloored: real
    var windows: nat
    var floored: nat
    ghost var history: seq<Sample>

    const PERIOD := HOUR

    ghost predicate Valid()
      reads this
    {
      && Spaced(history, PERIOD) && samples == Kept(history, window)
      && (have <==> history != []) && (have ==> lastTs == history[|history| - 1].ts)
      && Counted(history)
    }

    /** The sums are those of the full history `h`. */
    ghost predicate Counted(h: seq<Sample>)
      requires forall k :: 0 <= k < |h| ==> h[k].vp > 0.0
      reads this`windows, this`sumLog, this`floored, this`sumUnfloored
    {
      && windows == |Rates(h, window, LogApy(m, floorApy))| && sumLog == Sum(Rates(h, window, LogApy(m, floorApy)))
      && floored as real == Sum(Rates(h, window, FloorMark(m, floorApy)))
      && sumUnfloored == Sum(Rates(h, window, Unfloored(m, floorApy)))
    }

    constructor (window: nat, floorApy: real, m: Numerics)
      ensures Valid() && history == [] && this.window == window && this.floorApy == floorApy && this.m == m
    {
      this.window, this.floorApy, this.m := window, floorApy, m;
      samples, lastTs, have, sumLog, sumUnfloored, windows, floored, history := [], 0, false, 0.0, 0.0, 0, 0, [];
    }

    method Trim(cutoff: nat)
      modifies this`samples
      ensures samples == Trimmed(old(samples), cutoff)
    {
      while |samples| > 1 && samples[1].ts <= cutoff
        invariant Trimmed(samples, cutoff) == Trimmed(old(samples), cutoff)
        decreases |samples|
      {
        samples := samples[1..];
      }
    }

    /** Appends an accepted sample and drops what no later window can use. */
    method Admit(s: Sample)
      requires Spaced(history, PERIOD) && samples == Kept(history, window) && Accepts(history, PERIOD, s)
      modifies this`samples, this`lastTs, this`have, this`history
      ensures history == old(history) + [s] && Spaced(history, PERIOD) && samples == Kept(history, window)
      ensures have && lastTs == s.ts && samples != []
      ensures samples[0] == history[Base(history, Cutoff(s.ts, window))] && samples[|samples| - 1] == s
    {
      hide Spaced, Kept, Base, Trimmed, Accepts;
      KeptMoves(history, PERIOD, window, s);
      KeptFront(history + [s], window);
      samples := samples + [s];
      lastTs, have := s.ts, true;
      Trim(if s.ts > window then s.ts - window else 0);
      history := history + [s];
    }

    /** Adds the window that ends the history to the sums. */
    method Record(growth: real, dt: nat, ghost h: seq<Sample>)
      requires h != [] && (forall k :: 0 <= k < |h| ==> h[k].vp > 0.0) && Growth(h, window) == Some((growth, dt))
      requires Counted(h[..|h| - 1])
      modifies this`sumLog, this`sumUnfloored, this`windows, this`floored
      ensures Counted(h)
    {
      hide Growth, Annualised, Rates, Sum, LogApy, FloorMark, Unfloored;
      var apy, isFloored := Annualised(m, growth, dt), false;
      if apy < floorApy { apy, isFloored := floorApy, true; }
      var logApy := m.log(apy);
      RateValues(m, floorApy, growth, dt);
      RatesPush(h, window, LogApy(m, floorApy));
      RatesPush(h, window, FloorMark(m, floorApy));
      RatesPush(h, window, Unfloored(m, floorApy));
      sumLog := sumLog + logApy;
      windows := windows + 1;
      if isFloored { floored := floored + 1; } else { sumUnfloored := sumUnfloored + logApy; }
    }

    /** Measures the window that the newest sample closes, if a whole window has passed. */
    method Close(ghost h: seq<Sample>)
      requires h != [] && (forall k :: 0 <= k < |h| ==> h[k].vp > 0.0) && Counted(h[..|h| - 1])
      requires samples != [] && samples[0] == h[Base(h, Cutoff(h[|h| - 1].ts, window))] &&
               samples[|samples| - 1] == h[|h| - 1]
      modifies this`sumLog, this`sumUnfloored, this`windows, this`floored
      ensures Counted(h)
    {
      hide Rates, Sum, Base, LogApy, FloorMark, Unfloored;
      var base, last := samples[0], samples[|samples| - 1];
      if last.ts < base.ts + window || !(last.ts - base.ts > 0) {
        NoWindow(h, window, LogApy(m, floorApy));
        NoWindow(h, window, FloorMark(m, floorApy));
        NoWindow(h, window, Unfloored(m, floorApy));
        return;
      }
      Record(last.vp / base.vp, last.ts - base.ts, h);
    }

    /** The score: the geometric mean of the floored APYs of all windows, so that its power to their number is their
        product. */
    method Value() returns (v: real)
      requires Valid()
      ensures windows == 0 ==> v == -1.0
      ensures windows > 0 && Exponential(m) && floorApy > 0.0 ==>
                && windows == |Rates(history, window, FlooredApy(m, floorApy))|
                && Power(v, windows) == Product(Rates(history, window, FlooredApy(m, floorApy)))
    {
      hide Rates, Sum, LogApy, FloorMark, Unfloored, FlooredApy;
      if windows == 0 { return -1.0; }
      v := m.exp(sumLog / (windows as real));
      if Exponential(m) && floorApy > 0.0 {
        LogsOfApys(m, floorApy, history, window);
        PowerOfExp(m, sumLog / (windows as real), windows);
        DivMul(sumLog, windows as real);
      }
    }

    /** How many of the windows were floored, as a share. */
    method FloorShare() returns (share: real)
      requires Valid()
      ensures windows == 0 ==> share == -1.0
      ensures windows > 0 ==> share * (windows as real) == Sum(Rates(history, window, FloorMark(m, floorApy)))
    {
      hide Rates, Sum, LogApy, FloorMark, Unfloored;
      if windows == 0 { return -1.0; }
      share := (floored as real) / (windows as real);
      DivMul(floored as real, windows as real);
    }

    method AddSample(ts: nat, vp: real)
      requires Valid()
      modifies this
      ensures Valid()
      ensures history == old(history) + (if Accepts(old(history), PERIOD, Sample(ts, vp)) then [Sample(ts, vp)] else [])
    {
      hide Kept, Base, Counted;
      if !(vp > 0.0) { return; }
      if have && ts < lastTs + PERIOD { return; }
      Admit(Sample(ts, vp));
      assert history[..|history| - 1] == old(history);
      Close(history);
    }
  }

  lemma NoWindow(h: seq<Sample>, window: nat, rate: (real, nat) -> real)
    requires h != [] && (forall k :: 0 <= k < |h| ==> h[k].vp > 0.0) && Growth(h, window).None?
    ensures Rates(h, window, rate) == Rates(h[..|h| - 1], window, rate)
  {}

  lemma KeptFront(h: seq<Sample>, window: nat)
    requires h != []
    ensures Kept(h, window) != [] && Kept(h, window)[0] == h[Base(h, Cutoff(h[|h| - 1].ts, window))]
    ensures Kept(h, window)[|Kept(h, window)| - 1] == h[|h| - 1]
  {}

  lemma RatesPush(h: seq<Sample>, window: nat, rate: (real, nat) -> real)
    requires h != [] && (forall k :: 0 <= k < |h| ==> h[k].vp > 0.0) && Growth(h, window).Some?
    ensures var g, before := Growth(h, window).value, Rates(h[..|h| - 1], window, rate);
            Rates(h, window, rate) == before + [rate(g.0, g.1)] &&
            Sum(Rates(h, window, rate)) == Sum(before) + rate(g.0, g.1)
  {
    var g, before := Growth(h, window).value, Rates(h[..|h| - 1], window, rate);
    assert (before + [rate(g.0, g.1)])[..|before|] == before;
  }
}
