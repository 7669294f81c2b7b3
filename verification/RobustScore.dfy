/** The daily ninety-day robust score: its ring of samples and its tail mean. */
module RobustScore {
  import opened Algebra
  import opened Durations
  import opened RollingWindows

  const WINDOW := 7776000
  const CAPACITY := 92
  const TAIL_DENOMINATOR := 20

  function LogRate(m: Numerics): (real, nat) -> real {
    (growth: real, dt: nat) => if dt > 0 then m.log(growth) * YEAR / (dt as real) else 0.0
  }

  /** A window's rate is its continuously compounded growth, scaled to a year. */
  lemma LogRateIs(m: Numerics, growth: real, dt: nat)
    ensures dt > 0 ==> LogRate(m)(growth, dt) * (dt as real) == m.log(growth) * 31536000.0
  {
    if dt > 0 { DivMul(m.log(growth) * YEAR, dt as real); }
  }

  // ---------------------------------------------------------------------------------------------
  // The tail mean

  /** How many of `n` rates the tail covers: a twentieth, rounded up. */
  function TailCount(n: nat): nat { (n + TAIL_DENOMINATOR - 1) / TAIL_DENOMINATOR }

  /** The first `k` entries are no larger than any other, as `std::nth_element` leaves them. */
  predicate Partitioned(rs: seq<real>, k: nat) { forall i, j :: 0 <= i < k <= j < |rs| ==> rs[i] <= rs[j] }

  /** A value with more copies among the smallest of `p` than of `q` bounds the smallest of `q`. */
  lemma BoundsOthers(p: seq<real>, q: seq<real>, k: nat, x: real)
    requires multiset(p) == multiset(q) && k <= |p| == |q| && Partitioned(q, k)
    requires multiset(p[..k])[x] > multiset(q[..k])[x]
    ensures forall i :: 0 <= i < k ==> q[i] <= x
  {
    assert p == p[..k] + p[k..] && q == q[..k] + q[k..];
    assert multiset(p)[x] == multiset(p[..k])[x] + multiset(p[k..])[x];
    assert multiset(q)[x] == multiset(q[..k])[x] + multiset(q[k..])[x];
    assert x in q[k..];
    var j :| 0 <= j < |q| - k && q[k..][j] == x;
    assert q[k + j] == x;
  }

  lemma SubsetOfSameSize(a: multiset<real>, b: multiset<real>)
    requires a <= b && |a| == |b|
    ensures a == b
  {
    assert b == a + (b - a);
  }

  lemma MoreOf(a: multiset<real>, b: multiset<real>) returns (x: real)
    requires |a| == |b|
    ensures a != b ==> a[x] > b[x]
  {
    if v :| a[v] > b[v] {
      x := v;
    } else {
      x := 0.0;
      assert forall v :: a[v] <= b[v];
      SubsetOfSameSize(a, b);
    }
  }

  /** The smallest `k` are the same, with their multiplicities, however the rest is arranged. */
  lemma SmallestAgree(p: seq<real>, q: seq<real>, k: nat)
    requires multiset(p) == multiset(q) && k <= |p| == |q| && Partitioned(p, k) && Partitioned(q, k)
    ensures multiset(p[..k]) == multiset(q[..k])
  {
    var a, b := multiset(p[..k]), multiset(q[..k]);
    assert |a| == k == |b|;
    if a != b {
      var x := MoreOf(a, b);
      var y := MoreOf(b, a);
      assert x != y && x in p[..k] && y in q[..k];
      BoundsOthers(p, q, k, x);
      BoundsOthers(q, p, k, y);
      assert false;
    }
  }

  function Without(rs: seq<real>, i: nat): (r: seq<real>)
    requires i < |rs|
    ensures |r| == |rs| - 1
  {
    rs[..i] + rs[i + 1..]
  }

  lemma WithoutOne(rs: seq<real>, i: nat)
    requires i < |rs|
    ensures multiset(Without(rs, i)) == multiset(rs) - multiset{rs[i]}
  {
    assert rs == rs[..i] + [rs[i]] + rs[i + 1..];
  }

  lemma SumOne(x: real)
    ensures Sum([x]) == x
  {
    assert Sum([]) == 0.0;
  }

  lemma SumMiddle(front: seq<real>, x: real, tail: seq<real>)
    ensures Sum(front + ([x] + tail)) == Sum(front + tail) + x
  {
    SumOne(x);
    hide Sum;
    SumAppend(front, tail);
    SumAppend(front, [x] + tail);
    SumAppend([x], tail);
  }

  lemma Rejoined(rs: seq<real>, i: nat)
    requires i < |rs|
    ensures rs == rs[..i] + ([rs[i]] + rs[i + 1..])
  {}

  lemma SumWithout(rs: seq<real>, i: nat)
    requires i < |rs|
    ensures Sum(rs) == Sum(Without(rs, i)) + rs[i]
  {
    hide Sum;
    Rejoined(rs, i);
    SumMiddle(rs[..i], rs[i], rs[i + 1..]);
  }

  /** A sum depends on the values and their multiplicities only. */
  lemma {:induction false} SumOfMultiset(p: seq<real>, q: seq<real>)
    requires multiset(p) == multiset(q)
    ensures Sum(p) == Sum(q)
    decreases |p|
  {
    SameLength(p, q);
    hide Sum, Without;
    if p != [] {
      var n := |p| - 1;
      assert p[n] in multiset(q);
      var i :| 0 <= i < |q| && q[i] == p[n];
      WithoutOne(p, n);
      WithoutOne(q, i);
      SumOfMultiset(Without(p, n), Without(q, i));
      SumWithout(p, n);
      SumWithout(q, i);
    } else {
      assert p == q;
    }
  }

  /** The tail sum does not depend on how the partition orders the rates. */
  lemma TailIsWellDefined(p: seq<real>, q: seq<real>, k: nat)
    requires multiset(p) == multiset(q) && k <= |p| == |q| && Partitioned(p, k) && Partitioned(q, k)
    ensures Sum(p[..k]) == Sum(q[..k])
  {
    SmallestAgree(p, q, k);
    SumOfMultiset(p[..k], q[..k]);
  }

  function Scaled(c: real, n: nat): real { c * (n as real) }

  function Ratio(sum: real, n: nat): real
    requires n > 0
  {
    sum / (n as real)
  }

  lemma {:induction false} SumBounds(rs: seq<real>, c: real)
    ensures (forall i :: 0 <= i < |rs| ==> rs[i] <= c) ==> Sum(rs) <= Scaled(c, |rs|)
    ensures (forall i :: 0 <= i < |rs| ==> rs[i] >= c) ==> Sum(rs) >= Scaled(c, |rs|)
  {
    if rs != [] {
      SumBounds(rs[..|rs| - 1], c);
      assert Scaled(c, |rs|) == Scaled(c, |rs| - 1) + c;
    }
  }

  function Greatest(rs: seq<real>): (c: real)
    requires rs != []
    ensures c in rs && forall i :: 0 <= i < |rs| ==> rs[i] <= c
  {
    if |rs| == 1 then rs[0] else Max(Greatest(rs[..|rs| - 1]), rs[|rs| - 1])
  }

  function Mean(rs: seq<real>): real
    requires rs != []
  {
    Ratio(Sum(rs), |rs|)
  }

  lemma PartBounds(rs: seq<real>, k: nat)
    requires 0 < k <= |rs| && Partitioned(rs, k)
    ensures var c := Greatest(rs[..k]); Sum(rs[..k]) <= Scaled(c, k) && Sum(rs[k..]) >= Scaled(c, |rs| - k)
  {
    hide Sum, Scaled;
    var low, high := rs[..k], rs[k..];
    var c := Greatest(low);
    var i :| 0 <= i < k && low[i] == c;
    forall j | 0 <= j < |high| ensures high[j] >= c { assert rs[i] <= rs[k + j]; }
    SumBounds(low, c);
    SumBounds(high, c);
  }

  /** The mean of the smallest rates never exceeds the mean of all. */
  lemma TailMeanBelowMean(rs: seq<real>, k: nat)
    requires 0 < k <= |rs| && Partitioned(rs, k)
    ensures Mean(rs[..k]) <= Mean(rs)
  {
    hide Sum, Scaled, Ratio, Greatest, Partitioned;
    assert rs[..k] + rs[k..] == rs;
    SumAppend(rs[..k], rs[k..]);
    PartBounds(rs, k);
    WeightedMeans(Sum(rs[..k]), Sum(rs[k..]), k, |rs| - k, Greatest(rs[..k]));
  }

  /** `low` is a sum of `k` values up to `c`, and `high` one of `n` values from `c` up. */
  lemma WeightedMeans(low: real, high: real, k: nat, n: nat, c: real)
    requires k > 0 && low <= Scaled(c, k) && high >= Scaled(c, n)
    ensures Ratio(low, k) <= Ratio(low + high, k + n)
  {
    var x, y := k as real, n as real;
    var a := low / x;
    DivMul(low, x);
    DivCompare(low, c, x);
    MulMonotone(a, c, y);
    assert a * (x + y) == a * x + a * y;
    DivCompare(low + high, a, x + y);
    assert x + y == (k + n) as real;
  }

  // ---------------------------------------------------------------------------------------------
  // The ring

  function Slot(head: nat, offset: nat): (slot: nat)
    ensures slot < CAPACITY
  {
    (head + offset) % CAPACITY
  }

  /** The samples of a ring, oldest first. */
  function Content(ring: seq<Sample>, head: nat, count: nat): (c: seq<Sample>)
    requires |ring| == CAPACITY
    ensures |c| == count && forall k :: 0 <= k < count ==> c[k] == ring[Slot(head, k)]
  {
    seq(count, k requires 0 <= k < count => ring[Slot(head, k)])
  }

  lemma SlotsApart(head: nat, j: nat, k: nat)
    requires j < k < j + CAPACITY
    ensures Slot(head, j) != Slot(head, k)
  {}

  lemma SlotShifts(head: nat, k: nat)
    ensures Slot(Slot(head, 1), k) == Slot(head, k + 1)
  {}

  lemma ContentPush(ring: seq<Sample>, head: nat, count: nat, s: Sample)
    requires |ring| == CAPACITY && count < CAPACITY
    ensures Content(ring[Slot(head, count) := s], head, count + 1) == Content(ring, head, count) + [s]
  {
    hide Slot;
    forall k | 0 <= k < count ensures Slot(head, k) != Slot(head, count) { SlotsApart(head, k, count); }
  }

  lemma ContentPop(ring: seq<Sample>, head: nat, count: nat)
    requires |ring| == CAPACITY && 0 < count
    ensures Content(ring, Slot(head, 1), count - 1) == Content(ring, head, count)[1..]
  {
    hide Slot;
    forall k | 0 <= k < count - 1 ensures Slot(Slot(head, 1), k) == Slot(head, k + 1) { SlotShifts(head, k); }
  }

  lemma SlotZero(head: nat)
    requires head < CAPACITY
    ensures Slot(head, 0) == head
  {}

  /** What the full history keeps always leaves a slot of the ring free. */
  lemma NeverFull(h: seq<Sample>)
    requires Spaced(h, DAY)
    ensures |Kept(h, WINDOW)| <= CAPACITY - 1
  {
    KeptIsShort(h, DAY, WINDOW);
    assert Periods(WINDOW, DAY) == 90;
  }

  class NetApyRobust90d {
    const m: Numerics
    const samples: array<Sample>
    var head: nat
    var count: nat
    var lastTs: nat
    var have: bool
    var sumLogRate: real
    var logRates: seq<real>
    ghost var history: seq<Sample>

    ghost predicate Held(h: seq<Sample>)
      reads this`head, this`count, samples
    {
      samples.Length == CAPACITY && head < CAPACITY && Content(samples[..], head, count) == Kept(h, WINDOW)
    }

    /** The ring holds what the full history keeps and is never full; the rates are those of the full history. */
    ghost predicate Valid()
      reads this, samples
    {
      && Spaced(history, DAY) && Held(history) && count < CAPACITY
      && (have <==> history != []) && (have ==> lastTs == history[|history| - 1].ts)
      && sumLogRate == Sum(logRates) && multiset(logRates) == multiset(Rates(history, WINDOW, LogRate(m)))
    }

    constructor (m: Numerics)
      ensures Valid() && history == [] && fresh(samples) && this.m == m
    {
      this.m := m;
      samples := new Sample[CAPACITY](_ => Sample(0, 0.0));
      head, count, lastTs, have, sumLogRate, logRates, history := 0, 0, 0, false, 0.0, [], [];
    }

    /** Drops the front while the second sample is at or before the cutoff. */
    method Trim(cutoff: nat)
      requires samples.Length == CAPACITY && head < CAPACITY
      modifies this`head, this`count
      ensures head < CAPACITY &&
              Content(samples[..], head, count) == Trimmed(old(Content(samples[..], head, count)), cutoff)
    {
      hide Slot;
      while count > 1 && samples[Slot(head, 1)].ts <= cutoff
        invariant head < CAPACITY
        invariant Trimmed(Content(samples[..], head, count), cutoff) ==
                  Trimmed(old(Content(samples[..], head, count)), cutoff)
        decreases count
      {
        ContentPop(samples[..], head, count);
        head := Slot(head, 1);
        count := count - 1;
      }
    }

    method Admit(s: Sample)
      requires Spaced(history, DAY) && Held(history) && count < CAPACITY && Accepts(history, DAY, s)
      modifies this`head, this`count, this`lastTs, this`have, this`history, samples
      ensures history == old(history) + [s] && Spaced(history, DAY) && Held(history) && 0 < count < CAPACITY
      ensures have && lastTs == s.ts
      ensures samples[head] == history[Base(history, Cutoff(s.ts, WINDOW))]
    {
      hide Spaced, Kept, Base, Trimmed, Accepts, Slot;
      KeptMoves(history, DAY, WINDOW, s);
      NeverFull(history + [s]);
      KeptFront(history + [s], WINDOW);
      if count == CAPACITY { assert false; }  // the overflow branch is never taken
      ContentPush(samples[..], head, count, s);
      samples[Slot(head, count)] := s;
      count := count + 1;
      lastTs, have := s.ts, true;
      Trim(if s.ts > WINDOW then s.ts - WINDOW else 0);
      history := history + [s];
      SlotZero(head);
    }

    /** Adds the rate of the window that the newest sample closes, if a whole window has passed. */
    method Close(last: Sample, ghost h: seq<Sample>)
      requires h != [] && (forall k :: 0 <= k < |h| ==> h[k].vp > 0.0) && last == h[|h| - 1]
      requires samples.Length == CAPACITY && head < CAPACITY && samples[head] == h[Base(h, Cutoff(last.ts, WINDOW))]
      requires sumLogRate == Sum(logRates) && multiset(logRates) == multiset(Rates(h[..|h| - 1], WINDOW, LogRate(m)))
      modifies this`sumLogRate, this`logRates
      ensures sumLogRate == Sum(logRates) && multiset(logRates) == multiset(Rates(h, WINDOW, LogRate(m)))
    {
      hide Base, Rates, Sum, LogRate;
      var baseline := samples[head];
      if last.ts < baseline.ts + WINDOW || !(last.ts - baseline.ts > 0) {
        NoWindow(h, WINDOW, LogRate(m));
        return;
      }
      var rate := LogRate(m)(last.vp / baseline.vp, last.ts - baseline.ts);
      RatesPush(h, WINDOW, LogRate(m));
      SumPush(logRates, rate);
      sumLogRate := sumLogRate + rate;
      logRates := logRates + [rate];
    }

    method AddSample(ts: nat, vp: real)
      requires Valid()
      modifies this, samples
      ensures Valid()
      ensures history == old(history) + (if Accepts(old(history), DAY, Sample(ts, vp)) then [Sample(ts, vp)] else [])
    {
      hide Kept, Base, Rates, Sum, LogRate, Content;
      if !(vp > 0.0) || (have && ts < lastTs + DAY) { return; }
      Admit(Sample(ts, vp));
      assert history[..|history| - 1] == old(history);
      Close(Sample(ts, vp), history);
    }

    /** The score, from the rates as `std::nth_element` rearranged them: halfway between the mean window and the
        mean of the worst twentieth, which is no better than the mean. */
    method Value(rearranged: seq<real>) returns (score: real, ghost mean: real, ghost tail: real, ghost k: nat)
      requires Valid() && multiset(rearranged) == multiset(logRates) && Partitioned(rearranged, TailCount(|logRates|))
      modifies this`logRates
      ensures Valid() && logRates == rearranged
      ensures logRates == [] ==> score == -1.0
      ensures logRates != [] ==> score == m.expm1((mean + tail) / 2.0) && tail <= mean
      ensures logRates != [] ==>
              Rates(history, WINDOW, LogRate(m)) != [] && mean == Mean(Rates(history, WINDOW, LogRate(m)))
      ensures logRates != [] ==> IsTwentieth(k, |old(logRates)|) && IsTailMean(tail, old(logRates), k)
    {
      hide Sum, Partitioned, Ratio, Held, Rates, LogRate, Mean, IsTailMean;
      ghost var before, all := logRates, Rates(history, WINDOW, LogRate(m));
      SumOfMultiset(rearranged, before);
      SameLength(rearranged, before);
      SameLength(before, all);
      logRates := rearranged;
      if logRates == [] { return -1.0, 0.0, 0.0, 0; }
      var tailCount := TailCount(|logRates|);
      TailCountIs(|logRates|);
      k := tailCount;
      var tailSum := TailSum(logRates, tailCount);
      score := m.expm1((Ratio(sumLogRate, |logRates|) + Ratio(tailSum, tailCount)) / 2.0);
      mean, tail := Mean(all), Mean(logRates[..tailCount]);
      SumOfMultiset(before, all);
      TailMeanBelowMean(logRates, tailCount);
      TailIsTail(logRates, before, tailCount);
      MeanIs(logRates);
      MeanIs(all);
      MeanIs(logRates[..tailCount]);
    }
  }

  lemma MeanIs(rs: seq<real>)
    requires rs != []
    ensures Mean(rs) == Ratio(Sum(rs), |rs|)
  {}

  method TailSum(rates: seq<real>, k: nat) returns (sum: real)
    requires k <= |rates|
    ensures sum == Sum(rates[..k])
  {
    sum := 0.0;
    for i := 0 to k
      invariant sum == Sum(rates[..i])
    {
      assert rates[..i + 1][..i] == rates[..i];
      sum := sum + rates[i];
    }
  }

  /** `tail` is the mean of any `k` smallest of the rates. */
  ghost predicate IsTailMean(tail: real, rates: seq<real>, k: nat) {
    && 0 < k <= |rates|
    && forall sorted: seq<real> :: multiset(sorted) == multiset(rates) && Smallest(sorted, k) ==>
         tail == Mean(sorted[..k])
  }

  /** The first `k` are as many, and none of the others is smaller. */
  ghost predicate Smallest(rs: seq<real>, k: nat) {
    0 < k <= |rs| && forall i, j :: 0 <= i < k <= j < |rs| ==> rs[i] <= rs[j]
  }

  lemma TailIsTail(rs: seq<real>, rates: seq<real>, k: nat)
    requires multiset(rs) == multiset(rates) && 0 < k <= |rs| && Partitioned(rs, k)
    ensures IsTailMean(Mean(rs[..k]), rates, k)
  {
    SameLength(rs, rates);
    forall sorted: seq<real> | multiset(sorted) == multiset(rates) && Smallest(sorted, k)
      ensures Mean(rs[..k]) == Mean(sorted[..k])
    {
      SameLength(sorted, rs);
      TailIsWellDefined(sorted, rs, k);
    }
  }

  /** A twentieth, rounded up. */
  predicate IsTwentieth(k: nat, n: nat) { n <= 20 * k < n + 20 }

  lemma TailCountIs(n: nat)
    ensures IsTwentieth(TailCount(n), n) && (n > 0 ==> 0 < TailCount(n) <= n)
  {}

  lemma SameLength(p: seq<real>, q: seq<real>)
    requires multiset(p) == multiset(q)
    ensures |p| == |q|
  {
    assert |multiset(p)| == |p| && |multiset(q)| == |q|;
  }

  lemma SumPush(rs: seq<real>, r: real)
    ensures Sum(rs + [r]) == Sum(rs) + r
  {
    assert (rs + [r])[..|rs|] == rs;
  }
}
