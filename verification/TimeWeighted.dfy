/** The time-weighted price error, with its seven-day peak kept in a ring of hourly buckets. */
module TimeWeighted {
  import opened Algebra
  import opened Durations
  import opened HeldHistory

  /** One hourly bucket of the ring. */
  datatype Bucket = Bucket(live: bool, id: nat, total: Total)

  const EMPTY := Bucket(false, 0, ZERO)

  /** The latest hour written once the history reaches `last`; the one before the first when nothing is held. */
  function Top(first: nat, last: nat): int { if last > first then (last - 1) / HOUR else first / HOUR - 1 }

  /** The one hour among the 170 up to `top` that maps to ring slot `slot`. */
  function IdOf(slot: int, top: int): int { top - (top - slot) % BUCKETS }

  /** A slot holds the whole history of its hour, or nothing when its hour precedes the first sample. */
  predicate SlotHolds(bucket: Bucket, slot: nat, h: seq<Seg>, first: nat, last: nat) {
    var id := IdOf(slot, Top(first, last));
    if id >= first / HOUR then bucket.live && bucket.id == id && bucket.total == Hour(h, id) else !bucket.live
  }

  predicate RingHolds(ring: seq<Bucket>, h: seq<Seg>, first: nat, last: nat) {
    |ring| == BUCKETS && forall i :: 0 <= i < BUCKETS ==> SlotHolds(ring[i], i, h, first, last)
  }

  /** Distinct slots hold distinct hours, all within the last 170. */
  lemma SlotsHoldDistinctHours(top: int, i: nat, j: nat)
    requires i < BUCKETS && j < BUCKETS
    ensures top - BUCKETS < IdOf(i, top) <= top
    ensures IdOf(i, top) == IdOf(j, top) ==> i == j
  {}

  lemma NothingHeldYet(h: seq<Seg>, first: nat, lo: int, hi: int)
    requires Covers(h, first, first) && lo <= first <= hi
    ensures Over(h, lo, hi) == ZERO
  {
    hide Over, Held;
    OverSplits(h, lo, first, hi);
    OverOutside(h, first, first, lo, first);
    OverOutside(h, first, first, first, hi);
  }

  /** A bucket after `seconds` of `rel` are poured into it as hour `id`. */
  function Poured(bucket: Bucket, id: nat, rel: real, seconds: nat): Bucket {
    var base := if !bucket.live || bucket.id != id then ZERO else bucket.total;
    Bucket(true, id, Plus(base, Total(Held(rel, seconds), seconds)))
  }

  lemma TopMoves(first: nat, s: nat, t: nat)
    requires first <= s < t <= (s / HOUR + 1) * HOUR
    ensures Top(first, t) == s / HOUR
    ensures Top(first, s) == s / HOUR || Top(first, s) == s / HOUR - 1
    ensures Top(first, s) == s / HOUR - 1 ==> s == first || s <= s / HOUR * HOUR
  {}

  lemma IdMoves(slot: nat, b: nat)
    requires slot < BUCKETS
    ensures slot == b % BUCKETS ==> IdOf(slot, b) == b && IdOf(slot, b - 1) == b - BUCKETS
    ensures slot != b % BUCKETS ==> IdOf(slot, b) == IdOf(slot, b - 1) < b
  {}

  /** The slot written: the current hour, continued or started over an hour 170 hours old. */
  lemma PouredHolds(bucket: Bucket, h: seq<Seg>, seg: Seg, first: nat, t: nat)
    requires Covers(h + [seg], first, seg.end) && seg.start <= seg.end < t <= (seg.end / HOUR + 1) * HOUR
    requires SlotHolds(bucket, seg.end / HOUR % BUCKETS, h + [seg], first, seg.end)
    ensures var b := seg.end / HOUR;
            SlotHolds(Poured(bucket, b, seg.rel, t - seg.end), b % BUCKETS, h + [seg.(end := t)], first, t)
  {
    hide Over, Held;
    var b, s := seg.end / HOUR, seg.end;
    CoversWithin(h + [seg], first, s);
    TopMoves(first, s, t);
    IdMoves(b % BUCKETS, b);
    Extending(h, seg, t, b * HOUR, (b + 1) * HOUR);
    if Top(first, s) == b - 1 {
      if s == first {
        NothingHeldYet(h + [seg], first, b * HOUR, (b + 1) * HOUR);
      } else {
        OverOutside(h + [seg], first, s, b * HOUR, (b + 1) * HOUR);
      }
    }
  }

  /** The other slots keep their hours, and their hours gain nothing. */
  lemma OthersHold(bucket: Bucket, slot: nat, h: seq<Seg>, seg: Seg, first: nat, t: nat)
    requires Covers(h + [seg], first, seg.end) && seg.start <= seg.end < t <= (seg.end / HOUR + 1) * HOUR
    requires slot < BUCKETS && slot != seg.end / HOUR % BUCKETS && SlotHolds(bucket, slot, h + [seg], first, seg.end)
    ensures SlotHolds(bucket, slot, h + [seg.(end := t)], first, t)
  {
    hide Over;
    var b, s := seg.end / HOUR, seg.end;
    CoversWithin(h + [seg], first, s);
    TopMoves(first, s, t);
    IdMoves(slot, b);
    var id := IdOf(slot, b);
    assert (id + 1) * HOUR <= s;
    Extending(h, seg, t, id * HOUR, (id + 1) * HOUR);
    HeldSplits(seg.rel, 0, 0);
  }

  /** Terms of the hours in the first `i` slots: the slots up to the latest hour's run on from its turn of the
      ring, the rest hold the turn before. */
  function Gathered(h: seq<Seg>, from: int, cutoff: int, end: int, top: int, i: nat): Total {
    var turn := top - top % BUCKETS;
    if turn + i <= top + 1 then Terms(h, from, cutoff, end, turn, turn + i)
    else Plus(Terms(h, from, cutoff, end, turn, top + 1),
              Terms(h, from, cutoff, end, top - BUCKETS + 1, turn + i - BUCKETS))
  }

  lemma GatherNone(h: seq<Seg>, from: int, cutoff: int, end: int, top: int)
    ensures Gathered(h, from, cutoff, end, top, 0) == ZERO
  {}

  lemma GatherSlot(h: seq<Seg>, from: int, cutoff: int, end: int, top: int, i: nat)
    requires i < BUCKETS
    ensures Gathered(h, from, cutoff, end, top, i + 1) ==
            Plus(Gathered(h, from, cutoff, end, top, i), Term(h, from, cutoff, end, IdOf(i, top)))
  {
    hide Term;
    var turn := top - top % BUCKETS;
    if turn + i <= top {
      assert IdOf(i, top) == turn + i;
    } else {
      assert IdOf(i, top) == turn + i - BUCKETS;
      if turn + i == top + 1 { assert Terms(h, from, cutoff, end, top - BUCKETS + 1, turn + i - BUCKETS) == ZERO; }
    }
  }

  lemma GatherAll(h: seq<Seg>, from: int, cutoff: int, end: int, top: int)
    ensures Gathered(h, from, cutoff, end, top, BUCKETS) == Terms(h, from, cutoff, end, top - BUCKETS + 1, top + 1)
  {
    hide Term;
    var turn := top - top % BUCKETS;
    TermsSplit(h, from, cutoff, end, top - BUCKETS + 1, turn, top + 1);
  }

  lemma RingPoured(ring: seq<Bucket>, h: seq<Seg>, seg: Seg, first: nat, t: nat)
    requires Covers(h + [seg], first, seg.end) && seg.start <= seg.end < t <= (seg.end / HOUR + 1) * HOUR
    requires RingHolds(ring, h + [seg], first, seg.end)
    ensures var b := seg.end / HOUR;
            RingHolds(ring[b % BUCKETS := Poured(ring[b % BUCKETS], b, seg.rel, t - seg.end)], h + [seg.(end := t)],
                      first, t)
  {
    hide SlotHolds, Covers, Over, Held, Poured;
    var b := seg.end / HOUR;
    PouredHolds(ring[b % BUCKETS], h, seg, first, t);
    forall i | 0 <= i < BUCKETS && i != b % BUCKETS ensures SlotHolds(ring[i], i, h + [seg.(end := t)], first, t) {
      OthersHold(ring[i], i, h, seg, first, t);
    }
  }

  // ---------------------------------------------------------------------------------------------
  // The seven-day peak over the full history

  datatype Peak = Peak(have: bool, max: real, lastEval: nat)

  /** Average held error over the seven days before the history's end, widened to whole hours at the start. */
  function Average(h: seq<Seg>, end: nat): real
    requires end >= 604800
  {
    var w := Over(h, FloorHour(end - 604800), end);
    if w.dt > 0 then w.sum / (w.dt as real) else 0.0
  }

  predicate Evaluates(p: Peak, first: nat, end: nat) {
    !(p.have && end / HOUR == p.lastEval) && end >= first + 604800
  }

  function Evaluated(p: Peak, h: seq<Seg>, first: nat, end: nat): Peak {
    if p.have && end / HOUR == p.lastEval then p
    else if end < first + WINDOW then p.(lastEval := end / HOUR)
    else Peak(true, if !p.have || Average(h, end) > p.max then Average(h, end) else p.max, end / HOUR)
  }

  /** The peak of a whole history, evaluated as each segment closes. */
  function PeakOf(h: seq<Seg>, first: nat): Peak {
    if h == [] then Peak(false, 0.0, 0) else Evaluated(PeakOf(h[..|h| - 1], first), h, first, h[|h| - 1].end)
  }

  /** The recorded maximum never falls, bounds the average of every evaluated prefix, and is one of them. */
  lemma {:induction false} PeakIsMaximum(h: seq<Seg>, first: nat, k: nat)
    requires 0 < k <= |h| && Evaluates(PeakOf(h[..k - 1], first), first, h[k - 1].end)
    ensures PeakOf(h, first).have && PeakOf(h, first).max >= Average(h[..k], h[k - 1].end)
  {
    assert h[..k][..k - 1] == h[..k - 1];
    if k < |h| {
      var front := h[..|h| - 1];
      assert front[..k] == h[..k] && front[..k - 1] == h[..k - 1];
      PeakIsMaximum(front, first, k);
    } else {
      assert h[..k] == h;
    }
  }

  lemma {:induction false} PeakIsAttained(h: seq<Seg>, first: nat) returns (k: nat)
    requires PeakOf(h, first).have
    ensures 0 < k <= |h| && Evaluates(PeakOf(h[..k - 1], first), first, h[k - 1].end)
    ensures PeakOf(h, first).max == Average(h[..k], h[k - 1].end)
  {
    var n := |h| - 1;
    var before := PeakOf(h[..n], first);
    if Evaluates(before, first, h[n].end) && (!before.have || Average(h, h[n].end) > before.max) {
      k := |h|;
      assert h[..k] == h;
    } else {
      k := PeakIsAttained(h[..n], first);
      assert h[..n][..k] == h[..k] && h[..n][..k - 1] == h[..k - 1];
    }
  }

  lemma PeakNeverFalls(p: Peak, h: seq<Seg>, first: nat, end: nat)
    ensures p.have ==> Evaluated(p, h, first, end).have && Evaluated(p, h, first, end).max >= p.max
  {}

  // ---------------------------------------------------------------------------------------------
  // Detachment

  const DETACH_TH_IN := 0.015

  function Energy(gap: real, seconds: nat): real {
    var ex := gap - DETACH_TH_IN;
    if ex > 0.0 then ex * ex * (seconds as real) / 86400.0 else 0.0
  }

  function Seconds(s: Seg): nat { if s.end >= s.start then s.end - s.start else 0 }

  function DetachOf(h: seq<Seg>): real {
    if h == [] then 0.0 else DetachOf(h[..|h| - 1]) + Energy(h[|h| - 1].gap, Seconds(h[|h| - 1]))
  }

  // ---------------------------------------------------------------------------------------------
  // The accumulator

  function RelAbs(priceScale: real, price: real): real { if price > 0.0 then Abs(priceScale / price - 1.0) else 0.0 }

  function RelGap(priceScale: real, price: real): real {
    if priceScale > 0.0 && price > 0.0 then Min(Abs(price / priceScale - 1.0), 1.0) else 0.0
  }

  /** The error is the distance of the pool's price from the outside one, per unit of the outside price. */
  lemma RelAbsIs(priceScale: real, price: real)
    ensures price > 0.0 ==> RelAbs(priceScale, price) * price == Abs(priceScale - price)
    ensures price <= 0.0 ==> RelAbs(priceScale, price) == 0.0
  {
    if price > 0.0 {
      var r := priceScale / price;
      DivMul(priceScale, price);
      DivCompare(priceScale, 1.0, price);
      assert (r - 1.0) * price == priceScale - price;
    }
  }

  /** The gap is that distance per unit of the pool's price, and at most one. */
  lemma RelGapIs(priceScale: real, price: real)
    ensures priceScale <= 0.0 || price <= 0.0 ==> RelGap(priceScale, price) == 0.0
    ensures priceScale > 0.0 && price > 0.0 ==>
              RelGap(priceScale, price) * priceScale == Min(Abs(price - priceScale), priceScale)
  {
    if priceScale > 0.0 && price > 0.0 {
      var r := price / priceScale;
      DivMul(price, priceScale);
      DivCompare(price, 1.0, priceScale);
      DivCompare(price, 2.0, priceScale);
      DivPos(price, priceScale);
      assert (r - 1.0) * priceScale == price - priceScale;
      assert (1.0 - r) * priceScale == priceScale - price;
    }
  }

  /** A gap held for a time counts by the square of what it has above 1.5%, in days. */
  lemma EnergyIs(gap: real, seconds: nat)
    ensures Energy(gap, seconds) * 86400.0 ==
            if gap > 0.015 then (gap - 0.015) * (gap - 0.015) * (seconds as real) else 0.0
  {}

  class TimeWeightedMetrics {
    var sumAbsRelDt: real
    var sumDt: nat
    var maxRelAbs: real
    var lastRelAbs: real
    var lastRelGap: real
    var firstTs: nat
    var lastTs: nat
    var haveErr: bool
    var detachTotal: real
    var peak: Peak
    const ring: array<Bucket>
    ghost var history: seq<Seg>

    /** Every accumulator is what the full history says. */
    ghost predicate Valid()
      reads this, ring
    {
      && ring.Length == BUCKETS
      && (haveErr ==>
          && Covers(history, firstTs, lastTs) && RingHolds(ring[..], history, firstTs, lastTs)
          && peak == PeakOf(history, firstTs)
          && sumDt == lastTs - firstTs && sumAbsRelDt == Over(history, firstTs, lastTs).sum
          && detachTotal == DetachOf(history))
      && (!haveErr ==>
          && history == [] && peak == PeakOf([], 0) && sumDt == 0 && sumAbsRelDt == 0.0 && detachTotal == 0.0
          && forall i :: 0 <= i < BUCKETS ==> !ring[i].live)
    }

    /** The sums over time. */
    function Accumulated(): (real, nat, real, Peak)
      reads this
    {
      (sumAbsRelDt, sumDt, detachTotal, peak)
    }

    constructor ()
      ensures Valid() && !haveErr && fresh(ring)
    {
      sumAbsRelDt, sumDt, maxRelAbs, lastRelAbs, lastRelGap := 0.0, 0, 0.0, 0.0, 0.0;
      firstTs, lastTs, haveErr, detachTotal, peak := 0, 0, false, 0.0, Peak(false, 0.0, 0);
      ring := new Bucket[BUCKETS](_ => EMPTY);
      history := [];
    }

    /** Splits a held span at the hours and pours each part into its bucket. */
    method Pour(start: nat, end: nat, rel: real, ghost gap: real, ghost h: seq<Seg>, ghost first: nat)
      requires ring.Length == BUCKETS && start < end
      requires Covers(h, first, start) && RingHolds(ring[..], h, first, start)
      modifies ring
      ensures Covers(h + [Seg(start, end, rel, gap)], first, end)
      ensures RingHolds(ring[..], h + [Seg(start, end, rel, gap)], first, end)
    {
      var s := start;
      CoversExtend(h, first, Seg(start, start, rel, gap));
      StartsEmpty(ring[..], h, first, start, rel, gap);
      while s < end
        invariant start <= s <= end
        invariant Covers(h + [Seg(start, s, rel, gap)], first, s) &&
                  RingHolds(ring[..], h + [Seg(start, s, rel, gap)], first, s)
      {
        hide RingHolds, Covers, Over, Held, Poured;
        var id := s / HOUR;
        var bucketEnd := (id + 1) * HOUR;
        var segmentEnd := if end < bucketEnd then end else bucketEnd;
        var idx := id % BUCKETS;
        ghost var seg := Seg(start, s, rel, gap);
        RingPoured(ring[..], h, seg, first, segmentEnd);
        ring[idx] := Poured(ring[idx], id, rel, segmentEnd - s);
        CoversExtend(h, first, seg.(end := segmentEnd));
        s := segmentEnd;
      }
    }

    /** Adds up the live buckets that overlap the window. */
    method SumWindow(end: nat, ghost first: nat, ghost h: seq<Seg>) returns (w: Total)
      requires ring.Length == BUCKETS && Covers(h, first, end) && RingHolds(ring[..], h, first, end) &&
               end >= first + WINDOW
      ensures w == Over(h, FloorHour(end - 604800), end)
    {
      hide Over, Covers, FloorHour, Gathered, IdOf;
      var cutoff := if end > WINDOW then end - WINDOW else 0;
      ghost var top := Top(first, end);
      w := ZERO;
      GatherNone(h, first / HOUR, cutoff, end, top);
      for i := 0 to BUCKETS
        invariant w == Gathered(h, first / HOUR, cutoff, end, top, i)
      {
        assert SlotHolds(ring[..][i], i, h, first, end);
        GatherSlot(h, first / HOUR, cutoff, end, top, i);
        if ring[i].live && InSpan(cutoff, end, ring[i].id) { w := Plus(w, ring[i].total); }
      }
      GatherAll(h, first / HOUR, cutoff, end, top);
      LastHoursAreWindow(h, first, end);
    }

    method Sample7d(start: nat, end: nat, rel: real, ghost gap: real)
      requires ring.Length == BUCKETS && start < end
      requires Covers(history, firstTs, start) && RingHolds(ring[..], history, firstTs, start) &&
               peak == PeakOf(history, firstTs)
      modifies this`peak, this`history, ring
      ensures history == old(history) + [Seg(start, end, rel, gap)]
      ensures Covers(history, firstTs, end) && RingHolds(ring[..], history, firstTs, end) &&
              peak == PeakOf(history, firstTs)
    {
      Pour(start, end, rel, gap, history, firstTs);
      assert (history + [Seg(start, end, rel, gap)])[..|history|] == history;
      history := history + [Seg(start, end, rel, gap)];
      var evalBucket := end / HOUR;
      if peak.have && evalBucket == peak.lastEval { return; }
      peak := peak.(lastEval := evalBucket);
      if end < firstTs + WINDOW { return; }
      var w := SumWindow(end, firstTs, history);
      CoveredTime(history, firstTs, end, FloorHour(end - WINDOW), end);
      if w.dt > 0 {
        var avg := w.sum / (w.dt as real);
        if !peak.have || avg > peak.max { peak := peak.(max := avg, have := true); }
      }
    }

    /** Closes the span held since the last sample. */
    method CloseSpan(ts: nat)
      requires Valid() && haveErr && ts > lastTs
      modifies this`sumAbsRelDt, this`sumDt, this`detachTotal, this`peak, this`history, this`lastTs, ring
      ensures Valid() && lastTs == ts
      ensures history == old(history) + [Seg(old(lastTs), ts, lastRelAbs, lastRelGap)]
    {
      var dt := ts - lastTs;
      ghost var seg := Seg(lastTs, ts, lastRelAbs, lastRelGap);
      SumExtends(history, firstTs, seg);
      assert (history + [seg])[..|history|] == history;
      hide RingHolds, Covers, PeakOf, Over, Held, Energy;
      sumAbsRelDt := sumAbsRelDt + Held(lastRelAbs, dt);
      sumDt := sumDt + dt;
      detachTotal := detachTotal + Energy(lastRelGap, dt);
      Sample7d(lastTs, ts, lastRelAbs, lastRelGap);
      lastTs := ts;
    }

    /** One sample. At or after the last one, every accumulator stays what the full history says; an earlier one
        moves the clock back and adds nothing. */
    method SamplePriceError(ts: nat, priceScale: real, price: real)
      requires Valid()
      modifies this, ring
      ensures !old(haveErr) || ts >= old(lastTs) ==> Valid()
      ensures old(haveErr) && ts < old(lastTs) ==> Accumulated() == old(Accumulated()) && ring[..] == old(ring[..])
      ensures haveErr && lastTs == ts && firstTs == (if old(haveErr) then old(firstTs) else ts)
      ensures history == old(history) +
                (if old(haveErr) && ts > old(lastTs) then [Seg(old(lastTs), ts, old(lastRelAbs), old(lastRelGap))]
                 else [])
      ensures lastRelAbs == RelAbs(priceScale, price) && lastRelGap == RelGap(priceScale, price)
      ensures maxRelAbs == Max(old(maxRelAbs), lastRelAbs)
    {
      if !haveErr {
        NothingSampled(ring[..], ts);
        firstTs := ts;
      } else if ts > lastTs {
        CloseSpan(ts);
      }
      hide RingHolds, PeakOf, Over, RelAbs, RelGap, DetachOf;
      var rel := RelAbs(priceScale, price);
      if rel > maxRelAbs { maxRelAbs := rel; }
      lastRelAbs, lastRelGap, lastTs, haveErr := rel, RelGap(priceScale, price), ts, true;
    }
  }

  lemma CoversExtend(h: seq<Seg>, first: nat, seg: Seg)
    requires Covers(h, first, seg.start) && seg.start <= seg.end
    ensures Covers(h + [seg], first, seg.end)
  {
    assert (h + [seg])[..|h|] == h;
  }

  lemma StartsEmpty(ring: seq<Bucket>, h: seq<Seg>, first: nat, at: nat, rel: real, gap: real)
    requires RingHolds(ring, h, first, at)
    ensures RingHolds(ring, h + [Seg(at, at, rel, gap)], first, at)
  {
    hide Over;
    forall i | 0 <= i < BUCKETS ensures SlotHolds(ring[i], i, h + [Seg(at, at, rel, gap)], first, at) {
      var id := IdOf(i, Top(first, at));
      assert SlotHolds(ring[i], i, h, first, at);
      EmptySegment(h, at, rel, gap, id * HOUR, (id + 1) * HOUR);
    }
  }

  lemma NothingSampled(ring: seq<Bucket>, ts: nat)
    requires |ring| == BUCKETS && forall i :: 0 <= i < BUCKETS ==> !ring[i].live
    ensures RingHolds(ring, [], ts, ts) && Covers([], ts, ts) && Over([], ts, ts) == ZERO && DetachOf([]) == 0.0
    ensures PeakOf([], ts) == PeakOf([], 0)
  {}

  lemma ShareOfAll(seg: Seg, first: nat)
    requires first <= seg.start < seg.end
    ensures Share(seg, first, seg.end).sum == Held(seg.rel, seg.end - seg.start)
  {
    hide Held;
  }

  lemma SumExtends(h: seq<Seg>, first: nat, seg: Seg)
    requires Covers(h, first, seg.start) && seg.start < seg.end
    ensures Over(h + [seg], first, seg.end).sum == Over(h, first, seg.start).sum + Held(seg.rel, seg.end - seg.start)
  {
    hide Share, Held;
    assert (h + [seg])[..|h|] == h;
    assert Over(h + [seg], first, seg.end) == Plus(Over(h, first, seg.end), Share(seg, first, seg.end));
    CoversWithin(h, first, seg.start);
    hide Over;
    ShareOfAll(seg, first);
    OverSplits(h, first, seg.start, seg.end);
    OverOutside(h, first, seg.start, seg.start, seg.end);
  }
}
