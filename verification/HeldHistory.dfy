/** The full sample-and-hold history of the price error, and its integral over any span of time. */
module HeldHistory {
  import opened Durations

  /** From `start` to `end` the sampled error and gap were held. Times and durations are whole seconds. */
  datatype Seg = Seg(start: nat, end: nat, rel: real, gap: real)

  const WINDOW := 604800
  const BUCKETS := 170

  function Overlap(a: int, b: int, lo: int, hi: int): nat {
    var from, to := if a >= lo then a else lo, if b <= hi then b else hi;
    if from < to then to - from else 0
  }

  function Held(rel: real, seconds: nat): real { rel * (seconds as real) }

  lemma HeldSplits(rel: real, a: nat, b: nat)
    ensures Held(rel, a + b) == Held(rel, a) + Held(rel, b) && Held(rel, 0) == 0.0
  {}

  /** Sum of held error over time, and the time covered, within [lo, hi). */
  datatype Total = Total(sum: real, dt: nat)

  function Plus(a: Total, b: Total): Total { Total(a.sum + b.sum, a.dt + b.dt) }

  const ZERO := Total(0.0, 0)

  function Share(s: Seg, lo: int, hi: int): Total {
    var n := Overlap(s.start, s.end, lo, hi);
    Total(Held(s.rel, n), n)
  }

  function Over(h: seq<Seg>, lo: int, hi: int): Total {
    if h == [] then ZERO else Plus(Over(h[..|h| - 1], lo, hi), Share(h[|h| - 1], lo, hi))
  }

  /** Consecutive segments from `first` to `last`. */
  predicate Covers(h: seq<Seg>, first: nat, last: nat)
  {
    if h == [] then first == last
    else var s := h[|h| - 1]; s.start <= s.end == last && Covers(h[..|h| - 1], first, s.start)
  }

  lemma {:induction false} CoversWithin(h: seq<Seg>, first: nat, last: nat)
    requires Covers(h, first, last)
    ensures first <= last
    ensures forall k :: 0 <= k < |h| ==> first <= h[k].start <= h[k].end <= last
  {
    if h != [] { CoversWithin(h[..|h| - 1], first, h[|h| - 1].start); }
  }

  lemma OverlapSplits(a: int, b: int, lo: int, mid: int, hi: int)
    requires lo <= mid <= hi
    ensures Overlap(a, b, lo, hi) == Overlap(a, b, lo, mid) + Overlap(a, b, mid, hi)
  {}

  lemma OverlapOutside(a: int, b: int, lo: int, hi: int)
    requires hi <= a || b <= lo
    ensures Overlap(a, b, lo, hi) == 0
  {}

  lemma ShareSplits(s: Seg, lo: int, mid: int, hi: int)
    requires lo <= mid <= hi
    ensures Share(s, lo, hi) == Plus(Share(s, lo, mid), Share(s, mid, hi))
  {
    hide Held, Overlap;
    OverlapSplits(s.start, s.end, lo, mid, hi);
    HeldSplits(s.rel, Overlap(s.start, s.end, lo, mid), Overlap(s.start, s.end, mid, hi));
  }

  lemma ShareOutside(s: Seg, lo: int, hi: int)
    requires hi <= s.start || s.end <= lo
    ensures Share(s, lo, hi) == ZERO
  {
    hide Held, Overlap;
    OverlapOutside(s.start, s.end, lo, hi);
    HeldSplits(s.rel, 0, 0);
  }

  lemma {:induction false} OverSplits(h: seq<Seg>, lo: int, mid: int, hi: int)
    requires lo <= mid <= hi
    ensures Over(h, lo, hi) == Plus(Over(h, lo, mid), Over(h, mid, hi))
  {
    hide Share;
    if h != [] {
      OverSplits(h[..|h| - 1], lo, mid, hi);
      ShareSplits(h[|h| - 1], lo, mid, hi);
    }
  }

  /** Nothing is held before the first sample or after the last. */
  lemma {:induction false} OverOutside(h: seq<Seg>, first: nat, last: nat, lo: int, hi: int)
    requires Covers(h, first, last) && (hi <= first || last <= lo)
    ensures Over(h, lo, hi) == ZERO
  {
    hide Share;
    if h != [] {
      var s := h[|h| - 1];
      CoversWithin(h, first, last);
      ShareOutside(s, lo, hi);
      OverOutside(h[..|h| - 1], first, s.start, lo, hi);
    }
  }

  /** The covered time is all of the span that the history reaches. */
  lemma {:induction false} CoveredTime(h: seq<Seg>, first: nat, last: nat, lo: int, hi: int)
    requires Covers(h, first, last)
    ensures Over(h, lo, hi).dt == Overlap(first, last, lo, hi)
  {
    hide Held;
    if h != [] {
      CoversWithin(h, first, last);
      CoveredTime(h[..|h| - 1], first, h[|h| - 1].start, lo, hi);
    }
  }

  /** Holding the last value on from `s` to `t`. */
  lemma Extending(h: seq<Seg>, seg: Seg, t: nat, lo: int, hi: int)
    requires seg.start <= seg.end <= t
    ensures Over(h + [seg.(end := t)], lo, hi) ==
            Plus(Over(h + [seg], lo, hi), Share(Seg(seg.end, t, seg.rel, seg.gap), lo, hi))
  {
    hide Held;
    assert (h + [seg.(end := t)])[..|h|] == h && (h + [seg])[..|h|] == h;
    HeldSplits(seg.rel, Overlap(seg.start, seg.end, lo, hi), Overlap(seg.end, t, lo, hi));
  }

  lemma EmptySegment(h: seq<Seg>, at: nat, rel: real, gap: real, lo: int, hi: int)
    ensures Over(h + [Seg(at, at, rel, gap)], lo, hi) == Over(h, lo, hi)
  {
    hide Held;
    assert (h + [Seg(at, at, rel, gap)])[..|h|] == h;
    HeldSplits(rel, 0, 0);
  }

  // ---------------------------------------------------------------------------------------------
  // Hours

  function Hour(h: seq<Seg>, b: int): Total { Over(h, b * HOUR, (b + 1) * HOUR) }

  /** Hour `b` overlaps the open span (cutoff, end). */
  predicate InSpan(cutoff: int, end: int, b: int) { (b + 1) * HOUR > cutoff && b * HOUR < end }

  function Term(h: seq<Seg>, from: int, cutoff: int, end: int, b: int): Total {
    if b >= from && InSpan(cutoff, end, b) then Hour(h, b) else ZERO
  }

  /** Terms of the hours lo..hi-1. */
  function Terms(h: seq<Seg>, from: int, cutoff: int, end: int, lo: int, hi: int): Total
    decreases hi - lo
  {
    if lo >= hi then ZERO else Plus(Terms(h, from, cutoff, end, lo, hi - 1), Term(h, from, cutoff, end, hi - 1))
  }

  lemma {:induction false} TermsSplit(h: seq<Seg>, from: int, cutoff: int, end: int, lo: int, mid: int, hi: int)
    requires lo <= mid <= hi
    ensures Terms(h, from, cutoff, end, lo, hi) ==
            Plus(Terms(h, from, cutoff, end, lo, mid), Terms(h, from, cutoff, end, mid, hi))
    decreases hi - mid
  {
    hide Term;
    if mid < hi { TermsSplit(h, from, cutoff, end, lo, mid, hi - 1); }
  }

  lemma TermBefore(h: seq<Seg>, from: int, cutoff: int, end: int, b: int)
    requires (b + 1) * HOUR <= cutoff
    ensures Term(h, from, cutoff, end, b) == ZERO
  {
    hide Hour;
  }

  lemma {:induction false} TermsBefore(h: seq<Seg>, from: int, cutoff: int, end: int, lo: int, hi: int)
    requires lo <= hi && hi * HOUR <= cutoff
    ensures Terms(h, from, cutoff, end, lo, hi) == ZERO
    decreases hi - lo
  {
    hide Term;
    if lo < hi {
      TermBefore(h, from, cutoff, end, hi - 1);
      TermsBefore(h, from, cutoff, end, lo, hi - 1);
    }
  }

  lemma {:induction false} TermsInside(h: seq<Seg>, first: nat, end: nat, cutoff: int, lo: int, hi: int)
    requires Covers(h, first, end) && lo <= hi && (lo + 1) * HOUR > cutoff && (hi - 1) * HOUR < end
    ensures Terms(h, first / HOUR, cutoff, end, lo, hi) == Over(h, lo * HOUR, hi * HOUR)
    decreases hi - lo
  {
    hide Over;
    if lo < hi {
      TermsInside(h, first, end, cutoff, lo, hi - 1);
      OverSplits(h, lo * HOUR, (hi - 1) * HOUR, hi * HOUR);
      if hi - 1 < first / HOUR { OverOutside(h, first, end, (hi - 1) * HOUR, hi * HOUR); }
    } else {
      OverEmpty(h, lo * HOUR);
    }
  }

  lemma {:induction false} OverEmpty(h: seq<Seg>, at: int)
    ensures Over(h, at, at) == ZERO
  {
    hide Held;
    if h != [] {
      OverEmpty(h[..|h| - 1], at);
      HeldSplits(h[|h| - 1].rel, 0, 0);
    }
  }

  /** Start of the hour that holds `ts`. */
  function FloorHour(ts: nat): nat { ts / HOUR * HOUR }

  /** The last 170 hours hold the whole window: their terms add up to the history over the window widened to the
      start of its first hour. */
  lemma LastHoursAreWindow(h: seq<Seg>, first: nat, end: nat)
    requires Covers(h, first, end) && end >= first + 604800
    ensures Terms(h, first / HOUR, end - 604800, end, (end - 1) / HOUR - 169, (end - 1) / HOUR + 1) ==
            Over(h, FloorHour(end - 604800), end)
  {
    hide Over, Terms;
    var cutoff, top := end - WINDOW, (end - 1) / HOUR;
    var c := cutoff / HOUR;
    TermsSplit(h, first / HOUR, cutoff, end, top - BUCKETS + 1, c, top + 1);
    TermsBefore(h, first / HOUR, cutoff, end, top - BUCKETS + 1, c);
    TermsInside(h, first, end, cutoff, c, top + 1);
    OverSplits(h, c * HOUR, end, (top + 1) * HOUR);
    OverOutside(h, first, end, end, (top + 1) * HOUR);
  }
}
