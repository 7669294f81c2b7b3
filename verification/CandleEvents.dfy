/** Bin-end events of a tape. */
module CandleEvents {
  import opened Wrappers
  import opened CandleTapes

  datatype Event = Event(ts: nat, price: real, feed: real, feedTs: real, volume: real, candle: nat)

  /** A half-open range of excluded time. */
  datatype Excluded = Excluded(start: nat, stop: nat)

  predicate Ordered(ranges: seq<Excluded>) {
    (forall k :: 0 <= k < |ranges| ==> ranges[k].start < ranges[k].stop) &&
    (forall k :: 0 < k < |ranges| ==> ranges[k - 1].stop <= ranges[k].start)
  }

  method ValidateRanges(ranges: seq<Excluded>) returns (ok: bool)
    ensures ok <==> Ordered(ranges)
  {
    var previousStop := 0;
    for k := 0 to |ranges|
      invariant Ordered(ranges[..k]) && previousStop == if k == 0 then 0 else ranges[k - 1].stop
    {
      if ranges[k].start >= ranges[k].stop || ranges[k].start < previousStop { return false; }
      previousStop := ranges[k].stop;
      assert forall j :: 0 <= j < k ==> ranges[..k][j] == ranges[j];
    }
    assert ranges[..|ranges|] == ranges;
    ok := true;
  }

  /** The bin [begin, end) overlaps a range, or its end is excluded. */
  predicate Overlaps(ranges: seq<Excluded>, begin: nat, end: nat) {
    exists k :: 0 <= k < |ranges| &&
           (ranges[k].start <= end < ranges[k].stop || (begin < ranges[k].stop && end > ranges[k].start))
  }

  predicate Skipped(t: Tape, ranges: seq<Excluded>, bin: nat) {
    Overlaps(ranges, Begin(t.t0, t.binS, bin), Begin(t.t0, t.binS, bin + 1))
  }

  /** A bin that can move the mark: it holds a candle and does not touch an exclusion. */
  predicate Marks(t: Tape, ranges: seq<Excluded>, bin: nat)
    requires bin < Bins(t)
  {
    t.close[bin].Some? && !Skipped(t, ranges, bin)
  }

  /** The mark after the first `n` bins. */
  function Mark(t: Tape, ranges: seq<Excluded>, n: nat): Option<real>
    requires n <= Bins(t)
  {
    if n == 0 then None else if Marks(t, ranges, n - 1) then t.close[n - 1] else Mark(t, ranges, n - 1)
  }

  /** The latest bin before `n` that can move the mark. */
  predicate Latest(t: Tape, ranges: seq<Excluded>, n: nat, bin: nat)
    requires n <= Bins(t)
  {
    bin < n && Marks(t, ranges, bin) && forall b :: bin < b < n ==> !Marks(t, ranges, b)
  }

  /** The mark is the close of the latest marking bin, and unset exactly when there is none. */
  lemma {:induction false} MarkIsLatest(t: Tape, ranges: seq<Excluded>, n: nat)
    requires n <= Bins(t)
    ensures Mark(t, ranges, n).None? <==> forall b :: 0 <= b < n ==> !Marks(t, ranges, b)
    ensures forall b: nat :: Latest(t, ranges, n, b) ==> Mark(t, ranges, n) == t.close[b]
  {
    hide Marks;
    if n > 0 {
      MarkIsLatest(t, ranges, n - 1);
      if Marks(t, ranges, n - 1) { CloseIsSome(t, ranges, n - 1); }
      forall b: nat | Latest(t, ranges, n, b) ensures Mark(t, ranges, n) == t.close[b] {
        if b < n - 1 { assert Latest(t, ranges, n - 1, b); }
      }
    }
  }

  lemma CloseIsSome(t: Tape, ranges: seq<Excluded>, bin: nat)
    requires bin < Bins(t) && Marks(t, ranges, bin)
    ensures t.close[bin].Some?
  {}

  datatype Window = Window(start: nat, end: nat)

  /** 0 stands for no end. */
  predicate InWindow(w: Window, ts: nat) { ts >= w.start && (w.end == 0 || ts <= w.end) }

  /** Bin `bin` emits an event: it touches no exclusion, ends in the window, and a positive mark is known. */
  predicate Emits(t: Tape, ranges: seq<Excluded>, w: Window, bin: nat)
    requires bin < Bins(t)
  {
    && !Skipped(t, ranges, bin) && InWindow(w, Begin(t.t0, t.binS, bin + 1))
    && Mark(t, ranges, bin + 1).Some? && Mark(t, ranges, bin + 1).value > 0.0
  }

  /** The emitting bins before `n`, in order. */
  function Emitting(t: Tape, ranges: seq<Excluded>, w: Window, n: nat): seq<nat>
    requires n <= Bins(t)
  {
    if n == 0 then [] else Emitting(t, ranges, w, n - 1) + (if Emits(t, ranges, w, n - 1) then [n - 1] else [])
  }

  lemma {:induction false} EmittingIsExact(t: Tape, ranges: seq<Excluded>, w: Window, n: nat)
    requires n <= Bins(t)
    ensures forall b: nat :: b in Emitting(t, ranges, w, n) <==> b < n && Emits(t, ranges, w, b)
    ensures forall i, j :: 0 <= i < j < |Emitting(t, ranges, w, n)| ==>
            Emitting(t, ranges, w, n)[i] < Emitting(t, ranges, w, n)[j]
  {
    hide Emits;
    if n > 0 {
      var front := Emitting(t, ranges, w, n - 1);
      EmittingIsExact(t, ranges, w, n - 1);
      assert forall i :: 0 <= i < |front| ==> front[i] in front;
    }
  }

  /** The event of an emitting bin, at the bin's end and at the mark. */
  function EventFor(t: Tape, ranges: seq<Excluded>, w: Window, bin: nat, index: nat): Event
    requires Columns(t) && bin < Bins(t) && Emits(t, ranges, w, bin)
  {
    Event(Begin(t.t0, t.binS, bin + 1), Mark(t, ranges, bin + 1).value, 0.0, 0.0, t.volume[bin], index)
  }

  /** Its trace candle: the bin's own, or a flat one at the mark. */
  function CandleFor(t: Tape, ranges: seq<Excluded>, w: Window, bin: nat): Candle
    requires Columns(t) && bin < Bins(t) && Emits(t, ranges, w, bin)
  {
    var mark := Mark(t, ranges, bin + 1).value;
    match At(t, bin)
    case Some(c) => c
    case None => Candle(Begin(t.t0, t.binS, bin), mark, mark, mark, mark, 0.0)
  }

  /** `events` and `candles` are those of the emitting bins before `n`; event `k` points at candle `base + k`. */
  predicate EventsOf(t: Tape, ranges: seq<Excluded>, w: Window, n: nat, base: nat, events: seq<Event>,
                     candles: seq<Candle>)
    requires Columns(t) && n <= Bins(t)
  {
    var from := Emitting(t, ranges, w, n);
    && |events| == |candles| == |from|
    && (forall k :: 0 <= k < |from| ==> from[k] < n && Emits(t, ranges, w, from[k]))
    && (forall k :: 0 <= k < |from| ==> events[k] == EventFor(t, ranges, w, from[k], base + k))
    && (forall k :: 0 <= k < |from| ==> candles[k] == CandleFor(t, ranges, w, from[k]))
  }

  /** Events are in strictly increasing time order, and an event's trace candle closes at its price. */
  lemma EventsAreOrdered(t: Tape, ranges: seq<Excluded>, w: Window, base: nat, events: seq<Event>, candles: seq<Candle>)
    requires Columns(t) && t.binS > 0 && EventsOf(t, ranges, w, Bins(t), base, events, candles)
    ensures forall i, j :: 0 <= i < j < |events| ==> events[i].ts < events[j].ts
    ensures forall k :: 0 <= k < |events| ==>
            candles[k].close == events[k].price > 0.0 && candles[k].ts + t.binS == events[k].ts
  {
    var from := Emitting(t, ranges, w, Bins(t));
    EmittingIsExact(t, ranges, w, Bins(t));
    hide Emits, Emitting, Begin;
    forall i, j | 0 <= i < j < |events| ensures events[i].ts < events[j].ts {
      BeginOrder(t.t0, t.binS, from[i] + 1, from[j] + 1);
    }
    forall k | 0 <= k < |events|
      ensures candles[k].close == events[k].price > 0.0 && candles[k].ts + t.binS == events[k].ts
    {
      EmitsAtMark(t, ranges, w, from[k]);
      BeginNext(t.t0, t.binS, from[k]);
    }
  }

  /** A bin that no exclusion touches: none overlaps it, and none holds its end. */
  predicate Clear(t: Tape, ranges: seq<Excluded>, bin: nat) {
    var begin, end := Begin(t.t0, t.binS, bin), Begin(t.t0, t.binS, bin + 1);
    forall k :: 0 <= k < |ranges| ==>
      (ranges[k].stop <= begin || end <= ranges[k].start) && !(ranges[k].start <= end < ranges[k].stop)
  }

  lemma ClearIsNotSkipped(t: Tape, ranges: seq<Excluded>, bin: nat)
    ensures Clear(t, ranges, bin) <==> !Skipped(t, ranges, bin)
  {
    hide Begin;
  }

  /** No event lies in an excluded range, the bin it ends overlaps none, and it is within the window. */
  lemma EventsAvoidExclusions(t: Tape, ranges: seq<Excluded>, w: Window, base: nat, events: seq<Event>,
                              candles: seq<Candle>, k: nat)
    requires Columns(t) && EventsOf(t, ranges, w, Bins(t), base, events, candles) && k < |events|
    ensures w.start <= events[k].ts && (w.end > 0 ==> events[k].ts <= w.end)
    ensures forall j :: 0 <= j < |ranges| ==>
              && !(ranges[j].start <= events[k].ts < ranges[j].stop)
              && (ranges[j].stop + t.binS <= events[k].ts || events[k].ts <= ranges[j].start)
  {
    var bin := Emitting(t, ranges, w, Bins(t))[k];
    ClearIsNotSkipped(t, ranges, bin);
    BeginNext(t.t0, t.binS, bin);
    hide Begin, Mark, Skipped;
  }

  /** Every bin that no exclusion touches, that ends within the window, and whose latest untouched candle has a positive
      close has an event, at its end and at that close. */
  lemma ClearBinsEmit(t: Tape, ranges: seq<Excluded>, w: Window, base: nat, events: seq<Event>, candles: seq<Candle>,
                      latest: nat, bin: nat) returns (k: nat)
    requires Columns(t) && EventsOf(t, ranges, w, Bins(t), base, events, candles) && latest <= bin < Bins(t)
    requires Clear(t, ranges, bin) && w.start <= Begin(t.t0, t.binS, bin + 1)
    requires w.end > 0 ==> Begin(t.t0, t.binS, bin + 1) <= w.end
    requires t.close[latest].Some? && t.close[latest].value > 0.0 && Clear(t, ranges, latest)
    requires forall b :: latest < b <= bin ==> t.close[b].None? || !Clear(t, ranges, b)
    ensures k < |events| && events[k].ts == Begin(t.t0, t.binS, bin + 1) && t.close[latest] == Some(events[k].price)
    ensures events[k].volume == t.volume[bin] && events[k].candle == base + k
  {
    ClearIsNotSkipped(t, ranges, bin);
    ClearIsNotSkipped(t, ranges, latest);
    forall b: nat | latest < b <= bin ensures !Marks(t, ranges, b) { ClearIsNotSkipped(t, ranges, b); }
    MarkIsLatest(t, ranges, bin + 1);
    assert Latest(t, ranges, bin + 1, latest);
    EmittingIsExact(t, ranges, w, Bins(t));
    hide Begin, Mark, Skipped, Emitting, Clear, Latest;
    assert Emits(t, ranges, w, bin);
    k :| 0 <= k < |Emitting(t, ranges, w, Bins(t))| && Emitting(t, ranges, w, Bins(t))[k] == bin;
  }

  lemma EventTime(t: Tape, ranges: seq<Excluded>, w: Window, base: nat, events: seq<Event>, candles: seq<Candle>,
                  k: nat)
    requires Columns(t) && EventsOf(t, ranges, w, Bins(t), base, events, candles) && k < |events|
    ensures k < |Emitting(t, ranges, w, Bins(t))|
    ensures events[k].ts == Begin(t.t0, t.binS, Emitting(t, ranges, w, Bins(t))[k] + 1)
  {}

  lemma EmitsAtMark(t: Tape, ranges: seq<Excluded>, w: Window, bin: nat)
    requires Columns(t) && bin < Bins(t) && Emits(t, ranges, w, bin)
    ensures Mark(t, ranges, bin + 1).value > 0.0
    ensures t.close[bin].Some? ==> Mark(t, ranges, bin + 1) == t.close[bin]
  {}

  lemma {:induction false} LatestExists(t: Tape, ranges: seq<Excluded>, n: nat) returns (b: nat)
    requires n <= Bins(t) && Mark(t, ranges, n).Some?
    ensures Latest(t, ranges, n, b) && Mark(t, ranges, n) == t.close[b]
  {
    if Marks(t, ranges, n - 1) {
      b := n - 1;
    } else {
      b := LatestExists(t, ranges, n - 1);
    }
  }

  lemma CandleOfBin(cs: seq<Candle>, t: Tape, b: nat) returns (k: nat)
    requires TapeOf(cs, t) && b < Bins(t) && t.close[b].Some?
    ensures k < |cs| && t.close[b] == Some(cs[k].close) && cs[k].ts == Begin(t.t0, t.binS, b)
    ensures cs[k].ts >= t.t0 && BinOf(t.t0, t.binS, cs[k].ts) == b
  {
    hide Present, Begin, BinOf, Step, Clock;
    PresentHas(t, Bins(t), b);
    k :| 0 <= k < |cs| && cs[k] == At(t, b).value;
    BeginIsOnClock(t.t0, t.binS, b);
  }

  /** A candle between the latest marking bin and bin `n` is in a skipped bin. */
  lemma LaterIsSkipped(cs: seq<Candle>, t: Tape, ranges: seq<Excluded>, n: nat, b: nat, j: nat)
    requires TapeOf(cs, t) && n <= Bins(t) && Latest(t, ranges, n, b) && j < |cs|
    requires Begin(t.t0, t.binS, b) < cs[j].ts < Begin(t.t0, t.binS, n)
    ensures Skipped(t, ranges, BinOf(t.t0, t.binS, cs[j].ts))
  {
    hide Present, Begin, BinOf, Step, Clock, Skipped, Increasing;
    EachInOneBin(cs, t, j);
    var a := BinOf(t.t0, t.binS, cs[j].ts);
    assert At(t, a) == Some(cs[j]);
    BeginOrder(t.t0, t.binS, b, a);
    BeginOrder(t.t0, t.binS, a, n);
    assert !Marks(t, ranges, a);
  }

  /** From a candle list to its events, under any exclusions: an event is priced at the close of the latest
      candle that began before it in a bin that touches no exclusion. */
  lemma EventPriceIsLatestClose(cs: seq<Candle>, t: Tape, ranges: seq<Excluded>, w: Window, bin: nat)
      returns (k: nat)
    requires TapeOf(cs, t) && bin < Bins(t) && Emits(t, ranges, w, bin)
    ensures k < |cs| && Mark(t, ranges, bin + 1) == Some(cs[k].close)
    ensures cs[k].ts < Begin(t.t0, t.binS, bin + 1) && !Skipped(t, ranges, BinOf(t.t0, t.binS, cs[k].ts))
    ensures forall j :: k < j < |cs| && cs[j].ts < Begin(t.t0, t.binS, bin + 1) ==>
              Skipped(t, ranges, BinOf(t.t0, t.binS, cs[j].ts))
  {
    var b := LatestExists(t, ranges, bin + 1);
    hide Present, Begin, BinOf, Step, Clock, Skipped, Emits, Mark;
    k := CandleOfBin(cs, t, b);
    BeginOrder(t.t0, t.binS, b, bin + 1);
    hide Latest, Marks, At;
    forall j | k < j < |cs| && cs[j].ts < Begin(t.t0, t.binS, bin + 1)
      ensures Skipped(t, ranges, BinOf(t.t0, t.binS, cs[j].ts))
    {
      LaterIsSkipped(cs, t, ranges, bin + 1, b, j);
    }
  }

  /** `std::any_of` over the exclusions, and the overlap scan. */
  method ScanOverlaps(ranges: seq<Excluded>, begin: nat, end: nat) returns (overlaps: bool)
    ensures overlaps <==> Overlaps(ranges, begin, end)
  {
    overlaps := false;
    for k := 0 to |ranges|
      invariant overlaps <==>
                exists j :: 0 <= j < k &&
                       (ranges[j].start <= end < ranges[j].stop || (begin < ranges[j].stop && end > ranges[j].start))
    {
      overlaps := overlaps || (ranges[k].start <= end < ranges[k].stop) ||
                  (begin < ranges[k].stop && end > ranges[k].start);
    }
  }

  const MAX_INDEX := 0xFFFF_FFFF

  datatype GenError = BadRanges | TooManyCandles

  datatype Generated = Generated(events: seq<Event>, candles: seq<Candle>) | Rejected(error: GenError)

  /** Candle indices fit in 32 bits: `base` candles are already in the trace list. */
  predicate IndicesFit(base: nat, count: nat) { count == 0 || base + count - 1 <= MAX_INDEX }

  /** One bin: moves the mark, and yields the event of an emitting bin. */
  method VisitBin(t: Tape, w: Window, ranges: seq<Excluded>, bin: nat, mark: Option<real>, index: nat)
      returns (after: Option<real>, out: Option<(Event, Candle)>)
    requires Columns(t) && bin < Bins(t) && mark == Mark(t, ranges, bin)
    ensures after == Mark(t, ranges, bin + 1)
    ensures out.Some? <==> Emits(t, ranges, w, bin)
    ensures out.Some? ==> out.value == (EventFor(t, ranges, w, bin, index), CandleFor(t, ranges, w, bin))
  {
    hide Begin, Overlaps;
    var begin, ts := Begin(t.t0, t.binS, bin), Begin(t.t0, t.binS, bin + 1);
    after, out := mark, None;
    var overlaps := ScanOverlaps(ranges, begin, ts);
    if overlaps { return; }
    if t.close[bin].Some? { after := t.close[bin]; }
    if !InWindow(w, ts) || after.None? || !(after.value > 0.0) { return; }
    var p := after.value;
    out := Some((Event(ts, p, 0.0, 0.0, t.volume[bin], index),
                 if t.close[bin].Some?
                 then Candle(begin, t.open[bin].value, t.high[bin].value, t.low[bin].value, p, t.volume[bin])
                 else Candle(begin, p, p, p, p, 0.0)));
  }

  /** Walks the bins once, carrying the mark over empty and excluded bins; the events' candles are appended to
      the trace list. */
  method GenCandleEvents(t: Tape, candles: seq<Candle>, w: Window, ranges: seq<Excluded>) returns (r: Generated)
    requires Columns(t)
    ensures r == Rejected(BadRanges) <==> !Ordered(ranges)
    ensures r == Rejected(TooManyCandles) <==>
            Ordered(ranges) && !IndicesFit(|candles|, |Emitting(t, ranges, w, Bins(t))|)
    ensures r.Generated? ==> |candles| <= |r.candles| && r.candles[..|candles|] == candles
    ensures r.Generated? ==> EventsOf(t, ranges, w, Bins(t), |candles|, r.events, r.candles[|candles|..])
  {
    var valid := ValidateRanges(ranges);
    if !valid { return Rejected(BadRanges); }
    hide Ordered, Mark, Emits, EventFor, CandleFor, EventsOf, Emitting, Columns;
    var events, traced, mark: Option<real> := [], candles, None;
    assert mark == Mark(t, ranges, 0) by { MarkIsLatest(t, ranges, 0); }
    ghost var own: seq<Candle> := [];
    NoEvents(t, ranges, w, |candles|);
    for bin := 0 to Bins(t)
      invariant |own| == |events| && traced == candles + own
      invariant EventsOf(t, ranges, w, bin, |candles|, events, own)
      invariant IndicesFit(|candles|, |events|) && mark == Mark(t, ranges, bin)
    {
      var after, out := VisitBin(t, w, ranges, bin, mark, |traced|);
      mark := after;
      NextEvents(t, ranges, w, bin, |candles|, events, own, out);
      if out.None? { continue; }
      if |traced| > MAX_INDEX {
        EmittingGrows(t, ranges, w, bin + 1, Bins(t));
        return Rejected(TooManyCandles);
      }
      events, traced, own := events + [out.value.0], traced + [out.value.1], own + [out.value.1];
    }
    CountEvents(t, ranges, w, Bins(t), |candles|, events, own);
    Joined(candles, own);
    r := Generated(events, traced);
  }

  lemma Joined(a: seq<Candle>, b: seq<Candle>)
    ensures (a + b)[..|a|] == a && (a + b)[|a|..] == b
  {}

  lemma NoEvents(t: Tape, ranges: seq<Excluded>, w: Window, base: nat)
    requires Columns(t)
    ensures EventsOf(t, ranges, w, 0, base, [], [])
  {}

  lemma CountEvents(t: Tape, ranges: seq<Excluded>, w: Window, n: nat, base: nat, events: seq<Event>,
                    candles: seq<Candle>)
    requires Columns(t) && n <= Bins(t) && EventsOf(t, ranges, w, n, base, events, candles)
    ensures |Emitting(t, ranges, w, n)| == |events|
  {}

  /** Bin `bin` adds its event, if it emits one. */
  lemma NextEvents(t: Tape, ranges: seq<Excluded>, w: Window, bin: nat, base: nat, events: seq<Event>,
                   candles: seq<Candle>,
                   out: Option<(Event, Candle)>)
    requires Columns(t) && bin < Bins(t) && EventsOf(t, ranges, w, bin, base, events, candles)
    requires out.Some? <==> Emits(t, ranges, w, bin)
    requires out.Some? ==>
               out.value == (EventFor(t, ranges, w, bin, base + |events|), CandleFor(t, ranges, w, bin))
    ensures out.None? ==>
              && EventsOf(t, ranges, w, bin + 1, base, events, candles)
              && |Emitting(t, ranges, w, bin + 1)| == |events|
    ensures out.Some? ==>
              && EventsOf(t, ranges, w, bin + 1, base, events + [out.value.0], candles + [out.value.1])
              && |Emitting(t, ranges, w, bin + 1)| == |events| + 1
  {
    hide Emits, EventFor, CandleFor;
    if out.None? { assert Emitting(t, ranges, w, bin + 1) == Emitting(t, ranges, w, bin); }
  }

  lemma {:induction false} EmittingGrows(t: Tape, ranges: seq<Excluded>, w: Window, m: nat, n: nat)
    requires m <= n <= Bins(t)
    ensures |Emitting(t, ranges, w, m)| <= |Emitting(t, ranges, w, n)|
  {
    if m < n { EmittingGrows(t, ranges, w, m, n - 1); }
  }
}
