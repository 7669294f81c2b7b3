/** Candle tapes on a regular clock, and what survives the round trip from a candle list. */
module CandleTapes {
  import opened Algebra
  import opened Wrappers

  datatype Candle = Candle(ts: nat, open: real, high: real, low: real, close: real, volume: real)

  /** Columns of one value per bin. A bin without a candle has no prices and no volume. */
  datatype Tape = Tape(t0: nat, binS: nat, open: seq<Option<real>>, high: seq<Option<real>>, low: seq<Option<real>>,
                       close: seq<Option<real>>, volume: seq<real>)

  function Bins(t: Tape): nat { |t.close| }

  predicate Columns(t: Tape) {
    && |t.open| == |t.high| == |t.low| == |t.close| == |t.volume|
    && (forall b :: 0 <= b < |t.close| ==>
          (t.open[b].Some? <==> t.close[b].Some?) && (t.high[b].Some? <==> t.close[b].Some?) &&
          (t.low[b].Some? <==> t.close[b].Some?) && (t.close[b].None? ==> t.volume[b] == 0.0))
  }

  /** Start of bin `bin`. */
  function Begin(t0: nat, binS: nat, bin: nat): nat { t0 + bin * binS }

  lemma BeginNext(t0: nat, binS: nat, bin: nat)
    ensures Begin(t0, binS, bin + 1) == Begin(t0, binS, bin) + binS
  {}

  lemma BeginOrder(t0: nat, binS: nat, a: nat, b: nat)
    requires binS > 0
    ensures a < b <==> Begin(t0, binS, a) < Begin(t0, binS, b)
  {
    if a < b { Scale(a + 1, b, binS); } else { Scale(b, a, binS); }
  }

  function BinOf(t0: nat, binS: nat, ts: nat): nat
    requires ts >= t0 && binS > 0
  {
    (ts - t0) / binS
  }

  predicate OnClock(t0: nat, binS: nat, ts: nat)
    requires ts >= t0 && binS > 0
  {
    (ts - t0) % binS == 0
  }

  lemma OnClockBegins(t0: nat, binS: nat, ts: nat)
    requires ts >= t0 && binS > 0
    ensures Begin(t0, binS, BinOf(t0, binS, ts)) <= ts < Begin(t0, binS, BinOf(t0, binS, ts) + 1)
    ensures OnClock(t0, binS, ts) <==> Begin(t0, binS, BinOf(t0, binS, ts)) == ts
  {}

  lemma BeginIsOnClock(t0: nat, binS: nat, bin: nat)
    requires binS > 0
    ensures OnClock(t0, binS, Begin(t0, binS, bin)) && BinOf(t0, binS, Begin(t0, binS, bin)) == bin
  {
    hide Begin, BinOf, OnClock;
    var ts := Begin(t0, binS, bin);
    assert ts >= t0 by { BeginOrder(t0, binS, 0, bin); assert Begin(t0, binS, 0) == t0 by { BeginZero(t0, binS); } }
    OnClockBegins(t0, binS, ts);
    var q := BinOf(t0, binS, ts);
    BeginOrder(t0, binS, bin, q);
    BeginOrder(t0, binS, bin, q + 1);
    BeginOrder(t0, binS, q, bin);
  }

  lemma BeginZero(t0: nat, binS: nat)
    ensures Begin(t0, binS, 0) == t0
  {}

  /** The candle of a bin, read back from the columns. */
  function At(t: Tape, bin: nat): Option<Candle>
    requires Columns(t) && bin < Bins(t)
  {
    if t.close[bin].None? then None
    else Some(Candle(Begin(t.t0, t.binS, bin), t.open[bin].value, t.high[bin].value, t.low[bin].value,
                     t.close[bin].value, t.volume[bin]))
  }

  /** The candles of the first `n` bins, in order. */
  function Present(t: Tape, n: nat): seq<Candle>
    requires Columns(t) && n <= Bins(t)
  {
    if n == 0 then []
    else match At(t, n - 1)
         case None => Present(t, n - 1)
         case Some(c) => Present(t, n - 1) + [c]
  }

  predicate Increasing(cs: seq<Candle>) { forall i, j :: 0 <= i < j < |cs| ==> cs[i].ts < cs[j].ts }

  function Gap(cs: seq<Candle>, i: nat): int
    requires 0 < i < |cs|
  {
    cs[i].ts - cs[i - 1].ts
  }

  predicate Rising(cs: seq<Candle>) { forall i :: 0 < i < |cs| ==> Gap(cs, i) > 0 }

  lemma {:induction false} RisingIncreases(cs: seq<Candle>)
    ensures Rising(cs) <==> Increasing(cs)
  {
    if Rising(cs) && |cs| > 1 {
      var n := |cs| - 1;
      assert forall i :: 0 < i < n ==> Gap(cs[..n], i) == Gap(cs, i);
      RisingIncreases(cs[..n]);
      assert Gap(cs, n) > 0;
      assert forall j :: 0 <= j < n ==> cs[..n][j] == cs[j];
    }
  }

  /** The least step between consecutive candles, 0 when there is none. */
  function Step(cs: seq<Candle>): int {
    if |cs| <= 1 then 0
    else
      var n := |cs| - 1;
      var front, last := Step(cs[..n]), Gap(cs, n);
      if front > 0 && front < last then front else last
  }

  lemma {:induction false} StepIsLeast(cs: seq<Candle>)
    requires Rising(cs)
    ensures if |cs| <= 1 then Step(cs) == 0 else Step(cs) > 0 && exists i :: 0 < i < |cs| && Step(cs) == Gap(cs, i)
    ensures forall i :: 0 < i < |cs| ==> Step(cs) <= Gap(cs, i)
  {
    if |cs| > 1 {
      var n := |cs| - 1;
      GapsOfFront(cs, n);
      hide Gap;
      assert Rising(cs[..n]) by { assert forall i :: 0 < i < n ==> Gap(cs[..n], i) > 0; }
      StepIsLeast(cs[..n]);
      assert Gap(cs, n) > 0;
      if n > 1 {
        var i :| 0 < i < n && Step(cs[..n]) == Gap(cs[..n], i);
        assert Step(cs) == Gap(cs, i) || Step(cs) == Gap(cs, n);
      }
    }
  }

  lemma GapsOfFront(cs: seq<Candle>, n: nat)
    requires n <= |cs|
    ensures forall i :: 0 < i < n ==> Gap(cs[..n], i) == Gap(cs, i)
  {}

  const DEFAULT_BIN := 60

  function Clock(cs: seq<Candle>): (s: nat)
    ensures s > 0
  {
    if Step(cs) > 0 then Step(cs) else 60
  }

  predicate Regular(cs: seq<Candle>)
    requires Increasing(cs)
  {
    forall k :: 0 <= k < |cs| ==> cs[k].ts >= cs[0].ts && OnClock(cs[0].ts, Clock(cs), cs[k].ts)
  }

  datatype TapeError = NoCandles | NotIncreasing | Irregular

  datatype TapeResult = Made(tape: Tape) | Refused(error: TapeError)

  function Extended(t: Tape, c: Option<Candle>): Tape {
    match c
    case None =>
      t.(open := t.open + [None], high := t.high + [None], low := t.low + [None], close := t.close + [None],
         volume := t.volume + [0.0])
    case Some(c) => t.(open := t.open + [Some(c.open)], high := t.high + [Some(c.high)], low := t.low + [Some(c.low)],
                       close := t.close + [Some(c.close)], volume := t.volume + [c.volume])
  }

  lemma {:induction false} PresentSteady(t: Tape, c: Option<Candle>, n: nat)
    requires Columns(t) && n <= Bins(t)
    ensures Columns(Extended(t, c)) && Present(Extended(t, c), n) == Present(t, n)
  {
    if n > 0 { PresentSteady(t, c, n - 1); }
  }

  lemma PresentExtends(t: Tape, c: Option<Candle>)
    requires Columns(t) && (c.Some? ==> c.value.ts == Begin(t.t0, t.binS, Bins(t)))
    ensures Columns(Extended(t, c)) && Bins(Extended(t, c)) == Bins(t) + 1
    ensures Present(Extended(t, c), Bins(t) + 1) == Present(t, Bins(t)) + (if c.Some? then [c.value] else [])
  {
    hide Begin;
    PresentSteady(t, c, Bins(t));
  }

  /** Scans the steps: the least one, or nothing when some step does not increase. */
  method ScanSteps(cs: seq<Candle>) returns (step: Option<nat>)
    requires cs != []
    ensures step.Some? <==> Increasing(cs)
    ensures step.Some? ==> step.value == Step(cs)
  {
    RisingIncreases(cs);
    hide Increasing;
    var binS := 0;
    for i := 1 to |cs|
      invariant forall k :: 0 < k < i ==> Gap(cs, k) > 0
      invariant binS == Step(cs[..i]) >= 0
    {
      var d := Gap(cs, i);
      if d <= 0 { return None; }
      assert cs[..i + 1][..i] == cs[..i] && Gap(cs[..i + 1], i) == d;
      binS := if binS > 0 then (if d < binS then d else binS) else d;
    }
    assert cs[..|cs|] == cs;
    step := Some(binS);
  }

  /** Where the scan of bins stands: `next` candles are placed, the rest begin at or after `bin`. */
  ghost predicate Placed(cs: seq<Candle>, t: Tape, next: nat) {
    && Columns(t) && next <= |cs| && t.binS > 0
    && Present(t, Bins(t)) == cs[..next]
    && (forall k :: 0 <= k < next ==> cs[k].ts >= t.t0 && OnClock(t.t0, t.binS, cs[k].ts))
    && (next < |cs| ==> cs[next].ts >= Begin(t.t0, t.binS, Bins(t)))
  }

  /** A candle not yet due begins at a later bin, or off the clock. */
  lemma NotDue(t0: nat, binS: nat, bin: nat, ts: nat)
    requires binS > 0 && ts >= t0 && ts > Begin(t0, binS, bin) && OnClock(t0, binS, ts)
    ensures ts >= Begin(t0, binS, bin + 1)
  {
    hide Begin, BinOf, OnClock;
    OnClockBegins(t0, binS, ts);
    BeginOrder(t0, binS, bin, BinOf(t0, binS, ts));
    BeginOrder(t0, binS, BinOf(t0, binS, ts), bin + 1);
  }

  /** One bin: rejects a pending candle that is off the clock, otherwise places it if it begins here. */
  method FillBin(cs: seq<Candle>, t: Tape, next: nat) returns (u: Option<Tape>, after: nat)
    requires Increasing(cs) && cs != [] && Placed(cs, t, next) && t.t0 == cs[0].ts && t.binS == Clock(cs)
    ensures u.None? ==> !Regular(cs)
    ensures u.Some? ==>
            Placed(cs, u.value, after) && Bins(u.value) == Bins(t) + 1 && u.value.t0 == t.t0 && u.value.binS == t.binS
  {
    hide Present, OnClock, Begin, Clock, Step;
    var bin := Bins(t);
    var begin := Begin(t.t0, t.binS, bin);
    BeginNext(t.t0, t.binS, bin);
    after := next;
    if next < |cs| {
      assert cs[next].ts >= t.t0;
      if cs[next].ts != begin && !OnClock(t.t0, t.binS, cs[next].ts) { return None, next; }
    }
    if next < |cs| && cs[next].ts == begin {
      BeginIsOnClock(t.t0, t.binS, bin);
      PresentExtends(t, Some(cs[next]));
      u := Some(Extended(t, Some(cs[next])));
      after := next + 1;
      assert cs[..next + 1] == cs[..next] + [cs[next]];
      if after < |cs| { StepBetween(cs, after); }
    } else {
      PresentExtends(t, None);
      u := Some(Extended(t, None));
      if next < |cs| { NotDue(t.t0, t.binS, bin, cs[next].ts); }
    }
  }

  lemma StepBetween(cs: seq<Candle>, k: nat)
    requires Increasing(cs) && 0 < k < |cs|
    ensures Gap(cs, k) >= Clock(cs)
  {
    RisingIncreases(cs);
    StepIsLeast(cs);
  }

  /** Builds the tape of a regular candle list and rejects every other list. */
  method MakeCandleTape(cs: seq<Candle>) returns (r: TapeResult)
    ensures r == Refused(NoCandles) <==> cs == []
    ensures r == Refused(NotIncreasing) <==> cs != [] && !Increasing(cs)
    ensures r == Refused(Irregular) <==> cs != [] && Increasing(cs) && !Regular(cs)
    ensures r.Made? ==> TapeOf(cs, r.tape) && r.tape == TapeFor(cs)
  {
    if cs == [] { return Refused(NoCandles); }
    var step := ScanSteps(cs);
    if step.None? { return Refused(NotIncreasing); }
    var binS := if step.value > 0 then step.value else DEFAULT_BIN;
    var tape := Tape(cs[0].ts, binS, [], [], [], [], []);
    var next := 0;
    var bins := BinOf(tape.t0, binS, cs[|cs| - 1].ts) + 1;
    BeginZero(tape.t0, binS);
    hide Regular, Clock, Begin, TapeFor, BinCandles, CandleAt;
    for bin := 0 to bins
      invariant tape.t0 == cs[0].ts && tape.binS == binS && Bins(tape) == bin && Placed(cs, tape, next)
    {
      var u, after := FillBin(cs, tape, next);
      if u.None? { return Refused(Irregular); }
      tape, next := u.value, after;
    }
    AllPlaced(cs, tape, next);
    TapeIsUnique(cs, tape);
    r := Made(tape);
  }

  lemma AllPlaced(cs: seq<Candle>, t: Tape, next: nat)
    requires cs != [] && Increasing(cs) && t.t0 == cs[0].ts && t.binS == Clock(cs) && Placed(cs, t, next)
    requires Bins(t) == BinOf(t.t0, t.binS, cs[|cs| - 1].ts) + 1
    ensures next == |cs| && Regular(cs) && TapeOf(cs, t)
  {
    hide Present, BinOf, OnClock, Begin, Clock, Step;
    OnClockBegins(t.t0, t.binS, cs[|cs| - 1].ts);
    assert cs[..|cs|] == cs;
  }

  /** The tape of a candle list: its clock, its extent, and the candles themselves when its nonempty bins are
      read back in order. */
  predicate TapeOf(cs: seq<Candle>, t: Tape) {
    && cs != [] && Increasing(cs) && Columns(t) && t.t0 == cs[0].ts && t.binS == Clock(cs)
    && Bins(t) == BinOf(t.t0, t.binS, cs[|cs| - 1].ts) + 1
    && Present(t, Bins(t)) == cs
  }

  lemma {:induction false} PresentFrom(t: Tape, n: nat, c: Candle) returns (b: nat)
    requires Columns(t) && n <= Bins(t) && c in Present(t, n)
    ensures b < n && At(t, b) == Some(c)
  {
    if At(t, n - 1) == Some(c) { b := n - 1; } else { b := PresentFrom(t, n - 1, c); }
  }

  /** Every candle of the list is in the bin of its timestamp, and in no other. */
  lemma EachInOneBin(cs: seq<Candle>, t: Tape, k: nat)
    requires TapeOf(cs, t) && k < |cs|
    ensures cs[k].ts >= t.t0 && BinOf(t.t0, t.binS, cs[k].ts) < Bins(t)
    ensures forall b :: 0 <= b < Bins(t) ==> (At(t, b) == Some(cs[k]) <==> b == BinOf(t.t0, t.binS, cs[k].ts))
  {
    hide Present, Begin, BinOf, Step;
    var b := PresentFrom(t, Bins(t), cs[k]);
    BeginIsOnClock(t.t0, t.binS, b);
    assert cs[k].ts >= t.t0;
    forall a | 0 <= a < Bins(t) && At(t, a) == Some(cs[k]) ensures a == b { BeginIsOnClock(t.t0, t.binS, a); }
  }

  lemma {:induction false} PresentHas(t: Tape, n: nat, b: nat)
    requires Columns(t) && b < n <= Bins(t) && At(t, b).Some?
    ensures At(t, b).value in Present(t, n)
  {
    if b < n - 1 { PresentHas(t, n - 1, b); }
  }

  lemma {:induction false} PresentPrefix(t: Tape, m: nat, n: nat)
    requires Columns(t) && m <= n <= Bins(t)
    ensures Present(t, m) <= Present(t, n)
  {
    if m < n { PresentPrefix(t, m, n - 1); }
  }

  lemma PresentOrNot(cs: seq<Candle>, t: Tape, n: nat, k: nat)
    requires TapeOf(cs, t) && n <= Bins(t) && k < |cs|
    ensures cs[k] in Present(t, n) <==> cs[k].ts < Begin(t.t0, t.binS, n)
  {
    hide Present, Begin, BinOf, Step, Clock;
    EachInOneBin(cs, t, k);
    var b := BinOf(t.t0, t.binS, cs[k].ts);
    BeginOrder(t.t0, t.binS, b, n);
    assert At(t, b) == Some(cs[k]);
    if b < n { PresentHas(t, n, b); }
    if cs[k] in Present(t, n) { var a := PresentFrom(t, n, cs[k]); }
  }

  /** The first `n` bins hold exactly the candles before the end of bin `n - 1`. */
  lemma PresentIsPast(cs: seq<Candle>, t: Tape, n: nat)
    requires TapeOf(cs, t) && n <= Bins(t)
    ensures |Present(t, n)| <= |cs| && Present(t, n) == cs[..|Present(t, n)|]
    ensures forall k :: 0 <= k < |cs| ==> (k < |Present(t, n)| <==> cs[k].ts < Begin(t.t0, t.binS, n))
  {
    PresentPrefix(t, n, Bins(t));
    hide Present, Begin, BinOf, Clock;
    var past := Present(t, n);
    forall k | 0 <= k < |cs| ensures k < |past| <==> cs[k].ts < Begin(t.t0, t.binS, n) {
      PresentOrNot(cs, t, n, k);
      if cs[k] in past { var j :| 0 <= j < |past| && past[j] == cs[k]; assert cs[j] == cs[k]; }
    }
  }

  // ---------------------------------------------------------------------------------------------
  // The tape as a function of the list

  /** The candle that begins at `ts`, if any. */
  function CandleAt(cs: seq<Candle>, ts: nat): Option<Candle> {
    if cs == [] then None
    else if cs[|cs| - 1].ts == ts then Some(cs[|cs| - 1]) else CandleAt(cs[..|cs| - 1], ts)
  }

  lemma {:induction false} CandleAtFinds(cs: seq<Candle>, ts: nat)
    requires Increasing(cs)
    ensures forall k :: 0 <= k < |cs| && cs[k].ts == ts ==> CandleAt(cs, ts) == Some(cs[k])
    ensures CandleAt(cs, ts).Some? ==> CandleAt(cs, ts).value in cs && CandleAt(cs, ts).value.ts == ts
  {
    if cs != [] && cs[|cs| - 1].ts != ts {
      CandleAtFinds(cs[..|cs| - 1], ts);
    }
  }

  function Opened(c: Option<Candle>): Option<real> { if c.Some? then Some(c.value.open) else None }
  function Highest(c: Option<Candle>): Option<real> { if c.Some? then Some(c.value.high) else None }
  function Lowest(c: Option<Candle>): Option<real> { if c.Some? then Some(c.value.low) else None }
  function Closed(c: Option<Candle>): Option<real> { if c.Some? then Some(c.value.close) else None }
  function Traded(c: Option<Candle>): real { if c.Some? then c.value.volume else 0.0 }

  /** The candle of each bin of the list's clock. */
  function BinCandles(cs: seq<Candle>): (bins: seq<Option<Candle>>)
    requires cs != [] && Increasing(cs)
    ensures |bins| == BinOf(cs[0].ts, Clock(cs), cs[|cs| - 1].ts) + 1
    ensures forall b :: 0 <= b < |bins| ==> bins[b] == CandleAt(cs, Begin(cs[0].ts, Clock(cs), b))
  {
    seq(BinOf(cs[0].ts, Clock(cs), cs[|cs| - 1].ts) + 1,
        b requires 0 <= b => CandleAt(cs, Begin(cs[0].ts, Clock(cs), b)))
  }

  /** The tape of a list. */
  function TapeFor(cs: seq<Candle>): Tape
    requires cs != [] && Increasing(cs)
  {
    var bins := BinCandles(cs);
    var n := |bins|;
    Tape(cs[0].ts, Clock(cs),
         seq(n, b requires 0 <= b < n => Opened(bins[b])), seq(n, b requires 0 <= b < n => Highest(bins[b])),
         seq(n, b requires 0 <= b < n => Lowest(bins[b])), seq(n, b requires 0 <= b < n => Closed(bins[b])),
         seq(n, b requires 0 <= b < n => Traded(bins[b])))
  }

  lemma BinsAreCandles(cs: seq<Candle>, t: Tape, b: nat)
    requires TapeOf(cs, t) && b < Bins(t)
    ensures At(t, b) == CandleAt(cs, Begin(t.t0, t.binS, b))
  {
    hide Present, Begin, BinOf, Step, Clock, CandleAt;
    CandleAtFinds(cs, Begin(t.t0, t.binS, b));
    if At(t, b).Some? {
      PresentHas(t, Bins(t), b);
      var k :| 0 <= k < |cs| && cs[k] == At(t, b).value;
    } else if CandleAt(cs, Begin(t.t0, t.binS, b)).Some? {
      var k :| 0 <= k < |cs| && cs[k] == CandleAt(cs, Begin(t.t0, t.binS, b)).value;
      EachInOneBin(cs, t, k);
      BeginIsOnClock(t.t0, t.binS, b);
    }
  }

  /** A list has only one tape. */
  lemma TapeIsUnique(cs: seq<Candle>, t: Tape)
    requires TapeOf(cs, t)
    ensures t == TapeFor(cs)
  {
    hide Present, Begin, BinOf, Step, CandleAt, Clock;
    var bins := BinCandles(cs);
    forall b | 0 <= b < Bins(t)
      ensures t.open[b] == Opened(bins[b]) && t.high[b] == Highest(bins[b]) && t.low[b] == Lowest(bins[b])
      ensures t.close[b] == Closed(bins[b]) && t.volume[b] == Traded(bins[b])
    {
      BinsAreCandles(cs, t, b);
    }
    var u := TapeFor(cs);
    assert t.open == u.open && t.high == u.high && t.low == u.low && t.close == u.close && t.volume == u.volume;
  }
}
