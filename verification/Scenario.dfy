/** From candles and a price feed to the tape a run starts from. */
module Scenario {
  import opened Wrappers
  import RW = ReportWindow
  import CT = CandleTapes
  import CE = CandleEvents
  import PriceFeed
  import EventLoop
  import Scalar
  import LoopFacts

  /** What every candidate of a session shares. */
  datatype Session = Session(
    events: seq<Scalar.Event>, havePriceFeed: bool, candles: seq<CT.Candle>, reports: seq<RW.Report>, upper: seq<nat>)

  datatype Failure =
    | BadCandles(tapeError: CT.TapeError)
    | BadEvents(genError: CE.GenError)
    | NoEvents
    | BadFeed(feedError: PriceFeed.FeedError)
    | TooManyReports

  datatype Built = Built(session: Session) | Failed(failure: Failure)

  function Streamed(e: CE.Event): Scalar.Event { Scalar.Event(e.ts, e.price, e.feed, e.feedTs) }

  /** What the event loop and the report window ask of a session. */
  ghost predicate Ready(s: Session) {
    && s.events != [] && LoopFacts.TapeOrdered(s.events)
    && (forall k :: 0 <= k < |s.events| ==> s.events[k].price > 0.0)
    && RW.Sorted(s.reports) && |s.reports| < RW.WORD
    && (if s.reports == [] then s.upper == [] else
          |s.upper| == |s.events| &&
          forall k :: 0 <= k < |s.events| ==> s.upper[k] == RW.Published(s.reports, s.events[k].ts as real))
  }

  /** Each event carries the latest feed point at or before it. */
  ghost predicate Joined(s: Session) {
    forall k :: 0 <= k < |s.events| ==>
      var n := RW.Published(s.reports, s.events[k].ts as real);
      n > 0 && s.events[k].feed == s.reports[n - 1].price && s.events[k].feedTs == s.reports[n - 1].ts
  }

  /** Copies events into the stream's columns; the feed columns exist only when some feed price is not zero. */
  method FromEvents(es: seq<CE.Event>) returns (stream: seq<Scalar.Event>, anyFeed: bool)
    ensures |stream| == |es| && forall k :: 0 <= k < |es| ==> stream[k] == Streamed(es[k])
    ensures anyFeed <==> exists k :: 0 <= k < |es| && es[k].feed != 0.0
  {
    stream, anyFeed := [], false;
    for k := 0 to |es|
      invariant |stream| == k && forall j :: 0 <= j < k ==> stream[j] == Streamed(es[j])
      invariant anyFeed <==> exists j :: 0 <= j < k && es[j].feed != 0.0
    {
      anyFeed := anyFeed || es[k].feed != 0.0;
      stream := stream + [Streamed(es[k])];
    }
  }

  // ---------------------------------------------------------------------------------------------
  // What stands in the way

  /** Bins of the list's tape that emit an event. */
  ghost function Emitting(cs: seq<CT.Candle>, w: CE.Window, ranges: seq<CE.Excluded>): seq<nat>
    requires cs != [] && CT.Increasing(cs)
  {
    CE.Emitting(CT.TapeFor(cs), ranges, w, CT.Bins(CT.TapeFor(cs)))
  }

  /** End of the first emitting bin. */
  ghost function FirstEvent(cs: seq<CT.Candle>, w: CE.Window, ranges: seq<CE.Excluded>): nat
    requires cs != [] && CT.Increasing(cs) && Emitting(cs, w, ranges) != []
  {
    CT.Begin(cs[0].ts, CT.Clock(cs), Emitting(cs, w, ranges)[0] + 1)
  }

  /** What keeps a candle list from giving events, in the order it is noticed. */
  ghost function EventObstacle(cs: seq<CT.Candle>, w: CE.Window, ranges: seq<CE.Excluded>): Option<Failure> {
    if cs == [] then Some(BadCandles(CT.NoCandles))
    else if !CT.Increasing(cs) then Some(BadCandles(CT.NotIncreasing))
    else if !CT.Regular(cs) then Some(BadCandles(CT.Irregular))
    else if !CE.Ordered(ranges) then Some(BadEvents(CE.BadRanges))
    else if !CE.IndicesFit(0, |Emitting(cs, w, ranges)|) then Some(BadEvents(CE.TooManyCandles))
    else if Emitting(cs, w, ranges) == [] then Some(NoEvents)
    else None
  }

  /** What keeps a session from being built; None when nothing does. */
  ghost function Obstacle(cs: seq<CT.Candle>, w: CE.Window, ranges: seq<CE.Excluded>,
                          feed: seq<RW.Report>): Option<Failure> {
    if EventObstacle(cs, w, ranges).Some? then EventObstacle(cs, w, ranges)
    else if feed != [] && feed[0].ts > FirstEvent(cs, w, ranges) as real then Some(BadFeed(PriceFeed.NoValueYet))
    else if |feed| >= RW.WORD then Some(TooManyReports)
    else None
  }

  predicate Strict(es: seq<CE.Event>) { forall i, j :: 0 <= i < j < |es| ==> es[i].ts < es[j].ts }

  // ---------------------------------------------------------------------------------------------
  // Building

  /** Attaches a nonempty feed to a copy of events in time order: it fails exactly when the first event precedes
      the feed. */
  method Attach(es: seq<CE.Event>, feed: seq<RW.Report>) returns (failure: Option<Failure>, out: seq<CE.Event>)
    requires RW.Sorted(feed) && feed != [] && es != [] && Strict(es)
    ensures failure == if feed[0].ts > es[0].ts as real then Some(BadFeed(PriceFeed.NoValueYet)) else None
    ensures failure.None? ==> |out| == |es|
    ensures failure.None? ==> forall k :: 0 <= k < |es| ==>
              RW.Published(feed, es[k].ts as real) > 0 && out[k] == PriceFeed.Fed(feed, es[k])
  {
    hide RW.Sorted, RW.Published, PriceFeed.Stuck;
    var a := new CE.Event[|es|](k requires 0 <= k < |es| => es[k]);
    ghost var before := a[..];
    assert before == es;
    PriceFeed.OrderedStuck(feed, es);
    var joined := PriceFeed.AttachPriceFeed(a, feed);
    if joined.Failed? {
      assert joined.error.EmptyFeed? || joined.error.NoValueYet?;
      return Some(BadFeed(joined.error)), [];
    }
    return None, a[..];
  }

  /** Events of a candle list, in strict time order and at positive prices, with their trace candles. */
  method MakeEvents(cs: seq<CT.Candle>, w: CE.Window, ranges: seq<CE.Excluded>)
      returns (failure: Option<Failure>, es: seq<CE.Event>, candles: seq<CT.Candle>)
    ensures failure == EventObstacle(cs, w, ranges)
    ensures failure.None? ==> es != [] && |candles| == |es| && Strict(es) && es[0].ts == FirstEvent(cs, w, ranges)
    ensures failure.None? ==> forall k :: 0 <= k < |es| ==> candles[k].close == es[k].price > 0.0
  {
    hide CE.Emitting, CE.Emits, CE.Ordered, CT.Regular, CT.Increasing, CT.Present, CT.TapeFor, CE.EventFor,
         CE.CandleFor, CT.Begin;
    es, candles := [], [];
    var made := CT.MakeCandleTape(cs);
    if made.Refused? {
      assert made.error.NoCandles? || made.error.NotIncreasing? || made.error.Irregular?;
      return Some(BadCandles(made.error)), [], [];
    }
    var tape := made.tape;
    var generated := CE.GenCandleEvents(tape, [], w, ranges);
    if generated.Rejected? {
      assert generated.error.BadRanges? || generated.error.TooManyCandles?;
      return Some(BadEvents(generated.error)), [], [];
    }
    assert |generated.events| == |Emitting(cs, w, ranges)|;
    if generated.events == [] { return Some(NoEvents), [], []; }
    es, candles := generated.events, generated.candles;
    assert candles[0..] == candles;
    CE.EventsAreOrdered(tape, ranges, w, 0, es, candles);
    CE.EventTime(tape, ranges, w, 0, es, candles, 0);
    return None, es, candles;
  }

  /** Builds a session exactly when nothing stands in the way, and otherwise names the first obstacle. A built
      session satisfies everything the loop asks of its tape. */
  method Build(cs: seq<CT.Candle>, w: CE.Window, ranges: seq<CE.Excluded>, feed: seq<RW.Report>) returns (r: Built)
    requires RW.Sorted(feed)
    ensures r.Built? <==> Obstacle(cs, w, ranges, feed).None?
    ensures r.Failed? ==> Obstacle(cs, w, ranges, feed) == Some(r.failure)
    ensures r.Built? ==> Ready(r.session) && r.session.reports == feed && |r.session.candles| == |r.session.events|
    ensures r.Built? && feed != [] ==> Joined(r.session)
    ensures r.Built? ==>
            (r.session.havePriceFeed <==> exists k :: 0 <= k < |r.session.events| && r.session.events[k].feed != 0.0)
    ensures r.Built? ==> forall k :: 0 <= k < |r.session.events| ==>
            r.session.candles[k].close == r.session.events[k].price
  {
    hide EventObstacle, FirstEvent, RW.Published;
    var failure, es, candles := MakeEvents(cs, w, ranges);
    if failure.Some? { return Failed(failure.value); }
    if feed != [] {
      failure, es := Attach(es, feed);
      if failure.Some? { return Failed(failure.value); }
    }
    var stream, anyFeed := FromEvents(es);
    if feed == [] { return Built(Session(stream, anyFeed, candles, [], [])); }
    if |feed| > RW.WORD - 1 { return Failed(TooManyReports); }
    var upper := RW.IndexReportEvents(seq(|stream|, k requires 0 <= k < |stream| => stream[k].ts), feed);
    RW.StoredBoundIsSearch(feed);
    return Built(Session(stream, anyFeed, candles, feed, upper));
  }

  /** A session's events, reports and stored bounds are all that a run needs of them, from any first event on. */
  lemma SessionSuitsLoop<C(!new), A(!new)>(cfg: Scalar.Config<C, A>, s: Session, first: nat)
    requires Ready(s) && cfg.events == s.events && cfg.tape == s.reports && cfg.stored == s.upper
    requires first < |s.events|
    ensures RW.Sorted(cfg.tape) && EventLoop.Indexed(cfg)
    ensures forall k :: first <= k < |cfg.events| ==> cfg.events[first].ts <= cfg.events[k].ts
  {
    RW.StoredBoundIsSearch(s.reports);
    forall k | 0 <= k < |cfg.stored| && k < |cfg.events|
      ensures cfg.stored[k] == RW.Published(cfg.tape, cfg.events[k].ts as real) % RW.WORD
    {
      assert RW.Published(s.reports, s.events[k].ts as real) % RW.WORD ==
             RW.Published(s.reports, s.events[k].ts as real);
    }
  }
}
