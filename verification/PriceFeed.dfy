/** Joining a price feed onto events: each event gets the latest feed point at or before it. */
module PriceFeed {
  import RW = ReportWindow
  import opened CandleEvents

  datatype FeedError = EmptyFeed | NoValueYet

  datatype Joined = Attached | Failed(error: FeedError)

  /** An event with the latest point at or before it. */
  function Fed(points: seq<RW.Report>, e: Event): Event
    requires RW.Published(points, e.ts as real) > 0
  {
    var p := points[RW.Published(points, e.ts as real) - 1];
    e.(feed := p.price, feedTs := p.ts)
  }

  /** The scan stands past event `k`'s time: no point is that early, or an earlier event in the list has already
      taken a point later than event `k`. */
  ghost predicate Stuck(points: seq<RW.Report>, events: seq<Event>, k: nat)
    requires k < |events|
  {
    RW.Published(points, events[k].ts as real) == 0 || Overtaken(points, events, k)
  }

  ghost predicate Overtaken(points: seq<RW.Report>, events: seq<Event>, k: nat)
    requires k < |events|
  {
    exists j :: 0 <= j < k && RW.Published(points, events[j].ts as real) > RW.Published(points, events[k].ts as real)
  }

  /** Out of time order: each of two events has a point at or before it, and yet the second one finds the scan past its
      time, because the first took the later point. */
  lemma LaterEventFirstFails() returns (points: seq<RW.Report>, events: seq<Event>)
    ensures RW.Sorted(points) && |events| == 2
    ensures forall k :: 0 <= k < |events| ==> RW.Published(points, events[k].ts as real) > 0
    ensures !Stuck(points, events, 0) && Overtaken(points, events, 1) && Stuck(points, events, 1)
  {
    points := [RW.Report(5.0, 1.0), RW.Report(6.0, 3.0)];
    events := [Event(4, 1.0, 0.0, 0.0, 0.0, 0), Event(2, 1.0, 0.0, 0.0, 0.0, 1)];
    RW.PublishedIs(points, 4.0, 2);
    RW.PublishedIs(points, 2.0, 1);
    assert RW.Published(points, events[0].ts as real) == 2 && RW.Published(points, events[1].ts as real) == 1;
  }

  /** For events in time order the scan is stuck exactly when the first event precedes the feed. */
  lemma OrderedStuck(points: seq<RW.Report>, events: seq<Event>)
    requires RW.Sorted(points) && points != []
    requires forall i, j :: 0 <= i < j < |events| ==> events[i].ts <= events[j].ts
    ensures (exists k :: 0 <= k < |events| && Stuck(points, events, k)) <==>
            events != [] && points[0].ts > events[0].ts as real
  {
    if events != [] {
      RW.PublishedSplits(points, events[0].ts as real);
      forall j, k | 0 <= j <= k < |events|
        ensures RW.Published(points, events[j].ts as real) <= RW.Published(points, events[k].ts as real)
      {
        PublishedGrows(points, events[j].ts as real, events[k].ts as real);
      }
      if points[0].ts > events[0].ts as real { assert Stuck(points, events, 0); }
    }
  }

  lemma PublishedGrows(points: seq<RW.Report>, a: real, b: real)
    requires RW.Sorted(points) && a <= b
    ensures RW.Published(points, a) <= RW.Published(points, b)
  {
    RW.PublishedSplits(points, a);
    RW.PublishedSplits(points, b);
    var n := RW.Published(points, a);
    if n > 0 { assert points[n - 1].ts <= a; }
  }

  /** Moves the point index forward to the latest point at or before `ts`; it never moves back. */
  method Advance(points: seq<RW.Report>, from: nat, ts: real) returns (idx: nat)
    requires RW.Sorted(points) && from < |points|
    ensures idx < |points| && idx + 1 == if RW.Published(points, ts) > from then RW.Published(points, ts) else from + 1
    ensures points[idx].ts <= ts <==> RW.Published(points, ts) == idx + 1
  {
    RW.PublishedSplits(points, ts);
    idx := from;
    while idx + 1 < |points| && points[idx + 1].ts <= ts
      invariant from <= idx < |points| && (idx == from || idx < RW.Published(points, ts))
    {
      idx := idx + 1;
    }
  }

  /** After the first `k` events the scan stands at point `idx`: the furthest one of them needed, or the first. */
  ghost predicate Reached(points: seq<RW.Report>, events: seq<Event>, k: nat, idx: nat)
    requires k <= |events|
  {
    && (forall m :: 0 <= m < k ==> RW.Published(points, events[m].ts as real) <= idx + 1)
    && (idx > 0 ==> exists m :: 0 <= m < k && RW.Published(points, events[m].ts as real) == idx + 1)
  }

  /** One more event: the scan moves on if it must, and is stuck exactly when it stands past the event. */
  lemma ReachedNext(points: seq<RW.Report>, events: seq<Event>, k: nat, from: nat, idx: nat)
    requires k < |events| && Reached(points, events, k, from)
    requires var n := RW.Published(points, events[k].ts as real); idx + 1 == if n > from then n else from + 1
    ensures Reached(points, events, k + 1, idx)
    ensures Stuck(points, events, k) <==> RW.Published(points, events[k].ts as real) != idx + 1
  {
    hide RW.Published;
  }

  /** Two pointers move through events and points together. */
  method AttachPriceFeed(events: array<Event>, points: seq<RW.Report>) returns (r: Joined)
    requires RW.Sorted(points)
    modifies events
    ensures r == Failed(EmptyFeed) <==> points == []
    ensures r == Failed(NoValueYet) <==>
            points != [] && exists k :: 0 <= k < events.Length && Stuck(points, old(events[..]), k)
    ensures r.Attached? ==> forall k :: 0 <= k < events.Length ==>
              RW.Published(points, old(events[k].ts) as real) > 0 && events[k] == Fed(points, old(events[k]))
  {
    if points == [] { return Failed(EmptyFeed); }
    hide RW.Sorted, RW.Published, Stuck, Reached;
    var idx := 0;
    ghost var before := events[..];
    for k := 0 to events.Length
      invariant 0 <= idx < |points| && (k == 0 ==> idx == 0) && Reached(points, before, k, idx)
      invariant forall m :: 0 <= m < k ==> !Stuck(points, before, m)
      invariant forall m :: 0 <= m < k ==>
                RW.Published(points, before[m].ts as real) > 0 && events[m] == Fed(points, before[m])
      invariant forall m :: k <= m < events.Length ==> events[m] == before[m]
    {
      var from := idx;
      idx := Advance(points, idx, events[k].ts as real);
      ReachedNext(points, before, k, from, idx);
      if points[idx].ts > events[k].ts as real { return Failed(NoValueYet); }
      events[k] := events[k].(feed := points[idx].price, feedTs := points[idx].ts);
    }
    r := Attached;
  }
}
