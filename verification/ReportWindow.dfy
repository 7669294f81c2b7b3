/** The immutable report tape and the reports that an event may offer. */
module ReportWindow {
  import opened Algebra
  import opened Wrappers

  datatype Report = Report(price: real, ts: real)

  predicate Sorted(tape: seq<Report>) {
    forall i, j :: 0 <= i < j < |tape| ==> tape[i].ts <= tape[j].ts
  }

  /** Number of reports published at or before `now`: the upper bound of a sorted tape. */
  function Published(tape: seq<Report>, now: real): (n: nat)
    ensures n <= |tape|
  {
    if tape == [] then 0
    else if tape[|tape| - 1].ts <= now then |tape|
    else Published(tape[..|tape| - 1], now)
  }

  lemma {:induction false} PublishedSplits(tape: seq<Report>, now: real)
    requires Sorted(tape)
    ensures forall i :: 0 <= i < |tape| ==> (i < Published(tape, now) <==> tape[i].ts <= now)
  {
    if tape != [] && !(tape[|tape| - 1].ts <= now) {
      var shorter := tape[..|tape| - 1];
      PublishedSplits(shorter, now);
      forall i | 0 <= i < |tape| ensures i < Published(tape, now) <==> tape[i].ts <= now {
        if i < |tape| - 1 { assert shorter[i] == tape[i]; }
      }
    }
  }

  /** The split point is the only one. */
  lemma {:induction false} PublishedIs(tape: seq<Report>, now: real, n: nat)
    requires n <= |tape|
    requires forall i :: 0 <= i < n ==> tape[i].ts <= now
    requires forall i :: n <= i < |tape| ==> tape[i].ts > now
    ensures Published(tape, now) == n
  {
    if n < |tape| { PublishedIs(tape[..|tape| - 1], now, n); }
  }

  /** `std::upper_bound` on the report times. */
  method UpperBound(tape: seq<Report>, now: real) returns (n: nat)
    requires Sorted(tape)
    ensures n == Published(tape, now)
  {
    var lo, hi := 0, |tape|;
    while lo < hi
      invariant 0 <= lo <= hi <= |tape|
      invariant forall i :: 0 <= i < lo ==> tape[i].ts <= now
      invariant forall i :: hi <= i < |tape| ==> tape[i].ts > now
    {
      var mid := (lo + hi) / 2;
      if tape[mid].ts <= now { lo := mid + 1; } else { hi := mid; }
    }
    PublishedIs(tape, now, lo);
    n := lo;
  }

  /** `std::lower_bound` on the first `last` report times. */
  method LowerBound(tape: seq<Report>, last: nat, bound: real) returns (n: nat)
    requires Sorted(tape) && last <= |tape|
    ensures n <= last
    ensures forall i :: 0 <= i < n ==> tape[i].ts < bound
    ensures forall i :: n <= i < last ==> tape[i].ts >= bound
  {
    var lo, hi := 0, last;
    while lo < hi
      invariant 0 <= lo <= hi <= last
      invariant forall i :: 0 <= i < lo ==> tape[i].ts < bound
      invariant forall i :: hi <= i < last ==> tape[i].ts >= bound
    {
      var mid := (lo + hi) / 2;
      if tape[mid].ts < bound { lo := mid + 1; } else { hi := mid; }
    }
    n := lo;
  }

  // ---------------------------------------------------------------------------------------------
  // Precomputed upper bounds

  const WORD := 0x1_0000_0000

  /** Fills the per-event upper bounds; each is stored in 32 bits. */
  method IndexReportEvents(eventTs: seq<nat>, tape: seq<Report>) returns (upper: seq<nat>)
    requires Sorted(tape)
    ensures |upper| == |eventTs|
    ensures forall k :: 0 <= k < |eventTs| ==> upper[k] == Published(tape, eventTs[k] as real) % WORD
  {
    upper := [];
    for k := 0 to |eventTs|
      invariant |upper| == k
      invariant forall m :: 0 <= m < k ==> upper[m] == Published(tape, eventTs[m] as real) % WORD
    {
      var n := UpperBound(tape, eventTs[k] as real);
      upper := upper + [n % WORD];
    }
  }

  /** Whether every bound stored for a tape is the one a search finds. */
  ghost predicate BoundsFit(tape: seq<Report>) {
    forall now: real :: Published(tape, now) % WORD == Published(tape, now)
  }

  /** The cast to 32 bits is harmless, at every time, exactly for tapes of fewer than 2^32 reports. */
  lemma StoredBoundIsSearch(tape: seq<Report>)
    requires Sorted(tape)
    ensures BoundsFit(tape) <==> |tape| < WORD
  {
    if |tape| >= WORD {
      var last := tape[|tape| - 1].ts;
      PublishedSplits(tape, last);
      assert Published(tape, last) == |tape|;
    }
  }

  /** On the shortest tape that is too long, all of it published at once, the stored bound hides every report. */
  lemma LongTapeHidesReports() returns (tape: seq<Report>)
    ensures Sorted(tape) && |tape| == WORD
    ensures Published(tape, 0.0) == WORD && Published(tape, 0.0) % WORD == 0
  {
    tape := seq(WORD, _ => Report(1.0, 0.0));
    PublishedIs(tape, 0.0, WORD);
  }

  // ---------------------------------------------------------------------------------------------
  // Windows

  /** How a run selects reports: a fixed offset, a draw from the last `randomCount`, or a window. */
  datatype Selection = Selection(offset: Option<nat>, randomCount: nat, count: nat, maxAge: real)

  predicate Searches(sel: Selection) {
    sel.offset.Some? || sel.count > 0 || sel.maxAge > 0.0 || sel.randomCount > 0
  }

  /** Index of the first report of the window whose upper bound is `last`. */
  function WindowStart(tape: seq<Report>, last: nat, now: real, sel: Selection): (first: nat)
    requires last <= |tape|
    ensures first <= last
  {
    if sel.count > 0 then (if sel.count <= last then last - sel.count else 0)
    else FirstAtLeast(tape[..last], now - sel.maxAge)
  }

  function FirstAtLeast(tape: seq<Report>, bound: real): (n: nat)
    ensures n <= |tape|
  {
    if tape == [] || tape[0].ts >= bound then 0 else 1 + FirstAtLeast(tape[1..], bound)
  }

  lemma {:induction false} FirstAtLeastSplits(tape: seq<Report>, bound: real)
    requires Sorted(tape)
    ensures forall i :: 0 <= i < |tape| ==> (i < FirstAtLeast(tape, bound) <==> tape[i].ts < bound)
  {
    if tape != [] && tape[0].ts < bound {
      FirstAtLeastSplits(tape[1..], bound);
      forall i | 0 <= i < |tape| ensures i < FirstAtLeast(tape, bound) <==> tape[i].ts < bound {
        if i > 0 { assert tape[1..][i - 1] == tape[i]; }
      }
    }
  }

  /** The split point is the only one. */
  lemma {:induction false} FirstAtLeastIs(tape: seq<Report>, bound: real, n: nat)
    requires n <= |tape|
    requires forall i :: 0 <= i < n ==> tape[i].ts < bound
    requires forall i :: n <= i < |tape| ==> tape[i].ts >= bound
    ensures FirstAtLeast(tape, bound) == n
  {
    if n > 0 { FirstAtLeastIs(tape[1..], bound, n - 1); }
  }

  function One(tape: seq<Report>, available: nat, offset: nat): seq<Report>
    requires available <= |tape|
  {
    if offset >= available then [] else [tape[available - 1 - offset]]
  }

  /** The reports an event at `now` offers, in the order they are visited. */
  function Offered(tape: seq<Report>, sel: Selection, now: real, draw: nat): seq<Report> {
    var available := Published(tape, now);
    match sel.offset
    case Some(offset) => One(tape, available, offset)
    case None =>
      if sel.randomCount > 0 then
        var choices := if sel.randomCount <= available then sel.randomCount else available;
        if choices == 0 then [] else One(tape, available, draw % choices)
      else tape[WindowStart(tape, available, now, sel)..available]
  }

  /** A window offers exactly the admitted reports: published, and among the last `count`, or no older than
      `maxAge`. Nothing in the future is offered under any selection. */
  lemma WindowIsExact(tape: seq<Report>, sel: Selection, now: real, draw: nat)
    requires Sorted(tape) && sel.offset.None? && sel.randomCount == 0
    ensures
      var n, first := Published(tape, now), WindowStart(tape, Published(tape, now), now, sel);
      && Offered(tape, sel, now, draw) == tape[first..n]
      && forall i :: 0 <= i < |tape| ==>
           (first <= i < n <==>
              tape[i].ts <= now && (if sel.count > 0 then n - i <= sel.count else now - tape[i].ts <= sel.maxAge))
  {
    PublishedSplits(tape, now);
    var n := Published(tape, now);
    if sel.count == 0 {
      FirstAtLeastSplits(tape[..n], now - sel.maxAge);
      forall i | 0 <= i < n ensures tape[..n][i] == tape[i] {}
    }
  }

  /** Of the first `n` reports exactly `offset` follow the one offered; none is offered when there are no more. */
  ghost predicate Picks(tape: seq<Report>, n: nat, offset: nat, offers: seq<Report>)
    requires n <= |tape|
  {
    if n <= offset then offers == []
    else |offers| == 1 && exists i :: 0 <= i < n && |tape[i + 1..n]| == offset && offers[0] == tape[i]
  }

  /** A draw offers one of the last `randomCount` published reports, or of all of them when there are fewer; every one
      of these is offered by some draw, and the draws take turns. */
  lemma DrawsTakeTurns(tape: seq<Report>, sel: Selection, now: real, i: nat)
    requires sel.offset.None? && sel.randomCount > 0 && i < Published(tape, now) <= i + sel.randomCount
    ensures exists draw: nat :: Offered(tape, sel, now, draw) == [tape[i]]
    ensures
      var choices := if sel.randomCount <= Published(tape, now) then sel.randomCount else Published(tape, now);
      && (forall draw: nat :: Offered(tape, sel, now, draw + choices) == Offered(tape, sel, now, draw))
      && (forall draw: nat :: draw < choices ==> Picks(tape, Published(tape, now), draw, Offered(tape, sel, now, draw)))
  {
    var n := Published(tape, now);
    var choices := if sel.randomCount <= n then sel.randomCount else n;
    Remainder(n - 1 - i, choices, 0, n - 1 - i);
    assert Offered(tape, sel, now, n - 1 - i) == [tape[i]];
    forall draw: nat ensures (draw + choices) % choices == draw % choices { OneTurn(draw, choices); }
    forall draw: nat | draw < choices ensures Picks(tape, n, draw, Offered(tape, sel, now, draw)) {
      Remainder(draw, choices, 0, draw);
      OnePicks(tape, n, draw);
    }
  }

  lemma OnePicks(tape: seq<Report>, n: nat, offset: nat)
    requires n <= |tape|
    ensures Picks(tape, n, offset, One(tape, n, offset))
  {
    if offset < n {
      var i := n - 1 - offset;
      assert |tape[i + 1..n]| == offset && One(tape, n, offset) == [tape[i]];
    }
  }

  lemma OneTurn(draw: nat, choices: nat)
    requires choices > 0
    ensures (draw + choices) % choices == draw % choices
  {
    var q := draw / choices;
    assert draw == Turns(q, choices) + draw % choices;
    assert Turns(q + 1, choices) == Turns(q, choices) + choices;
    Remainder(draw + choices, choices, q + 1, draw % choices);
  }

  function Turns(q: nat, choices: nat): nat { q * choices }

  lemma Remainder(x: nat, choices: nat, q: nat, r: nat)
    requires r < choices && x == Turns(q, choices) + r
    ensures x % choices == r
  {
    var d := x / choices;
    assert x == Turns(d, choices) + x % choices;
    if d < q { Scale(d + 1, q, choices); assert false; }
    if d > q { Scale(q + 1, d, choices); assert false; }
  }

  lemma OffersArePublished(tape: seq<Report>, sel: Selection, now: real, draw: nat)
    requires Sorted(tape)
    ensures forall k :: 0 <= k < |Offered(tape, sel, now, draw)| ==>
              Offered(tape, sel, now, draw)[k] in tape && Offered(tape, sel, now, draw)[k].ts <= now
    ensures sel.offset.Some? || sel.randomCount > 0 ==> |Offered(tape, sel, now, draw)| <= 1
    ensures forall offset: nat :: sel.offset == Some(offset) ==>
              Picks(tape, Published(tape, now), offset, Offered(tape, sel, now, draw))
    ensures sel.offset.None? && sel.randomCount > 0 && Published(tape, now) > 0 ==>
              |Offered(tape, sel, now, draw)| == 1 &&
              exists i :: Published(tape, now) - sel.randomCount <= i < Published(tape, now) && 0 <= i &&
                          Offered(tape, sel, now, draw)[0] == tape[i]
  {
    PublishedSplits(tape, now);
    var n := Published(tape, now);
    if sel.offset.Some? { OnePicks(tape, n, sel.offset.value); }
    hide Picks;
    if sel.offset.None? && sel.randomCount > 0 && n > 0 {
      var choices := if sel.randomCount <= n then sel.randomCount else n;
      assert 0 <= draw % choices < choices;
      assert Offered(tape, sel, now, draw) == [tape[n - 1 - draw % choices]];
    }
  }

  /** The window over one tape. `visit` is the list of reports handed to the caller, in order. */
  class Window {
    const tape: seq<Report>
    const upper: seq<nat>
    const sel: Selection

    ghost predicate Valid() {
      && Sorted(tape) && |tape| < WORD
    }

    constructor (tape: seq<Report>, upper: seq<nat>, sel: Selection)
      requires Sorted(tape) && |tape| < WORD
      ensures Valid() && this.tape == tape && this.upper == upper && this.sel == sel
    {
      this.tape, this.upper, this.sel := tape, upper, sel;
    }

    /** Whether the stored bound of `event`, when there is one, belongs to `now`. */
    ghost predicate Matches(now: real, event: nat) {
      event < |upper| ==> upper[event] == Published(tape, now) % WORD
    }

    method Upper(now: real, event: nat) returns (n: nat)
      requires Valid() && Matches(now, event)
      ensures n == Published(tape, now)
    {
      StoredBoundIsSearch(tape);
      assert Published(tape, now) % WORD == Published(tape, now);
      if event < |upper| { n := upper[event]; } else { n := UpperBound(tape, now); }
    }

    method Each(now: real, event: nat) returns (visit: seq<Report>)
      requires Valid() && Matches(now, event) && sel.offset.None? && sel.randomCount == 0
      ensures forall draw: nat :: visit == Offered(tape, sel, now, draw)
    {
      var last := Upper(now, event);
      var first;
      if sel.count > 0 {
        first := last - (if sel.count <= last then sel.count else last);
      } else {
        first := LowerBound(tape, last, now - sel.maxAge);
        FirstAtLeastIs(tape[..last], now - sel.maxAge, first);
      }
      visit := [];
      for it := first to last
        invariant visit == tape[first..it]
      {
        visit := visit + [tape[it]];
      }
    }

    method AtOffset(now: real, offset: nat, event: nat) returns (visit: seq<Report>)
      requires Valid() && Matches(now, event) && sel.offset == Some(offset)
      ensures forall draw: nat :: visit == Offered(tape, sel, now, draw)
    {
      var available := Upper(now, event);
      if offset >= available { return []; }
      visit := [tape[available - 1 - offset]];
    }

    method SampleLast(now: real, draw: nat, event: nat) returns (visit: seq<Report>)
      requires Valid() && Matches(now, event) && sel.offset.None? && sel.randomCount > 0
      ensures visit == Offered(tape, sel, now, draw)
    {
      var available := Upper(now, event);
      var choices := if sel.randomCount <= available then sel.randomCount else available;
      if choices == 0 { return []; }
      var offset := draw % choices;
      visit := [tape[available - 1 - offset]];
    }
  }
}
