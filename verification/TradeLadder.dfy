/** The ladder of sizes that a search scans: its points, how they are sorted and merged, and what they cover. */
module TradeLadder {
  import opened Algebra

  const MAX_RUNGS := 20
  const SAME := 1.000000001          // ladder points closer than this are one

  predicate Increasing(s: seq<real>) {
    forall i, j :: 0 <= i < j < |s| ==> s[i] <= s[j]
  }

  /** Each point is more than the merging ratio above the one before it. */
  predicate Spaced(s: seq<real>) {
    forall i :: 0 < i < |s| ==> s[i] > s[i - 1] * 1.000000001
  }

  lemma {:induction false} SpacedIsStrict(s: seq<real>, i: nat, j: nat)
    requires Spaced(s) && i < j < |s| && (forall k :: 0 <= k < |s| ==> s[k] > 0.0)
    ensures s[i] < s[j]
    decreases j
  {
    assert s[j] > s[j - 1] * SAME;
    if i < j - 1 { SpacedIsStrict(s, i, j - 1); }
  }

  predicate Within(s: seq<real>, low: real, cap: real) {
    forall k :: 0 <= k < |s| ==> low <= s[k] <= cap
  }

  lemma WithinEach(s: seq<real>, low: real, cap: real)
    requires Within(s, low, cap)
    ensures forall k :: 0 <= k < |s| ==> low <= s[k] <= cap
  {}

  lemma WithinPermutes(s: seq<real>, t: seq<real>, low: real, cap: real)
    requires Within(s, low, cap) && multiset(t) == multiset(s)
    ensures Within(t, low, cap)
  {
    forall k | 0 <= k < |t| ensures low <= t[k] <= cap {
      assert t[k] in multiset(s);
      var q :| 0 <= q < |s| && s[q] == t[k];
    }
  }

  // ---- the points before sorting

  function When(wanted: bool, v: real): seq<real> { if wanted then [v] else [] }

  /** The ends, the seed, the dip, and their factor-3 neighbours inside. */
  function Head(low: real, cap: real, seed: real, dip: real): (s: seq<real>)
    ensures 3 <= |s| <= 8
  {
    [low, cap, seed] + When(seed / 3.0 > low, seed / 3.0) + When(seed * 3.0 < cap, seed * 3.0) + When(dip > 0.0, dip) +
    When(dip > 0.0 && dip / 3.0 > low, dip / 3.0) + When(dip > 0.0 && dip * 3.0 < cap, dip * 3.0)
  }

  /** Factor-9 rungs from `v` down to `low`, while there is room. */
  function Down(v: real, low: real, room: nat): (s: seq<real>)
    ensures |s| <= room
    decreases room
  {
    if room == 0 || !(v > low) then [] else [v] + Down(v / 9.0, low, room - 1)
  }

  /** Factor-9 rungs from `v` up to `cap`, while there is room. */
  function Up(v: real, cap: real, room: nat): (s: seq<real>)
    ensures |s| <= room
    decreases room
  {
    if room == 0 || !(v < cap) then [] else [v] + Up(v * 9.0, cap, room - 1)
  }

  const LOW_RUNGS := 14              // the rungs below the seed stop here

  function Raw(low: real, cap: real, seed: real, dip: real): (s: seq<real>)
    ensures 3 <= |s| <= MAX_RUNGS && Head(low, cap, seed, dip) <= s
  {
    var head := Head(low, cap, seed, dip);
    var lower := head + Down(seed / 9.0, low, 14 - |head|);
    lower + Up(seed * 9.0, cap, 20 - |lower|)
  }

  lemma NextDown(s: seq<real>, v: real, low: real, room: nat)
    requires room > 0 && v > low
    ensures s + Down(v, low, room) == (s + When(true, v)) + Down(v / 9.0, low, room - 1)
  {}

  lemma NoneDown(s: seq<real>, v: real, low: real, room: nat)
    requires room == 0 || !(v > low)
    ensures s + Down(v, low, room) == s
  {}

  lemma NextUp(s: seq<real>, v: real, cap: real, room: nat)
    requires room > 0 && v < cap
    ensures s + Up(v, cap, room) == (s + When(true, v)) + Up(v * 9.0, cap, room - 1)
  {}

  lemma NoneUp(s: seq<real>, v: real, cap: real, room: nat)
    requires room == 0 || !(v < cap)
    ensures s + Up(v, cap, room) == s
  {}

  /** Low end, cap, and seed, and for a positive dip the dip. */
  lemma RawHas(low: real, cap: real, seed: real, dip: real)
    ensures low in Raw(low, cap, seed, dip) && cap in Raw(low, cap, seed, dip) && seed in Raw(low, cap, seed, dip)
    ensures dip > 0.0 ==> dip in Raw(low, cap, seed, dip)
    ensures Raw(low, cap, seed, dip)[0] == low
  {
    var head, raw := Head(low, cap, seed, dip), Raw(low, cap, seed, dip);
    assert head[0] == low && head[1] == cap && head[2] == seed;
    if dip > 0.0 { HeadHasDip(low, cap, seed, dip); }
    hide Head, Raw;
    forall x | x in head ensures x in raw {
      var k :| 0 <= k < |head| && head[k] == x;
      assert raw[k] == x;
    }
  }

  lemma HeadHasDip(low: real, cap: real, seed: real, dip: real)
    requires dip > 0.0
    ensures dip in Head(low, cap, seed, dip)
  {}

  lemma {:induction false} DownWithin(v: real, low: real, cap: real, room: nat)
    requires 0.0 < v <= cap
    ensures Within(Down(v, low, room), low, cap)
    decreases room
  {
    if room > 0 && v > low { DownWithin(v / 9.0, low, cap, room - 1); }
  }

  lemma {:induction false} UpWithin(v: real, low: real, cap: real, room: nat)
    requires 0.0 < low <= v
    ensures Within(Up(v, cap, room), low, cap)
    decreases room
  {
    if room > 0 && v < cap { UpWithin(v * 9.0, low, cap, room - 1); }
  }

  lemma HeadWithin(low: real, cap: real, seed: real, dip: real)
    requires 0.0 < low <= seed <= cap && (dip > 0.0 ==> low <= dip <= cap)
    ensures Within(Head(low, cap, seed, dip), low, cap)
  {}

  lemma RawWithin(low: real, cap: real, seed: real, dip: real)
    requires 0.0 < low <= seed <= cap && (dip > 0.0 ==> low <= dip <= cap)
    ensures Within(Raw(low, cap, seed, dip), low, cap)
  {
    hide Head, Down, Up;
    HeadWithin(low, cap, seed, dip);
    var head := Head(low, cap, seed, dip);
    var down := Down(seed / 9.0, low, LOW_RUNGS - |head|);
    DownWithin(seed / 9.0, low, cap, LOW_RUNGS - |head|);
    UpWithin(seed * 9.0, low, cap, MAX_RUNGS - |head + down|);
  }

  // ---- what the points cover

  function Nine(k: nat): (r: real)
    ensures r >= 1.0
  {
    if k == 0 then 1.0 else 9.0 * Nine(k - 1)
  }

  lemma {:induction false} NineGrows(j: nat, k: nat)
    requires j <= k
    ensures Nine(j) <= Nine(k)
    decreases k
  {
    if j < k { NineGrows(j, k - 1); }
  }

  /** `x` is above `r` by no more than a factor 9. */
  predicate Reaches(r: real, x: real) { r <= x <= 9.0 * r }

  lemma {:induction false} DownCovers(v: real, low: real, room: nat, x: real) returns (r: real)
    requires 0.0 < v && 0.0 < low <= x <= 9.0 * v
    requires |Down(v, low, room)| < room || 9.0 * v <= Times(x, Nine(room))
    ensures (r == 9.0 * v || r == low || r in Down(v, low, room)) && Reaches(r, x)
    decreases room
  {
    hide Times;
    if !(v > low) {
      r := low;
    } else if room == 0 {
      TimesNine(x, 0);
      r := 9.0 * v;
    } else if x >= v {
      r := v;
    } else {
      TimesNine(x, room);
      r := DownCovers(v / 9.0, low, room - 1, x);
      if r == 9.0 * (v / 9.0) { assert r == v; }
    }
  }

  lemma {:induction false} UpCovers(v: real, cap: real, room: nat, x: real) returns (r: real)
    requires 0.0 < v && v / 9.0 <= x <= cap
    requires |Up(v, cap, room)| < room || x <= Times(v, Nine(room))
    ensures (r == v / 9.0 || r in Up(v, cap, room)) && Reaches(r, x)
    decreases room
  {
    hide Times;
    TimesNine(v, room);
    if x <= v {
      r := v / 9.0;
    } else {
      r := UpCovers(v * 9.0, cap, room - 1, x);
      if r == v * 9.0 / 9.0 { assert r == v; }
    }
  }

  function Times(x: real, y: real): real { x * y }

  lemma TimesNine(x: real, k: nat)
    ensures Times(x, Nine(0)) == x
    ensures k > 0 ==> Times(x, Nine(k)) == 9.0 * Times(x, Nine(k - 1)) == Times(x * 9.0, Nine(k - 1))
  {}

  /** Six factor-9 rungs on each side of the seed always fit. */
  const REACH := 531441.0

  /** The factor-9 rungs reach the low end, and the cap, without using up their room. */
  predicate ReachesLow(low: real, cap: real, seed: real, dip: real) {
    var room := LOW_RUNGS - |Head(low, cap, seed, dip)|;
    |Down(seed / 9.0, low, room)| < room
  }

  predicate ReachesCap(low: real, cap: real, seed: real, dip: real) {
    var head := Head(low, cap, seed, dip);
    var room := MAX_RUNGS - |head + Down(seed / 9.0, low, LOW_RUNGS - |head|)|;
    |Up(seed * 9.0, cap, room)| < room
  }

  /** `x` is on a side whose rungs reach its end, or no further from the seed than the rungs that always fit. */
  predicate InReach(low: real, cap: real, seed: real, dip: real, x: real) {
    && low <= x <= cap
    && (ReachesLow(low, cap, seed, dip) || seed <= x * REACH)
    && (ReachesCap(low, cap, seed, dip) || x <= seed * REACH * 9.0)
  }

  /** Every size in reach is within a factor 9 above some point. */
  lemma RawCovers(low: real, cap: real, seed: real, dip: real, x: real) returns (r: real)
    requires 0.0 < low <= seed <= cap && InReach(low, cap, seed, dip, x)
    ensures r in Raw(low, cap, seed, dip) && Reaches(r, x)
  {
    hide Raw, Head, Down, Up, Reaches;
    RawHas(low, cap, seed, dip);
    var head := Head(low, cap, seed, dip);
    var down := Down(seed / 9.0, low, LOW_RUNGS - |head|);
    var up := Up(seed * 9.0, cap, MAX_RUNGS - |head + down|);
    if x <= seed {
      r := CoversBelow(low, seed, LOW_RUNGS - |head|, x);
    } else {
      r := CoversAbove(cap, seed, MAX_RUNGS - |head + down|, x);
    }
    RawParts(low, cap, seed, dip, head, down, up, r);
  }

  lemma CoversBelow(low: real, seed: real, room: nat, x: real) returns (r: real)
    requires 0.0 < low <= x <= seed && room >= 6
    requires |Down(seed / 9.0, low, room)| < room || seed <= x * REACH
    ensures (r == seed || r == low || r in Down(seed / 9.0, low, room)) && Reaches(r, x)
  {
    hide Down, Times, Reaches, Nine;
    SixNines(x);
    NineGrows(6, room);
    ScaleUp(x, Nine(6), Nine(room));
    var v := seed / 9.0;
    assert 9.0 * v == seed;
    r := DownCovers(v, low, room, x);
  }

  lemma CoversAbove(cap: real, seed: real, room: nat, x: real) returns (r: real)
    requires 0.0 < seed <= x <= cap && room >= 6
    requires |Up(seed * 9.0, cap, room)| < room || x <= seed * REACH * 9.0
    ensures (r == seed || r in Up(seed * 9.0, cap, room)) && Reaches(r, x)
  {
    hide Up, Times, Reaches, Nine;
    var v := seed * 9.0;
    SixNines(v);
    NineGrows(6, room);
    ScaleUp(v, Nine(6), Nine(room));
    assert v / 9.0 == seed;
    r := UpCovers(v, cap, room, x);
  }

  lemma RawParts(low: real, cap: real, seed: real, dip: real, head: seq<real>, down: seq<real>, up: seq<real>,
                 x: real)
    requires head == Head(low, cap, seed, dip) && down == Down(seed / 9.0, low, LOW_RUNGS - |head|)
    requires up == Up(seed * 9.0, cap, MAX_RUNGS - |head + down|)
    ensures x in down || x in up ==> x in Raw(low, cap, seed, dip)
  {
    hide Head, Down, Up;
    assert Raw(low, cap, seed, dip) == head + down + up;
  }

  lemma SixNines(x: real)
    ensures Times(x, Nine(6)) == x * REACH
  {
    assert Nine(2) == 81.0;
    assert Nine(4) == 6561.0;
    assert Nine(6) == REACH;
  }

  lemma ScaleUp(x: real, a: real, b: real)
    requires x >= 0.0 && a <= b
    ensures Times(x, a) <= Times(x, b)
  {
    MulMonotone(a, b, x);
    Commute(a, x);
    Commute(b, x);
  }

  // ---- one sinking pass of insertion sort: everything up to `k` is in order but for the element at `j`

  predicate Sunk(s: seq<real>, j: nat, k: nat) {
    k < |s| && forall a, b :: 0 <= a < b <= k && b != j ==> s[a] <= s[b]
  }

  function Swapped(s: seq<real>, j: nat): seq<real>
    requires 0 < j < |s|
  {
    s[j := s[j - 1]][j - 1 := s[j]]
  }

  lemma SunkAtFirst(s: seq<real>, k: nat)
    requires k < |s| && Increasing(s[..k])
    ensures Sunk(s, k, k)
  {
    forall a, b | 0 <= a < b <= k && b != k ensures s[a] <= s[b] { assert s[..k][a] <= s[..k][b]; }
  }

  lemma SunkStep(s: seq<real>, j: nat, k: nat)
    requires 0 < j <= k && Sunk(s, j, k) && s[j] < s[j - 1]
    ensures Sunk(Swapped(s, j), j - 1, k) && multiset(Swapped(s, j)) == multiset(s)
  {}

  lemma SunkAtLast(s: seq<real>, j: nat, k: nat)
    requires j <= k && Sunk(s, j, k) && (j > 0 ==> s[j - 1] <= s[j])
    ensures Increasing(s[..k + 1])
  {
    var t := s[..k + 1];
    forall a, b | 0 <= a < b < |t| ensures t[a] <= t[b] {
      if b == j && a < j - 1 { assert s[a] <= s[j - 1]; }
    }
  }

  // ---- merging: `kept` stands for the first `k` points of the increasing ladder `was`

  ghost predicate Merged(was: seq<real>, k: nat, kept: seq<real>) {
    && k <= |was| && |kept| <= k && (k > 0 ==> kept != []) && Spaced(kept)
    && PositiveOf(was, kept)
    && (kept != [] ==> kept[0] == was[0] && Near(kept[|kept| - 1], was[k - 1]))
    && (forall q :: 0 <= q < k ==> Stands(kept, was[q]))
  }

  predicate PositiveOf(was: seq<real>, kept: seq<real>) {
    forall q :: 0 <= q < |kept| ==> kept[q] in was && kept[q] > 0.0
  }

  /** Some kept point is at most `x` and within the merging ratio of it. */
  ghost predicate Stands(kept: seq<real>, x: real) {
    exists r :: 0 <= r < |kept| && Near(kept[r], x)
  }

  predicate Near(y: real, x: real) { y <= x <= y * 1.000000001 }

  lemma MergedAtFirst(was: seq<real>)
    ensures Merged(was, 0, [])
  {}

  lemma MergedStep(was: seq<real>, k: nat, kept: seq<real>)
    requires Increasing(was) && k < |was| && was[0] > 0.0 && Merged(was, k, kept)
    ensures
      var next := if kept == [] || was[k] > kept[|kept| - 1] * SAME then kept + [was[k]] else kept;
      Merged(was, k + 1, next)
  {
    if kept == [] || was[k] > kept[|kept| - 1] * SAME { MergedTake(was, k, kept); } else { MergedSkip(was, k, kept); }
    hide Merged, Spaced, Increasing;
  }

  lemma MergedSkip(was: seq<real>, k: nat, kept: seq<real>)
    requires Increasing(was) && k < |was| && was[0] > 0.0 && Merged(was, k, kept)
    requires kept != [] && !(was[k] > kept[|kept| - 1] * SAME)
    ensures Merged(was, k + 1, kept)
  {
    MergeNear(was, k, kept);
    hide Near, Spaced, Increasing;
    assert Stands(kept, was[k]);
  }

  lemma MergedTake(was: seq<real>, k: nat, kept: seq<real>)
    requires Increasing(was) && k < |was| && was[0] > 0.0 && Merged(was, k, kept)
    requires kept == [] || was[k] > kept[|kept| - 1] * SAME
    ensures Merged(was, k + 1, kept + [was[k]])
  {
    hide Near, Spaced, Increasing, PositiveOf, Stands;
    MergeNear(was, k, kept);
    SpacedTake(kept, was[k]);
    PositiveTake(was, k, kept);
    var next := kept + [was[k]];
    StandsLast(kept, was[k]);
    forall q | 0 <= q < k ensures Stands(next, was[q]) { StandsOn(kept, was[k], was[q]); }
  }

  lemma StandsLast(kept: seq<real>, x: real)
    requires Near(x, x)
    ensures Stands(kept + [x], x) && (kept + [x])[|kept|] == x
  {
    assert Near((kept + [x])[|kept|], x);
  }

  lemma PositiveTake(was: seq<real>, k: nat, kept: seq<real>)
    requires k < |was| && was[k] > 0.0 && PositiveOf(was, kept)
    ensures PositiveOf(was, kept + [was[k]])
  {}

  lemma SpacedTake(kept: seq<real>, x: real)
    requires Spaced(kept) && (kept == [] || x > kept[|kept| - 1] * SAME)
    ensures Spaced(kept + [x])
  {
    forall i | 0 < i < |kept| ensures (kept + [x])[i] > (kept + [x])[i - 1] * SAME {
      assert kept[i] > kept[i - 1] * SAME;
    }
  }

  lemma StandsOn(kept: seq<real>, more: real, x: real)
    requires Stands(kept, x)
    ensures Stands(kept + [more], x)
  {
    hide Near;
    var r :| 0 <= r < |kept| && Near(kept[r], x);
    assert (kept + [more])[r] == kept[r];
  }

  lemma MergeNear(was: seq<real>, k: nat, kept: seq<real>)
    requires Increasing(was) && k < |was| && was[0] > 0.0 && Merged(was, k, kept)
    ensures was[k] > 0.0 && Near(was[k], was[k])
    ensures kept != [] ==> k > 0 && (Near(kept[|kept| - 1], was[k]) || was[k] > kept[|kept| - 1] * SAME)
  {
    assert was[0] <= was[k];
    if k > 0 { assert was[k - 1] <= was[k]; }
  }

  /** What the merged ladder is: strictly spaced points of the original between its bounds, one near each original. */
  lemma MergedBounds(was: seq<real>, kept: seq<real>, low: real, cap: real)
    requires Merged(was, |was|, kept) && Within(was, low, cap)
    ensures Within(kept, low, cap) && Spaced(kept) && (forall k :: 0 <= k < |kept| ==> kept[k] > 0.0)
  {
    hide Near, Spaced, Increasing, Stands;
    forall k | 0 <= k < |kept| ensures low <= kept[k] <= cap {
      assert kept[k] in was;
      var q :| 0 <= q < |was| && was[q] == kept[k];
    }
  }

  // ---- the finished ladder

  /** `rungs` is the ladder of these ends, seed and dip: its rungs are spaced points of the unsorted ladder, and each
      of those is a rung or just above one. */
  ghost predicate IsLadder(low: real, cap: real, seed: real, dip: real, rungs: seq<real>) {
    && 1 <= |rungs| <= MAX_RUNGS && Spaced(rungs) && Within(rungs, low, cap)
    && (forall k :: 0 <= k < |rungs| ==> rungs[k] in Raw(low, cap, seed, dip))
    && (forall x :: x in Raw(low, cap, seed, dip) ==> Stands(rungs, x))
  }

  /** Sorting and merging the unsorted points gives the ladder. */
  lemma MergedIsLadder(low: real, cap: real, seed: real, dip: real, sorted: seq<real>, rungs: seq<real>)
    requires 0.0 < low <= seed <= cap && (dip > 0.0 ==> low <= dip <= cap)
    requires multiset(sorted) == multiset(Raw(low, cap, seed, dip)) && Merged(sorted, |sorted|, rungs)
    ensures IsLadder(low, cap, seed, dip, rungs)
  {
    hide Spaced, Within, Stands, Raw, Near;
    var raw := Raw(low, cap, seed, dip);
    assert |multiset(sorted)| == |sorted| && |multiset(raw)| == |raw|;
    RawWithin(low, cap, seed, dip);
    WithinPermutes(raw, sorted, low, cap);
    MergedBounds(sorted, rungs, low, cap);
    SameMembers(sorted, raw);
    MergedStands(sorted, rungs);
  }

  lemma SameMembers(a: seq<real>, b: seq<real>)
    requires multiset(a) == multiset(b)
    ensures forall x :: x in a <==> x in b
  {
    forall x ensures x in a <==> x in b {
      assert x in a <==> x in multiset(a);
      assert x in b <==> x in multiset(b);
    }
  }

  lemma MergedStands(was: seq<real>, kept: seq<real>)
    requires Merged(was, |was|, kept)
    ensures forall k :: 0 <= k < |kept| ==> kept[k] in was
    ensures forall x :: x in was ==> Stands(kept, x)
  {
    hide Spaced, Stands, Near;
    forall x | x in was ensures Stands(kept, x) {
      var q :| 0 <= q < |was| && was[q] == x;
    }
  }

  /** Every size in reach has a rung below it by no more than a factor 9 and the
      merging ratio. */
  lemma LadderCovers(low: real, cap: real, seed: real, dip: real, rungs: seq<real>, x: real) returns (k: nat)
    requires 0.0 < low <= seed <= cap && IsLadder(low, cap, seed, dip, rungs)
    requires InReach(low, cap, seed, dip, x)
    ensures k < |rungs| && rungs[k] <= x <= 9.0 * (rungs[k] * SAME)
  {
    hide Spaced, Within, Raw, InReach;
    var r := RawCovers(low, cap, seed, dip, x);
    k :| 0 <= k < |rungs| && Near(rungs[k], r);
  }
}
