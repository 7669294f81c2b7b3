/** The golden-section screen in front of sizing: when it fires, every allowed size loses money. */
module TradeScreen {
  import opened Algebra
  import opened TradeBounds

  /** Logarithm and exponential, of which only order and inversion matter. */
  datatype Scale = Scale(log: real -> real, exp: real -> real)

  ghost predicate Faithful(sc: Scale) {
    && (forall u, v :: u < v ==> sc.exp(u) < sc.exp(v))
    && (forall x :: x > 0.0 ==> sc.exp(sc.log(x)) == x)
  }

  const GOLD := 0.6180339887498949
  const DRIFT := 0.000000000000001
  const ROUNDS := 40

  /** The golden places inside a bracket. */
  function GoldLeft(lo: real, hi: real): real { hi - GOLD * (hi - lo) }
  function GoldRight(lo: real, hi: real): real { lo + GOLD * (hi - lo) }

  // ---------------------------------------------------------------------------------------------
  // Placement: the truncated golden ratio keeps the two inner points apart for all rounds

  /** The inner points are within `e` of their golden places, and one of them exactly there. */
  predicate Placed(lo: real, u1: real, u2: real, hi: real, e: real) {
    var w := hi - lo;
    && Abs(u1 - lo - (1.0 - GOLD) * w) <= e && Abs(u2 - lo - GOLD * w) <= e
    && (u1 - lo == (1.0 - GOLD) * w || u2 - lo == GOLD * w)
  }

  lemma PlacedApart(lo: real, u1: real, u2: real, hi: real, e: real)
    requires Placed(lo, u1, u2, hi, e) && lo < hi && e <= 0.001 * (hi - lo)
    ensures lo < u1 < u2 < hi
  {}

  lemma KeepRight(lo: real, u1: real, u2: real, hi: real, e: real, unit: real)
    requires Placed(lo, u1, u2, hi, e) && lo < hi && e <= 0.001 * (hi - lo) && DRIFT * (hi - lo) <= unit
    ensures Placed(u1, u2, GoldRight(u1, hi), hi, e + unit)
    ensures 0.61 * (hi - lo) <= hi - u1 <= hi - lo
  {}

  lemma KeepLeft(lo: real, u1: real, u2: real, hi: real, e: real, unit: real)
    requires Placed(lo, u1, u2, hi, e) && lo < hi && e <= 0.001 * (hi - lo) && DRIFT * (hi - lo) <= unit
    ensures Placed(lo, GoldLeft(lo, u2), u1, u2, e + unit)
    ensures 0.61 * (hi - lo) <= u2 - lo <= hi - lo
  {}

  function Shrink(k: nat): real { if k == 0 then 1.0 else 0.61 * Shrink(k - 1) }

  lemma ShrinkTen(k: nat)
    ensures Shrink(k + 10) >= 0.0071 * Shrink(k)
    ensures Shrink(k) > 0.0
  {
    ShrinkPositive(k);
    assert Shrink(k + 2) == 0.61 * (0.61 * Shrink(k));
    assert Shrink(k + 4) == 0.61 * (0.61 * Shrink(k + 2));
    assert Shrink(k + 6) == 0.61 * (0.61 * Shrink(k + 4));
    assert Shrink(k + 8) == 0.61 * (0.61 * Shrink(k + 6));
    assert Shrink(k + 10) == 0.61 * (0.61 * Shrink(k + 8));
  }

  lemma {:induction false} ShrinkPositive(k: nat)
    ensures 0.0 < Shrink(k) <= 1.0
  {
    if k > 0 { ShrinkPositive(k - 1); }
  }

  lemma {:induction false} ShrinkFalls(k: nat, n: nat)
    requires k <= n
    ensures Shrink(n) <= Shrink(k)
    decreases n - k
  {
    ShrinkPositive(k);
    if k < n { ShrinkFalls(k + 1, n); }
  }

  lemma ShrinkEnough(k: nat)
    requires k <= ROUNDS
    ensures Shrink(k) >= 0.000000001
  {
    ShrinkTen(0);
    ShrinkTen(10);
    ShrinkTen(20);
    ShrinkTen(30);
    ShrinkFalls(k, ROUNDS);
  }

  // ---------------------------------------------------------------------------------------------
  // The search

  /** Everything outside the bracket is no better than the sample kept at its edge. */
  ghost predicate Discarded(f: real -> real, lo: real, hi: real, xlo: real, xhi: real) {
    && (forall x :: lo <= x <= xlo ==> f(x) <= f(xlo))
    && (forall x :: xhi <= x <= hi ==> f(x) <= f(xhi))
  }

  lemma DiscardLeft(f: real -> real, lo: real, hi: real, xlo: real, x1: real, x2: real, xhi: real)
    requires Concave(f, lo, hi) && Discarded(f, lo, hi, xlo, xhi)
    requires lo <= xlo < x1 < x2 < xhi <= hi && f(x1) < f(x2)
    ensures Discarded(f, lo, hi, x1, xhi)
  {
    forall x | lo <= x <= x1 ensures f(x) <= f(x1) { RisingLeft(f, lo, hi, x, x1, x2); }
  }

  lemma DiscardRight(f: real -> real, lo: real, hi: real, xlo: real, x1: real, x2: real, xhi: real)
    requires Concave(f, lo, hi) && Discarded(f, lo, hi, xlo, xhi)
    requires lo <= xlo < x1 < x2 < xhi <= hi && f(x1) >= f(x2)
    ensures Discarded(f, lo, hi, xlo, x2)
  {
    forall x | x2 <= x <= hi ensures f(x) <= f(x2) { FallingRight(f, lo, hi, x1, x2, x); }
  }

  /** What every round keeps, for a bracket [lo, hi] in log size of original width `width`. */
  ghost predicate Bracket(sc: Scale, f: real -> real, dxLo: real, dxHi: real,
                          lo: real, u1: real, u2: real, hi: real, k: nat, width: real) {
    && lo < hi && hi - lo <= width && WidthFloor(k, width) <= hi - lo
    && Placed(lo, u1, u2, hi, Drift(k, DRIFT * width))
    && dxLo <= sc.exp(lo) && sc.exp(hi) <= dxHi
    && Discarded(f, dxLo, dxHi, sc.exp(lo), sc.exp(hi))
  }

  lemma BracketOrder(sc: Scale, f: real -> real, dxLo: real, dxHi: real,
                     lo: real, u1: real, u2: real, hi: real, k: nat, width: real)
    requires Faithful(sc) && k <= ROUNDS && Bracket(sc, f, dxLo, dxHi, lo, u1, u2, hi, k, width)
    ensures lo < u1 < u2 < hi && sc.exp(lo) < sc.exp(u1) < sc.exp(u2) < sc.exp(hi)
    ensures Drift(k, DRIFT * width) <= 0.001 * (hi - lo) && DRIFT * (hi - lo) <= DRIFT * width
  {
    hide Faithful, Placed, Drift, WidthFloor, Discarded;
    DriftIsSmall(k, width, hi - lo, DRIFT * width, Drift(k, DRIFT * width));
    PlacedApart(lo, u1, u2, hi, Drift(k, DRIFT * width));
    ExpOrder(sc, lo, u1);
    ExpOrder(sc, u1, u2);
    ExpOrder(sc, u2, hi);
  }

  lemma BracketRight(sc: Scale, f: real -> real, dxLo: real, dxHi: real,
                     lo: real, u1: real, u2: real, hi: real, k: nat, width: real)
    requires Faithful(sc) && Concave(f, dxLo, dxHi) && k < ROUNDS &&
             Bracket(sc, f, dxLo, dxHi, lo, u1, u2, hi, k, width)
    requires f(sc.exp(u1)) < f(sc.exp(u2))
    ensures Bracket(sc, f, dxLo, dxHi, u1, u2, GoldRight(u1, hi), hi, k + 1, width)
  {
    hide Faithful, Concave, Placed, Drift, WidthFloor, Discarded;
    BracketOrder(sc, f, dxLo, dxHi, lo, u1, u2, hi, k, width);
    KeepRight(lo, u1, u2, hi, Drift(k, DRIFT * width), DRIFT * width);
    NextRound(k, width, hi - lo, hi - u1, DRIFT * width);
    DiscardLeft(f, dxLo, dxHi, sc.exp(lo), sc.exp(u1), sc.exp(u2), sc.exp(hi));
  }

  lemma BracketLeft(sc: Scale, f: real -> real, dxLo: real, dxHi: real,
                    lo: real, u1: real, u2: real, hi: real, k: nat, width: real)
    requires Faithful(sc) && Concave(f, dxLo, dxHi) && k < ROUNDS &&
             Bracket(sc, f, dxLo, dxHi, lo, u1, u2, hi, k, width)
    requires f(sc.exp(u1)) >= f(sc.exp(u2))
    ensures Bracket(sc, f, dxLo, dxHi, lo, GoldLeft(lo, u2), u1, u2, k + 1, width)
  {
    hide Faithful, Concave, Placed, Drift, WidthFloor, Discarded;
    BracketOrder(sc, f, dxLo, dxHi, lo, u1, u2, hi, k, width);
    KeepLeft(lo, u1, u2, hi, Drift(k, DRIFT * width), DRIFT * width);
    NextRound(k, width, hi - lo, u2 - lo, DRIFT * width);
    DiscardRight(f, dxLo, dxHi, sc.exp(lo), sc.exp(u1), sc.exp(u2), sc.exp(hi));
  }

  /** A negative bound over the kept bracket is negative over every size. */
  lemma NegativeBoundScreens(sc: Scale, f: real -> real, dxLo: real, dxHi: real,
                                                lo: real, u1: real, u2: real, hi: real, k: nat, width: real)
    requires Faithful(sc) && Concave(f, dxLo, dxHi) && k < ROUNDS &&
             Bracket(sc, f, dxLo, dxHi, lo, u1, u2, hi, k, width)
    requires sc.exp(lo) < sc.exp(u1) < sc.exp(u2) < sc.exp(hi)
    requires ConcaveBound(sc.exp(lo), sc.exp(u1), sc.exp(u2), sc.exp(hi),
                          f(sc.exp(lo)), f(sc.exp(u1)), f(sc.exp(u2)), f(sc.exp(hi))) < 0.0
    ensures forall x :: dxLo <= x <= dxHi ==> f(x) < 0.0
  {
    hide Concave, ConcaveBound, Faithful, Placed, Drift, WidthFloor;
    var xlo, x1, x2, xhi := sc.exp(lo), sc.exp(u1), sc.exp(u2), sc.exp(hi);
    forall x | dxLo <= x <= dxHi ensures f(x) < 0.0 {
      BoundHolds(f, dxLo, dxHi, xlo, x1, x2, xhi, xlo);
      BoundHolds(f, dxLo, dxHi, xlo, x1, x2, xhi, xhi);
      if xlo <= x <= xhi { BoundHolds(f, dxLo, dxHi, xlo, x1, x2, xhi, x); }
    }
  }

  lemma FirstBracket(sc: Scale, f: real -> real, dxLo: real, dxHi: real)
    requires Faithful(sc) && 0.0 < dxLo < dxHi
    ensures
      var lo, hi := sc.log(dxLo), sc.log(dxHi);
      && lo < hi && sc.exp(lo) == dxLo && sc.exp(hi) == dxHi
      && Bracket(sc, f, dxLo, dxHi, lo, GoldLeft(lo, hi), GoldRight(lo, hi), hi, 0, hi - lo)
  {
    LogOrder(sc, dxLo, dxHi);
    FirstPlaced(sc.log(dxLo), sc.log(dxHi));
    hide Placed;
  }

  // ---------------------------------------------------------------------------------------------
  // The rounds, and when they screen

  /** A bracket in log size with its two inner points. */
  datatype Round = Round(lo: real, u1: real, u2: real, hi: real)

  function Opening(sc: Scale, dxLo: real, dxHi: real): Round {
    var lo, hi := sc.log(dxLo), sc.log(dxHi);
    Round(lo, GoldLeft(lo, hi), GoldRight(lo, hi), hi)
  }

  /** Drops the left end where the inner samples rise, and otherwise the right end. */
  function Next(sc: Scale, f: real -> real, r: Round): Round {
    if f(sc.exp(r.u1)) < f(sc.exp(r.u2)) then Round(r.u1, r.u2, GoldRight(r.u1, r.hi), r.hi)
    else Round(r.lo, GoldLeft(r.lo, r.u2), r.u1, r.u2)
  }

  function RoundAt(sc: Scale, f: real -> real, dxLo: real, dxHi: real, k: nat): Round {
    if k == 0 then Opening(sc, dxLo, dxHi) else Next(sc, f, RoundAt(sc, f, dxLo, dxHi, k - 1))
  }

  /** One of the four samples is positive. */
  predicate Hopeful(sc: Scale, f: real -> real, r: Round) {
    f(sc.exp(r.lo)) > 0.0 || f(sc.exp(r.u1)) > 0.0 || f(sc.exp(r.u2)) > 0.0 || f(sc.exp(r.hi)) > 0.0
  }

  /** The four samples bound everything below zero. */
  predicate Sinks(sc: Scale, f: real -> real, r: Round) {
    var x0, x1, x2, x3 := sc.exp(r.lo), sc.exp(r.u1), sc.exp(r.u2), sc.exp(r.hi);
    x0 < x1 < x2 < x3 && ConcaveBound(x0, x1, x2, x3, f(x0), f(x1), f(x2), f(x3)) < 0.0
  }

  /** Some round sinks before any sample is positive. */
  ghost predicate Screens(sc: Scale, f: real -> real, dxLo: real, dxHi: real) {
    exists k: nat :: SinksFirst(sc, f, dxLo, dxHi, k)
  }

  ghost predicate SinksFirst(sc: Scale, f: real -> real, dxLo: real, dxHi: real, k: nat) {
    && k < ROUNDS && Sinks(sc, f, RoundAt(sc, f, dxLo, dxHi, k))
    && forall j :: 0 <= j <= k ==> !Hopeful(sc, f, RoundAt(sc, f, dxLo, dxHi, j))
  }

  /** What is known when the search gives up: a size with positive value, or no round that sinks. */
  ghost predicate Undecided(sc: Scale, f: real -> real, dxLo: real, dxHi: real) {
    || (exists x :: dxLo <= x <= dxHi && f(x) > 0.0)
    || (forall k :: 0 <= k < ROUNDS ==> !Sinks(sc, f, RoundAt(sc, f, dxLo, dxHi, k)))
  }

  lemma NotScreened(sc: Scale, f: real -> real, dxLo: real, dxHi: real, n: nat)
    requires forall j :: 0 <= j < n ==> !Sinks(sc, f, RoundAt(sc, f, dxLo, dxHi, j))
    requires n >= ROUNDS || Hopeful(sc, f, RoundAt(sc, f, dxLo, dxHi, n))
    ensures !Screens(sc, f, dxLo, dxHi)
  {
    hide Sinks, Hopeful, RoundAt;
    forall k: nat ensures !SinksFirst(sc, f, dxLo, dxHi, k) {
      if k < ROUNDS && n <= k { assert Hopeful(sc, f, RoundAt(sc, f, dxLo, dxHi, n)); }
    }
  }

  /** A positive sample of a bracket is the value of an allowed size. */
  lemma HopeIsReal(sc: Scale, f: real -> real, dxLo: real, dxHi: real,
                   lo: real, u1: real, u2: real, hi: real, k: nat, width: real)
    requires Faithful(sc) && k <= ROUNDS && Bracket(sc, f, dxLo, dxHi, lo, u1, u2, hi, k, width)
    requires Hopeful(sc, f, Round(lo, u1, u2, hi))
    ensures exists x :: dxLo <= x <= dxHi && f(x) > 0.0
  {
    BracketOrder(sc, f, dxLo, dxHi, lo, u1, u2, hi, k, width);
    hide Bracket, Faithful, Discarded;
    var x :| x in {sc.exp(lo), sc.exp(u1), sc.exp(u2), sc.exp(hi)} && f(x) > 0.0;
    assert dxLo <= x <= dxHi;
  }

  /** Runs the search on `f` over [dxLo, dxHi]: it screens exactly when a round sinks before a sample is positive,
      and only when no size can break even. */
  method Screen(sc: Scale, f: real -> real, dxLo: real, dxHi: real) returns (screened: bool)
    requires Faithful(sc) && 0.0 < dxLo < dxHi && Concave(f, dxLo, dxHi)
    ensures screened <==> Screens(sc, f, dxLo, dxHi)
    ensures screened ==> forall x :: dxLo <= x <= dxHi ==> f(x) < 0.0
    ensures !screened ==> Undecided(sc, f, dxLo, dxHi)
  {
    hide Concave, ConcaveBound, Faithful, Bracket, Sinks, Screens, Undecided, RoundAt, Next, Hopeful, SinksFirst,
         GoldLeft, GoldRight;
    FirstRound(sc, f, dxLo, dxHi);
    FirstBracket(sc, f, dxLo, dxHi);
    var lo, hi := sc.log(dxLo), sc.log(dxHi);
    ghost var width := hi - lo;
    var u1, u2 := GoldLeft(lo, hi), GoldRight(lo, hi);
    var xlo, xhi, x1, x2 := sc.exp(lo), sc.exp(hi), sc.exp(u1), sc.exp(u2);
    var flo, fhi, f1, f2 := f(xlo), f(xhi), f(x1), f(x2);
    var may := flo > 0.0 || fhi > 0.0 || f1 > 0.0 || f2 > 0.0;
    HopefulIs(sc, f, Round(lo, u1, u2, hi));
    screened := false;
    var k := 0;
    while !may && !screened && k < ROUNDS
      invariant 0 <= k <= ROUNDS && !screened
      invariant Bracket(sc, f, dxLo, dxHi, lo, u1, u2, hi, k, width)
      invariant xlo == sc.exp(lo) && x1 == sc.exp(u1) && x2 == sc.exp(u2) && xhi == sc.exp(hi)
      invariant flo == f(xlo) && f1 == f(x1) && f2 == f(x2) && fhi == f(xhi)
      invariant Round(lo, u1, u2, hi) == RoundAt(sc, f, dxLo, dxHi, k)
      invariant may <==> Hopeful(sc, f, Round(lo, u1, u2, hi))
      invariant forall j :: 0 <= j < k ==> !Hopeful(sc, f, RoundAt(sc, f, dxLo, dxHi, j))
      invariant forall j :: 0 <= j < k ==> !Sinks(sc, f, RoundAt(sc, f, dxLo, dxHi, j))
    {
      BracketOrder(sc, f, dxLo, dxHi, lo, u1, u2, hi, k, width);
      var bound := ConcaveBound(xlo, x1, x2, xhi, flo, f1, f2, fhi);
      SinksIs(sc, f, Round(lo, u1, u2, hi));
      if bound < 0.0 {
        NegativeBoundScreens(sc, f, dxLo, dxHi, lo, u1, u2, hi, k, width);
        ScreensAt(sc, f, dxLo, dxHi, k);
        return true;
      }
      NextRoundIs(sc, f, dxLo, dxHi, k);
      HopefulIs(sc, f, Round(lo, u1, u2, hi));
      if f1 < f2 {
        BracketRight(sc, f, dxLo, dxHi, lo, u1, u2, hi, k, width);
        lo, xlo, flo, u1, x1, f1 := u1, x1, f1, u2, x2, f2;
        u2 := GoldRight(lo, hi);
        x2 := sc.exp(u2);
        f2 := f(x2);
      } else {
        BracketLeft(sc, f, dxLo, dxHi, lo, u1, u2, hi, k, width);
        hi, xhi, fhi, u2, x2, f2 := u2, x2, f2, u1, x1, f1;
        u1 := GoldLeft(lo, hi);
        x1 := sc.exp(u1);
        f1 := f(x1);
      }
      may := f1 > 0.0 || f2 > 0.0;
      HopefulIs(sc, f, Round(lo, u1, u2, hi));
      k := k + 1;
    }
    NotScreened(sc, f, dxLo, dxHi, k);
    if may { HopeIsReal(sc, f, dxLo, dxHi, lo, u1, u2, hi, k, width); }
    UndecidedIf(sc, f, dxLo, dxHi, k, may);
  }

  lemma SinksIs(sc: Scale, f: real -> real, r: Round)
    requires sc.exp(r.lo) < sc.exp(r.u1) < sc.exp(r.u2) < sc.exp(r.hi)
    ensures Sinks(sc, f, r) <==>
            ConcaveBound(sc.exp(r.lo), sc.exp(r.u1), sc.exp(r.u2), sc.exp(r.hi),
                         f(sc.exp(r.lo)), f(sc.exp(r.u1)), f(sc.exp(r.u2)), f(sc.exp(r.hi))) < 0.0
  {
    hide ConcaveBound;
  }

  lemma ScreensAt(sc: Scale, f: real -> real, dxLo: real, dxHi: real, k: nat)
    requires k < ROUNDS && Sinks(sc, f, RoundAt(sc, f, dxLo, dxHi, k))
    requires forall j :: 0 <= j <= k ==> !Hopeful(sc, f, RoundAt(sc, f, dxLo, dxHi, j))
    ensures Screens(sc, f, dxLo, dxHi)
  {
    hide Sinks, Hopeful, RoundAt;
    assert SinksFirst(sc, f, dxLo, dxHi, k);
  }

  lemma FirstRound(sc: Scale, f: real -> real, dxLo: real, dxHi: real)
    ensures RoundAt(sc, f, dxLo, dxHi, 0) == Opening(sc, dxLo, dxHi)
  {}

  lemma NextRoundIs(sc: Scale, f: real -> real, dxLo: real, dxHi: real, k: nat)
    ensures
      var r, next := RoundAt(sc, f, dxLo, dxHi, k), RoundAt(sc, f, dxLo, dxHi, k + 1);
      next == if f(sc.exp(r.u1)) < f(sc.exp(r.u2)) then Round(r.u1, r.u2, GoldRight(r.u1, r.hi), r.hi)
              else Round(r.lo, GoldLeft(r.lo, r.u2), r.u1, r.u2)
  {}

  lemma HopefulIs(sc: Scale, f: real -> real, r: Round)
    ensures Hopeful(sc, f, r) <==>
            f(sc.exp(r.lo)) > 0.0 || f(sc.exp(r.u1)) > 0.0 || f(sc.exp(r.u2)) > 0.0 || f(sc.exp(r.hi)) > 0.0
  {}

  lemma UndecidedIf(sc: Scale, f: real -> real, dxLo: real, dxHi: real, n: nat, hope: bool)
    requires hope ==> exists x :: dxLo <= x <= dxHi && f(x) > 0.0
    requires !hope ==> n >= ROUNDS && forall j :: 0 <= j < n ==> !Sinks(sc, f, RoundAt(sc, f, dxLo, dxHi, j))
    ensures Undecided(sc, f, dxLo, dxHi)
  {
    hide Sinks, RoundAt;
  }

  lemma FirstPlaced(lo: real, hi: real)
    requires lo < hi
    ensures Placed(lo, GoldLeft(lo, hi), GoldRight(lo, hi), hi, 0.0)
  {}

  /** Placement error after `k` rounds, and the least bracket width then. */
  function Drift(k: nat, unit: real): real { k as real * unit }
  function WidthFloor(k: nat, width: real): real { Shrink(k) * width }

  lemma DriftIsSmall(k: nat, width: real, w: real, unit: real, e: real)
    requires k <= ROUNDS && width > 0.0 && unit == DRIFT * width && e == Drift(k, unit)
    requires WidthFloor(k, width) <= w <= width
    ensures e <= 0.001 * w && DRIFT * w <= unit && w > 0.0
  {
    DriftBound(k, unit);
    FloorBound(k, width);
    hide Drift, WidthFloor;
  }

  lemma DriftBound(k: nat, unit: real)
    requires k <= ROUNDS && unit >= 0.0
    ensures Drift(k, unit) <= 40.0 * unit
  {
    MulMonotone(k as real, 40.0, unit);
  }

  lemma FloorBound(k: nat, width: real)
    requires k <= ROUNDS && width > 0.0
    ensures WidthFloor(k, width) >= 0.000000001 * width
  {
    ShrinkEnough(k);
    MulMonotone(0.000000001, Shrink(k), width);
  }

  lemma NextRound(k: nat, width: real, w: real, w': real, unit: real)
    requires WidthFloor(k, width) <= w && 0.61 * w <= w'
    ensures WidthFloor(k + 1, width) <= w'
    ensures Drift(k + 1, unit) == Drift(k, unit) + unit
  {
    assert Shrink(k + 1) * width == 0.61 * (Shrink(k) * width);
  }

  lemma ExpOrder(sc: Scale, u: real, v: real)
    requires Faithful(sc) && u < v
    ensures sc.exp(u) < sc.exp(v)
  {}

  lemma LogOrder(sc: Scale, x: real, y: real)
    requires Faithful(sc) && 0.0 < x < y
    ensures sc.log(x) < sc.log(y) && sc.exp(sc.log(x)) == x && sc.exp(sc.log(y)) == y
  {
    if sc.log(y) < sc.log(x) { ExpOrder(sc, sc.log(y), sc.log(x)); }
  }
}
