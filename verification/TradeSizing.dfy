/** The budgeted, derivative-free search for the most profitable size of one direction. */
module TradeSizing {
  import opened Algebra
  import opened Wrappers
  import opened TradeBounds
  import opened TradeEntry
  import opened TradeLadder
  import TradeScreen

  datatype Candidate = Candidate(dx: real, dy: real, profit: real, fee: real)

  function Evaluate(m: Market, dx: real): Candidate {
    var gross := m.output(dx);
    Candidate(dx, gross - m.fee(dx) * gross, Profit(m, dx), m.fee(dx) * gross)
  }

  /** What a candidate carries: the curve's gross output in two parts, the fee at its rate and what is kept, and the
      profit of the kept part at the outside price. */
  predicate AddsUp(m: Market, c: Candidate) {
    && c.dy + c.fee == m.output(c.dx) && c.fee == m.fee(c.dx) * m.output(c.dx)
    && c.profit == c.dy * m.value - c.dx * m.cost - m.gas
  }

  lemma EvaluateAddsUp(m: Market, dx: real)
    ensures AddsUp(m, Evaluate(m, dx)) && Evaluate(m, dx).dx == dx
  {}

  const MAX_EVALS := 24
  const RESOLUTION := 0.002          // relative size resolution of refinement
  const GINV := 0.3819660112501051

  function Clamp(dx: real, lo: real, hi: real): real { Min(Max(dx, lo), hi) }

  datatype Decision = Decision(sized: bool, go: bool, c: Candidate)

  const NOTHING := Decision(false, false, Candidate(0.0, 0.0, 0.0, 0.0))

  const FACTORS := [1.5, 1.15, 1.05]

  /** The factors by which the brackets around the dip reach to either side, in the order they are tried. */
  function Factor(i: nat): (f: real)
    requires i < 3
    ensures f > 1.0
  {
    if i == 0 then 1.5 else if i == 1 then 1.15 else 1.05
  }

  function DipLow(low: real, dip: real, i: nat): real
    requires i < |FACTORS|
  {
    Max(low, dip / Factor(i))
  }

  function DipHigh(cap: real, dip: real, i: nat): real
    requires i < |FACTORS|
  {
    Min(cap, dip * Factor(i))
  }

  /** Bracket `i` around the dip does not surround it, or one of its ends was tried and beats the dip. */
  ghost predicate Outdone(m: Market, tried: seq<real>, low: real, cap: real, dip: real, pb: real, i: nat)
    requires i < |FACTORS|
  {
    var a, c := DipLow(low, dip, i), DipHigh(cap, dip, i);
    !(a < dip < c) || (a in tried && c in tried && (Profit(m, a) > pb || Profit(m, c) > pb))
  }

  /** The middle of a bracket earns at least as much as its ends. */
  ghost predicate Peak(m: Market, a: real, b: real, c: real) {
    Profit(m, a) <= Profit(m, b) && Profit(m, c) <= Profit(m, b)
  }

  datatype Bracket = Bracket(a: real, b: real, c: real)

  predicate Narrow(t: Bracket) { t.c - t.a <= 0.002 * t.b }

  /** What became of the search around the dip: not begun, or begun from the dip's value, with the basin it refined. */
  datatype DipSearch = Skipped | Sought(value: real, basin: Option<Bracket>)

  /** How a size was found: the range, seed and dip of the ladder, its rungs and its winner, the bracket refined around
      the winner, the search around the dip, and every size tried until then. */
  datatype Path = Path(low: real, cap: real, seed: real, dip: real, rungs: seq<real>, win: nat,
                       bracket: Option<Bracket>, search: DipSearch, searched: seq<real>)

  /** Whether rung `k` of `n` is evaluated: the last one is not when it stands for an envelope cap. */
  predicate Measured(m: Market, n: nat, cap: real, k: nat) {
    k < n - 1 || n == 1 || cap >= m.hi * (1.0 - 0.000000001)
  }

  /** No size past the cap earns anything. */
  ghost predicate CapKept(m: Market, cap: real) {
    m.lo <= cap <= m.hi && (cap < m.hi ==> forall dx :: cap <= dx <= m.hi ==> Profit(m, dx) <= 0.0)
  }

  /** Rungs are spaced, and no evaluated one beats `most`. */
  ghost predicate RungsKept(m: Market, rungs: seq<real>, cap: real, most: real) {
    Spaced(rungs) && forall k :: 0 <= k < |rungs| && Measured(m, |rungs|, cap, k) ==> Profit(m, rungs[k]) <= most
  }

  /** The bracket's middle does not beat `most`, and where profit is concave nothing outside the bracket does. */
  ghost predicate PeakKept(m: Market, t: Bracket, most: real) {
    && m.lo <= t.a < t.b < t.c <= m.hi && Profit(m, t.b) <= most
    && (Concave(ProfitOf(m), m.lo, m.hi) ==>
          forall x :: m.lo <= x <= m.hi && !(t.a < x < t.c) ==> Profit(m, x) <= most)
  }

  // ---------------------------------------------------------------------------------------------
  // What each part of the search has done

  /** The first size at which the fee-floor envelope is looked at next, up and down from the seed. */
  function Grow(v: real, k: nat): real { if k == 0 then v else Grow(v, k - 1) * 9.0 }
  function Fall(v: real, k: nat): real { if k == 0 then v else Fall(v, k - 1) / 9.0 }
  function Lowered(m: Market, seed0: real, k: nat): real { Max(Fall(seed0, k), m.lo) }

  const WALK := 32

  predicate Floats(m: Market, dx: real) { Envelope(m, m.floorFee, dx) > 0.0 }

  /** From a seed that floats, `n` factor-9 sizes above it float too; the next one is the cap, unless the walk or the
      range ended. */
  ghost predicate WalkUp(m: Market, seed0: real, cap: real, n: nat) {
    && n <= 32 && (forall k :: 1 <= k <= n ==> Grow(seed0, k) < m.hi && Floats(m, Grow(seed0, k)))
    && if cap < m.hi then n < 32 && cap == Grow(seed0, n + 1) && !Floats(m, cap)
       else cap == m.hi && (n == 32 || Grow(seed0, n + 1) >= m.hi)
  }

  /** From a seed that does not, neither do `n` factor-9 sizes below it; the next one does and replaces the seed, which
      becomes the cap, unless the walk or the range ended. */
  ghost predicate WalkDown(m: Market, seed0: real, cap: real, seed: real, n: nat) {
    && n <= 32 && (forall k :: 1 <= k <= n ==> !Floats(m, Lowered(m, seed0, k)))
    && (|| (n < 32 && seed == Lowered(m, seed0, n + 1) && Floats(m, seed) && cap == seed0)
        || (seed == seed0 && cap == m.hi && (n == 32 || (n > 0 && Lowered(m, seed0, n) == m.lo))))
  }

  ghost predicate Walked(m: Market, seed0: real, cap: real, seed: real) {
    if Floats(m, seed0) then seed == seed0 && exists n: nat :: WalkUp(m, seed0, cap, n)
    else exists n: nat :: WalkDown(m, seed0, cap, seed, n)
  }

  /** What a rung stands for in the scan: its profit, or for an envelope cap the envelope. */
  function Ordinate(m: Market, rungs: seq<real>, cap: real, k: nat): real
    requires k < |rungs|
  {
    if Measured(m, |rungs|, cap, k) then Profit(m, rungs[k]) else Envelope(m, m.floorFee, rungs[k])
  }

  /** Rung `win` is the first of the highest. */
  predicate Wins(m: Market, rungs: seq<real>, cap: real, win: nat) {
    && win < |rungs|
    && (forall k :: 0 <= k < |rungs| ==> Ordinate(m, rungs, cap, k) <= Ordinate(m, rungs, cap, win))
    && (forall k :: 0 <= k < win ==> Ordinate(m, rungs, cap, k) < Ordinate(m, rungs, cap, win))
  }

  /** The ladder was built as it should be, its measured rungs were tried, and the winner is the first highest. */
  ghost predicate LadderKept(m: Market, tried: seq<real>, p: Path) {
    && IsLadder(p.low, p.cap, p.seed, p.dip, p.rungs) && Wins(m, p.rungs, p.cap, p.win)
    && forall k :: 0 <= k < |p.rungs| && Measured(m, |p.rungs|, p.cap, k) ==> p.rungs[k] in tried
  }

  function Golden(b: real, d1: real, d2: real): real { if d1 > d2 then b - GINV * d1 else b + GINV * d2 }

  /** Where the parabola through three samples is highest: the middle one at `b`, the others at distances `d1` and `d2`
      and lower by `ga` and `gc`. */
  function Vertex(b: real, d1: real, d2: real, ga: real, gc: real): real {
    if Bend(d1, d2, ga, gc) == 0.0 then b else b - Lean(d1, d2, ga, gc) / (2.0 * Bend(d1, d2, ga, gc))
  }

  function Bend(d1: real, d2: real, ga: real, gc: real): real { d1 * gc + d2 * ga }
  function Lean(d1: real, d2: real, ga: real, gc: real): real { d1 * d1 * gc - d2 * d2 * ga }

  /** The parabola has a top, clear of the bracket's points, and the step to it is at most half the one before last. */
  predicate Usable(a: real, b: real, c: real, pa: real, pb: real, pc: real, last2: real) {
    var margin, t := 0.002 * b / 4.0, Vertex(b, b - a, c - b, pb - pa, pb - pc);
    && Bend(b - a, c - b, pb - pa, pb - pc) > 0.0
    && a + margin < t < c - margin && margin <= Abs(t - b) <= last2 / 2.0
  }

  function Parabola(k: real, v: real, top: real, x: real): real { top - k * ((x - v) * (x - v)) }

  /** On a profit that is a parabola the parabolic step lands on its top. */
  lemma VertexIsTop(k: real, v: real, top: real, a: real, b: real, c: real)
    requires k > 0.0 && a < b < c
    ensures Vertex(b, b - a, c - b, Parabola(k, v, top, b) - Parabola(k, v, top, a),
                   Parabola(k, v, top, b) - Parabola(k, v, top, c)) == v
  {
    var d1, d2 := b - a, c - b;
    var up, down := 2.0 * v - a - b, b + c - 2.0 * v;
    var ga, gc := Parabola(k, v, top, b) - Parabola(k, v, top, a), Parabola(k, v, top, b) - Parabola(k, v, top, c);
    DropFrom(k, v, top, b, a);
    DropFrom(k, v, top, b, c);
    assert ga == k * (d1 * up);
    assert gc == k * (d2 * down);
    VertexOf(b, v, k, d1, d2, up, down, ga, gc);
  }

  lemma DropFrom(k: real, v: real, top: real, b: real, x: real)
    ensures Parabola(k, v, top, b) - Parabola(k, v, top, x) == k * ((b - x) * (2.0 * v - x - b))
  {
    assert (x - v) * (x - v) - (b - v) * (b - v) == (b - x) * (2.0 * v - x - b);
    assert k * ((x - v) * (x - v)) - k * ((b - v) * (b - v)) == k * ((x - v) * (x - v) - (b - v) * (b - v));
  }

  lemma VertexOf(b: real, v: real, k: real, d1: real, d2: real, up: real, down: real, ga: real, gc: real)
    requires k > 0.0 && d1 > 0.0 && d2 > 0.0 && ga == k * (d1 * up) && gc == k * (d2 * down)
    requires up == 2.0 * (v - b) + d1 && down == d2 - 2.0 * (v - b)
    ensures Vertex(b, d1, d2, ga, gc) == v
  {
    var w, e := k * (d1 * d2), v - b;
    MulPos(d1, d2);
    MulPos(k, d1 * d2);
    var den := d1 * gc + d2 * ga;
    assert d1 * gc == w * down;
    assert d2 * ga == w * up;
    assert den == w * (d1 + d2);
    MulPos(w, d1 + d2);
    assert d1 * d1 * gc == w * (d1 * down);
    assert d2 * d2 * ga == w * (d2 * up);
    assert d1 * down - d2 * up == -2.0 * (e * (d1 + d2));
    assert d1 * d1 * gc - d2 * d2 * ga == (0.0 - e) * (2.0 * den);
    Quotient(d1 * d1 * gc - d2 * d2 * ga, 0.0 - e, 2.0 * den);
  }

  lemma Quotient(p: real, q: real, d: real)
    requires d > 0.0 && p == q * d
    ensures p / d == q
  {
    DivCompare(p, q, d);
  }

  /** The `j`-th probe from a winning end toward its neighbour. */
  function ProbeAt(end: real, inner: real, j: nat): real {
    if j == 0 then inner else Probe(end, ProbeAt(end, inner, j - 1))
  }

  /** The share is that of the golden section: what is left is to the whole as the share is to what is left. */
  lemma ShareIsGolden()
    ensures Abs((1.0 - GINV) * (1.0 - GINV) - GINV) < 0.000000000000001 && 0.0 < GINV < 0.5
  {}

  function Probe(end: real, inner: real): real { end + GINV * (inner - end) }

  lemma ProbeInside(end: real, inner: real)
    ensures end < inner ==> end < Probe(end, inner) < inner
    ensures inner < end ==> inner < Probe(end, inner) < end
  {}

  /** The first `j` probes were tried and none beats the end. */
  ghost predicate LostTo(m: Market, tried: seq<real>, end: real, top: real, inner: real, j: nat) {
    forall i :: 1 <= i <= j ==> ProbeAt(end, inner, i) in tried && Profit(m, ProbeAt(end, inner, i)) <= top
  }

  /** The winning end stands: its probes lost until there were three, the gap was resolved, or the budget ran out. */
  ghost predicate EndStands(m: Market, tried: seq<real>, end: real, top: real, inner: real) {
    exists j: nat :: LostTo(m, tried, end, top, inner, j) && ProbesEnd(tried, end, inner, j)
  }

  predicate ProbesEnd(tried: seq<real>, end: real, inner: real, j: nat) {
    && j <= 3
    && (|| j == 3 || |tried| == 24
        || Abs(end - ProbeAt(end, inner, j)) <= 0.002 * Max(end, ProbeAt(end, inner, j)))
  }

  function Before(win: nat): nat { if win > 0 then win - 1 else win }
  function After(n: nat, win: nat): nat { if win + 1 < n then win + 1 else win }

  /** The bracket lies between the winner's neighbours, its middle was tried, is its highest point and at least as high
      as the winner, and it is narrow unless the budget ran out. */
  ghost predicate BracketKept(m: Market, tried: seq<real>, rungs: seq<real>, cap: real, win: nat, t: Bracket)
    requires win < |rungs|
  {
    && rungs[Before(win)] <= t.a < t.b < t.c <= rungs[After(|rungs|, win)]
    && t.b in tried && Peak(m, t.a, t.b, t.c) && Ordinate(m, rungs, cap, win) <= Profit(m, t.b)
    && (|tried| == 24 || Narrow(t))
  }

  /** Only a winner at an end that stands, or a lone rung, goes without a bracket. */
  ghost predicate EndKept(m: Market, tried: seq<real>, rungs: seq<real>, cap: real, win: nat)
    requires win < |rungs|
  {
    || |rungs| == 1
    || (win == 0 && EndStands(m, tried, rungs[0], Ordinate(m, rungs, cap, 0), rungs[1]))
    || (0 < win == |rungs| - 1 && EndStands(m, tried, rungs[win], Ordinate(m, rungs, cap, win), rungs[win - 1]))
  }

  ghost predicate RefinementKept(m: Market, tried: seq<real>, p: Path) {
    && p.win < |p.rungs|
    && match p.bracket
       case Some(t) => BracketKept(m, tried, p.rungs, p.cap, p.win, t)
       case None => EndKept(m, tried, p.rungs, p.cap, p.win)
  }

  /** The value at the dip: that of a rung there, or the dip's own. */
  ghost predicate KnownAt(m: Market, tried: seq<real>, rungs: seq<real>, cap: real, dip: real, value: real) {
    || (exists k :: 0 <= k < |rungs| && Abs(rungs[k] - dip) <= dip * 0.000000001 && value == Ordinate(m, rungs, cap, k))
    || (dip in tried && value == Profit(m, dip))
  }

  /** Bracket `i` around the dip was the first with no end above the dip's value, and was refined: the basin's middle is
      still the dip, or was tried and beats it, and neither end beats the middle, the dip itself aside. */
  ghost predicate BasinKept(m: Market, tried: seq<real>, low: real, cap: real, dip: real, value: real, i: nat,
                            t: Bracket)
    requires i < |FACTORS|
  {
    var da, dc, top := DipLow(low, dip, i), DipHigh(cap, dip, i), if t.b == dip then value else Profit(m, t.b);
    && da in tried && dc in tried && Profit(m, da) <= value && Profit(m, dc) <= value
    && da <= t.a < t.b < t.c <= dc && (|tried| == 24 || Narrow(t))
    && (t.b == dip || (t.b in tried && top > value))
    && (t.a == dip || Profit(m, t.a) <= top) && (t.c == dip || Profit(m, t.c) <= top)
  }

  ghost predicate Settled(m: Market, tried: seq<real>, low: real, cap: real, dip: real, value: real, i: nat,
                          t: Bracket) {
    && i < |FACTORS| && BasinKept(m, tried, low, cap, dip, value, i, t)
    && forall j :: 0 <= j < i ==> Outdone(m, tried, low, cap, dip, value, j)
  }

  /** `x` is within a factor 2 of the dip and beats the measured rungs and the refined bracket. */
  ghost predicate NearBest(m: Market, p: Path, x: real) {
    && p.dip / 2.0 < x < p.dip * 2.0
    && (forall k :: 0 <= k < |p.rungs| && Measured(m, |p.rungs|, p.cap, k) ==> Profit(m, p.rungs[k]) <= Profit(m, x))
    && (p.bracket.Some? ==> Profit(m, p.bracket.value.b) <= Profit(m, x))
  }

  /** The dip was left alone for want of a dip or of budget, or because the best size was near it. Otherwise a basin was
      refined around it, or every bracket tried there had an end that beats it. */
  ghost predicate DipKept(m: Market, tried: seq<real>, p: Path) {
    match p.search
    case Skipped => p.dip <= 0.0 || |tried| + 3 > 24 || exists x :: x in tried && NearBest(m, p, x)
    case Sought(value, basin) =>
      && p.dip > 0.0 && KnownAt(m, tried, p.rungs, p.cap, p.dip, value)
      && match basin
         case Some(t) => exists i: nat :: Settled(m, tried, p.low, p.cap, p.dip, value, i, t)
         case None => forall i :: 0 <= i < |FACTORS| ==>
                        |tried| + 2 > 24 || Outdone(m, tried, p.low, p.cap, p.dip, value, i)
  }

  /** When nothing was positive and budget is left, the smallest size is tried, and if that pays and the ladder began
      well above it, one between. */
  ghost function Smallest(m: Market, sqrt: real -> real, low: real, searched: seq<real>): seq<real> {
    if |searched| == 24 || SomePays(m, searched) then []
    else if Profit(m, m.lo) > 0.0 && low > 3.0 * m.lo && |searched| + 1 < 24
    then [m.lo, Clamp(Midway(sqrt, m.lo, low), m.lo, m.hi)]
    else [m.lo]
  }

  ghost predicate SomePays(m: Market, tried: seq<real>) { exists x :: x in tried && Profit(m, x) > 0.0 }

  /** The geometric mean. */
  function Midway(sqrt: real -> real, a: real, b: real): real { sqrt(a * b) }

  lemma MidwayIsMean(sqrt: real -> real, a: real, b: real)
    requires a >= 0.0 && b >= 0.0 && forall x :: x >= 0.0 ==> sqrt(x) * sqrt(x) == x
    ensures Midway(sqrt, a, b) * Midway(sqrt, a, b) == a * b
  {
    MulNonNeg(a, b);
  }

  lemma PaysIfBestDoes(m: Market, tried: seq<real>, c: Candidate)
    requires FirstBest(m, tried, c)
    ensures SomePays(m, tried) <==> c.profit > 0.0
  {
    BestIsMost(m, tried, c);
    assert c.profit == Profit(m, c.dx);
    hide Profit;
    forall x | x in tried ensures Profit(m, x) <= c.profit { TriedIsBeaten(m, tried, c.profit, x); }
  }

  /** Where profit is concave, nothing beyond the last probe of an end that stands beats `most`. */
  ghost predicate GapKept(m: Market, p: Path, most: real) {
    && (p.bracket.None? && p.win == 0 && |p.rungs| > 1 ==>
          BeyondProbe(m, p.searched, p.rungs[0], p.rungs[1], most))
    && (p.bracket.None? && 0 < p.win == |p.rungs| - 1 && Measured(m, |p.rungs|, p.cap, p.win) ==>
          BeyondProbe(m, p.searched, p.rungs[p.win], p.rungs[p.win - 1], most))
  }

  ghost predicate BeyondProbe(m: Market, tried: seq<real>, end: real, inner: real, most: real) {
    exists j: nat :: ProbesEnd(tried, end, inner, j) && BeyondLoses(m, end, ProbeAt(end, inner, j), most)
  }

  /** On the far side of `probe` from `end` nothing beats `most`. */
  ghost predicate BeyondLoses(m: Market, end: real, probe: real, most: real) {
    Concave(ProfitOf(m), m.lo, m.hi) ==>
      forall x :: m.lo <= x <= m.hi && (if end < probe then probe <= x else x <= probe) ==> Profit(m, x) <= most
  }

  function ProfitOf(m: Market): real -> real { (dx: real) => Profit(m, dx) }

  class Search {
    const m: Market
    const pts: array<real>
    const scan: array<Candidate>
    var evals: nat
    var best: Option<Candidate>
    /** Every size given a full evaluation, in order. */
    ghost var tried: seq<real>

    /** The budget is kept, and `best` is the first most profitable of everything tried. */
    ghost predicate Valid()
      reads this
    {
      && 0.0 < m.lo < m.hi
      && pts.Length == MAX_EVALS && scan.Length == MAX_EVALS
      && evals == |tried| <= MAX_EVALS
      && (forall k :: 0 <= k < |tried| ==> m.lo <= tried[k] <= m.hi)
      && (best.None? <==> tried == [])
      && (best.Some? ==> FirstBest(m, tried, best.value))
    }

    constructor (m: Market)
      requires 0.0 < m.lo < m.hi
      ensures Valid() && this.m == m && tried == [] && fresh(pts) && fresh(scan)
    {
      this.m := m;
      pts := new real[MAX_EVALS](_ => 0.0);
      scan := new Candidate[MAX_EVALS](_ => Candidate(0.0, 0.0, 0.0, 0.0));
      evals, best, tried := 0, None, [];
    }

    method EvalAt(dx: real) returns (c: Candidate)
      requires Valid() && evals < MAX_EVALS
      modifies this
      ensures Valid() && evals == old(evals) + 1
      ensures tried == old(tried) + [Clamp(dx, m.lo, m.hi)]
      ensures c == Evaluate(m, Clamp(dx, m.lo, m.hi)) && best.Some? && best.value.profit >= c.profit
      ensures AddsUp(m, c)
      ensures m.lo <= dx <= m.hi ==> c.dx == dx
    {
      hide Profit, Evaluate, FirstBest;
      c := Evaluate(m, Clamp(dx, m.lo, m.hi));
      EvaluateKeepsSize(m, Clamp(dx, m.lo, m.hi));
      EvaluateAddsUp(m, Clamp(dx, m.lo, m.hi));
      FirstBestGrows(m, tried, best, c.dx);
      evals := evals + 1;
      tried := tried + [c.dx];
      if best.None? || c.profit > best.value.profit { best := Some(c); }
    }

    function FloorAt(dx: real): real { Envelope(m, m.floorFee, Clamp(dx, m.lo, m.hi)) }

    // -------------------------------------------------------------------------------------------
    // Size cap

    /** Walks from the seed to the envelope's sign change. Past a cap below `hi`, no size earns anything. */
    method WalkCap(seed0: real) returns (cap: real, seed: real)
      requires Valid() && Faithful(m) && m.lo <= seed0 <= m.hi
      ensures m.lo <= seed <= cap <= m.hi && Walked(m, seed0, cap, seed)
      ensures cap < m.hi ==> Envelope(m, m.floorFee, cap) <= 0.0
      ensures cap < m.hi ==> forall dx :: cap <= dx <= m.hi ==> Profit(m, dx) <= 0.0
    {
      if FloorAt(seed0) > 0.0 {
        seed := seed0;
        cap := WalkUpFrom(seed0);
      } else {
        cap, seed := WalkDownFrom(seed0);
      }
      hide Envelope, Profit, Faithful;
    }

    method WalkUpFrom(seed0: real) returns (cap: real)
      requires Valid() && Faithful(m) && m.lo <= seed0 <= m.hi && Floats(m, seed0)
      ensures seed0 <= cap <= m.hi && exists n: nat :: WalkUp(m, seed0, cap, n)
      ensures cap < m.hi ==> forall dx :: cap <= dx <= m.hi ==> Profit(m, dx) <= 0.0
    {
      hide Faithful, Envelope, Profit, WalkUp;
      cap := m.hi;
      var guard, v := 0, seed0 * 9.0;
      while v < m.hi && guard < WALK
        invariant seed0 < v == Grow(seed0, guard + 1) && guard <= WALK
        invariant forall k :: 1 <= k <= guard ==> Grow(seed0, k) < m.hi && Floats(m, Grow(seed0, k))
        decreases WALK - guard
      {
        if !(FloorAt(v) > 0.0) {
          cap := v;
          CapIsSafe(m, seed0, cap);
          WalkUpEnds(m, seed0, cap, guard);
          return;
        }
        v, guard := v * 9.0, guard + 1;
      }
      WalkUpEnds(m, seed0, cap, guard);
    }

    /** The seed overshot the window: walks down to re-anchor it. */
    method WalkDownFrom(seed0: real) returns (cap: real, seed: real)
      requires Valid() && Faithful(m) && m.lo <= seed0 <= m.hi && !Floats(m, seed0)
      ensures m.lo <= seed <= cap <= m.hi && exists n: nat :: WalkDown(m, seed0, cap, seed, n)
      ensures cap < m.hi ==> forall dx :: cap <= dx <= m.hi ==> Profit(m, dx) <= 0.0
    {
      hide Faithful, Envelope, Profit, WalkDown;
      cap, seed := m.hi, seed0;
      var guard, v := 0, seed0 / 9.0;
      while guard < WALK
        invariant 0.0 < v < seed0 && v == Fall(seed0, guard + 1) && guard <= WALK
        invariant forall k :: 1 <= k <= guard ==> !Floats(m, Lowered(m, seed0, k))
        decreases WALK - guard
      {
        var vq := Max(v, m.lo);
        if FloorAt(vq) > 0.0 {
          cap, seed := Min(seed0, m.hi), vq;
          CapIsSafe(m, vq, cap);
          WalkDownEnds(m, seed0, cap, seed, guard);
          return;
        }
        if vq <= m.lo {
          WalkDownEnds(m, seed0, cap, seed, guard + 1);
          return;
        }
        v, guard := v / 9.0, guard + 1;
      }
      WalkDownEnds(m, seed0, cap, seed, guard);
    }

    // -------------------------------------------------------------------------------------------
    // Ladder

    /** Appends `v` to the first `n` points when `wanted`. */
    method Push(n: nat, wanted: bool, v: real) returns (n': nat)
      requires n < pts.Length
      modifies pts
      ensures n' == (if wanted then n + 1 else n) && n' <= pts.Length
      ensures pts[..n'] == old(pts[..n]) + When(wanted, v)
    {
      if !wanted { return n; }
      ghost var before := pts[..n];
      pts[n] := v;
      assert pts[..n] == before && pts[..n + 1] == before + [v];
      return n + 1;
    }

    /** The ends, the seed, the dip, and their factor-3 neighbours inside. */
    method StartLadder(low: real, cap: real, seed: real, dip: real) returns (n: nat)
      requires pts.Length == MAX_EVALS
      modifies pts
      ensures 3 <= n <= 8 && pts[..n] == Head(low, cap, seed, dip)
    {
      hide When;
      pts[0], pts[1], pts[2] := low, cap, seed;
      assert pts[..3] == [low, cap, seed];
      n := Push(3, seed / 3.0 > low, seed / 3.0);
      n := Push(n, seed * 3.0 < cap, seed * 3.0);
      n := Push(n, dip > 0.0, dip);
      n := Push(n, dip > 0.0 && dip / 3.0 > low, dip / 3.0);
      n := Push(n, dip > 0.0 && dip * 3.0 < cap, dip * 3.0);
    }

    /** Writes the unsorted ladder into the point array. */
    method BuildLadder(low: real, cap: real, seed: real, dip: real) returns (n: nat)
      requires pts.Length == MAX_EVALS
      modifies pts
      ensures 3 <= n <= MAX_RUNGS && pts[..n] == Raw(low, cap, seed, dip)
    {
      hide Head, Down, Up;
      n := StartLadder(low, cap, seed, dip);
      n := ExtendDown(n, low, seed);
      n := ExtendUp(n, cap, seed);
    }

    /** Factor-9 rungs from the seed down to `low`. */
    method ExtendDown(n0: nat, low: real, seed: real) returns (n: nat)
      requires pts.Length == MAX_EVALS && n0 <= 8
      modifies pts
      ensures n0 <= n <= LOW_RUNGS && pts[..n] == old(pts[..n0]) + Down(seed / 9.0, low, LOW_RUNGS - n0)
    {
      hide Down;
      n := n0;
      var v := seed / 9.0;
      while v > low && n < LOW_RUNGS
        invariant n0 <= n <= LOW_RUNGS
        invariant pts[..n] + Down(v, low, LOW_RUNGS - n) == old(pts[..n0]) + Down(seed / 9.0, low, LOW_RUNGS - n0)
        decreases LOW_RUNGS - n
      {
        NextDown(pts[..n], v, low, LOW_RUNGS - n);
        n := Push(n, true, v);
        v := v / 9.0;
      }
      NoneDown(pts[..n], v, low, LOW_RUNGS - n);
    }

    /** Factor-9 rungs from the seed up to `cap`. */
    method ExtendUp(n0: nat, cap: real, seed: real) returns (n: nat)
      requires pts.Length == MAX_EVALS && n0 <= LOW_RUNGS
      modifies pts
      ensures n0 <= n <= MAX_RUNGS && pts[..n] == old(pts[..n0]) + Up(seed * 9.0, cap, MAX_RUNGS - n0)
    {
      hide Up;
      n := n0;
      var v := seed * 9.0;
      while v < cap && n < MAX_RUNGS
        invariant n0 <= n <= MAX_RUNGS
        invariant pts[..n] + Up(v, cap, MAX_RUNGS - n) == old(pts[..n0]) + Up(seed * 9.0, cap, MAX_RUNGS - n0)
        decreases MAX_RUNGS - n
      {
        NextUp(pts[..n], v, cap, MAX_RUNGS - n);
        n := Push(n, true, v);
        v := v * 9.0;
      }
      NoneUp(pts[..n], v, cap, MAX_RUNGS - n);
    }

    /** Insertion sort of the first `n` points. */
    method SortLadder(n: nat)
      requires n <= pts.Length
      modifies pts
      ensures Increasing(pts[..n]) && multiset(pts[..n]) == multiset(old(pts[..n]))
    {
      hide Sunk;
      var k := 1;
      while k < n
        invariant 1 <= k && (n >= 1 ==> k <= n)
        invariant n >= 1 ==> Increasing(pts[..n][..k])
        invariant multiset(pts[..n]) == multiset(old(pts[..n]))
      {
        hide Increasing;
        SinkLast(k, n);
        k := k + 1;
      }
      if n >= 1 { assert pts[..n][..k] == pts[..n]; }
    }

    /** Moves point `k` down into the sorted points below it. */
    method SinkLast(k: nat, n: nat)
      requires 1 <= k < n <= pts.Length && Increasing(pts[..n][..k])
      modifies pts
      ensures Increasing(pts[..n][..k + 1]) && multiset(pts[..n]) == multiset(old(pts[..n]))
    {
      hide Increasing, Sunk;
      var j := k;
      SunkAtFirst(pts[..n], k);
      while j > 0 && pts[j] < pts[j - 1]
        invariant 0 <= j <= k
        invariant Sunk(pts[..n], j, k)
        invariant multiset(pts[..n]) == multiset(old(pts[..n]))
      {
        ghost var before := pts[..n];
        SunkStep(before, j, k);
        pts[j], pts[j - 1] := pts[j - 1], pts[j];
        assert pts[..n] == Swapped(before, j);
        j := j - 1;
      }
      SunkAtLast(pts[..n], j, k);
    }

    /** Merges points closer than the ratio into the lower one, in place. The last point survives exactly when
        it is not within the ratio of the last point kept before it. */
    method MergeLadder(n: nat) returns (kept: nat)
      requires 1 <= n <= pts.Length && Increasing(pts[..n]) && pts[0] > 0.0
      modifies pts
      ensures 1 <= kept <= n && Merged(old(pts[..n]), n, pts[..kept])
    {
      hide Merged, Increasing;
      kept := 0;
      ghost var was := pts[..n];
      MergedAtFirst(was);
      assert pts[..0] == [];
      var k := 0;
      while k < n
        invariant 0 <= kept <= k <= n && (k > 0 ==> kept > 0)
        invariant forall q :: k <= q < n ==> pts[q] == was[q]
        invariant Merged(was, k, pts[..kept])
      {
        ghost var prefix := pts[..kept];
        MergedStep(was, k, prefix);
        if kept == 0 || pts[k] > pts[kept - 1] * SAME {
          pts[kept] := pts[k];
          kept := kept + 1;
          assert pts[..kept] == prefix + [was[k]];
        }
        k := k + 1;
      }
    }

    // -------------------------------------------------------------------------------------------
    // Scan

    /** Evaluates the ladder. A last point that stands for the envelope cap gets its envelope value instead. */
    method ScanLadder(n: nat, capIsHi: bool) returns (index: nat)
      requires Valid() && 1 <= n <= MAX_RUNGS && evals == 0
      requires forall k :: 0 <= k < n ==> m.lo <= pts[k] <= m.hi
      modifies this, scan
      ensures Valid() && 1 <= evals <= n && index < n
      ensures forall k :: 0 <= k < n ==> scan[k].dx == pts[k] && scan[k].profit <= scan[index].profit
      ensures forall k :: 0 <= k < index ==> scan[k].profit < scan[index].profit
      ensures forall k :: 0 <= k < n && (k < n - 1 || capIsHi || n == 1) ==>
              scan[k] == Evaluate(m, pts[k]) && pts[k] in tried
      ensures !(capIsHi || n == 1) ==> scan[n - 1].profit == Envelope(m, m.floorFee, pts[n - 1])
    {
      hide Profit, Evaluate, FirstBest, Envelope;
      index := 0;
      for k := 0 to n
        invariant Valid() && evals <= k && (k > 0 ==> evals > 0) && (k == 0 ==> index == 0) && (k > 0 ==> index < k)
        invariant forall q :: 0 <= q < k ==> scan[q].dx == pts[q] && scan[q].profit <= scan[index].profit
        invariant forall q :: 0 <= q < index ==> scan[q].profit < scan[index].profit
        invariant forall q :: 0 <= q < k && (q < n - 1 || capIsHi || n == 1) ==>
                  scan[q] == Evaluate(m, pts[q]) && pts[q] in tried
        invariant k == n && !(capIsHi || n == 1) ==> scan[n - 1].profit == Envelope(m, m.floorFee, pts[n - 1])
      {
        if k == n - 1 && !capIsHi && n > 1 {
          assert Clamp(pts[k], m.lo, m.hi) == pts[k];
          scan[k] := Candidate(pts[k], 0.0, FloorAt(pts[k]), 0.0);
        } else {
          var c := EvalAt(pts[k]);
          EvaluateKeepsSize(m, pts[k]);
          scan[k] := c;
        }
        if scan[k].profit > scan[index].profit { index := k; }
      }
    }

    // -------------------------------------------------------------------------------------------
    // Refinement

    /** Parabolic steps with golden-section safeguards inside a bracket whose middle is highest. */
    method Refine(a0: real, b0: real, c0: real, pa0: real, pb0: real, pc0: real)
      returns (a: real, b: real, c: real, pa: real, pb: real, pc: real)
      requires Valid() && m.lo <= a0 < b0 < c0 <= m.hi && pb0 >= pa0 && pb0 >= pc0
      modifies this
      ensures Valid() && evals >= old(evals) && old(tried) <= tried
      ensures a0 <= a < b < c <= c0 && pb >= pa && pb >= pc && pb >= pb0
      ensures (b == b0 && pb == pb0) || (b != b0 && b in tried && pb == Profit(m, b) && pb > pb0)
      ensures Profit(m, a0) <= pa0 && Profit(m, c0) <= pc0 ==>
              (a == b0 || Profit(m, a) <= pb) && (c == b0 || Profit(m, c) <= pb)
      ensures pb0 == Profit(m, b0) && Profit(m, a0) <= pa0 && Profit(m, c0) <= pc0 ==> Peak(m, a, b, c)
      ensures evals == MAX_EVALS || c - a <= RESOLUTION * b
    {
      hide Profit, Evaluate, FirstBest;
      a, b, c, pa, pb, pc := a0, b0, c0, pa0, pb0, pc0;
      var last := c - a;
      var last2 := last;
      while evals < MAX_EVALS && c - a > RESOLUTION * b
        invariant Valid() && evals >= old(evals) && old(tried) <= tried
        invariant a0 <= a < b < c <= c0 && pb >= pa && pb >= pc && pb >= pb0
        invariant (b == b0 && pb == pb0) || (!(a < b0 < c) && b in tried && pb == Profit(m, b) && pb > pb0)
        invariant Profit(m, a0) <= pa0 && Profit(m, c0) <= pc0 ==>
                    (a == b0 || Profit(m, a) <= pa) && (c == b0 || Profit(m, c) <= pc)
        invariant pb0 == Profit(m, b0) && Profit(m, a0) <= pa0 && Profit(m, c0) <= pc0 ==>
                    pb == Profit(m, b) && Profit(m, a) <= pa && Profit(m, c) <= pc
        decreases MAX_EVALS - evals
      {
        var t := NextProbe(a, b, c, pa, pb, pc, last2);
        last2 := last;
        last := Abs(t - b);
        var cn := EvalAt(t);
        EvaluateKeepsSize(m, t);
        assert t in tried;
        if t < b {
          if cn.profit > pb { c, pc, b, pb := b, pb, t, cn.profit; } else { a, pa := t, cn.profit; }
        } else {
          if cn.profit > pb { a, pa, b, pb := b, pb, t, cn.profit; } else { c, pc := t, cn.profit; }
        }
      }
    }

    /** The next size to try: strictly inside the bracket and never its middle. It is the top of the parabola through
        the bracket where that is usable, and the golden section of the longer side otherwise. */
    static method NextProbe(a: real, b: real, c: real, pa: real, pb: real, pc: real, last2: real) returns (t: real)
      requires 0.0 < a < b < c && pb >= pa && pb >= pc
      ensures a < t < c && t != b
      ensures t == if Usable(a, b, c, pa, pb, pc, last2) then Vertex(b, b - a, c - b, pb - pa, pb - pc)
                   else Golden(b, b - a, c - b)
    {
      hide Bend, Lean;
      var d1, d2, ga, gc := b - a, c - b, pb - pa, pb - pc;
      var den := Bend(d1, d2, ga, gc);
      var margin := RESOLUTION * b / 4.0;
      t := Golden(b, d1, d2);
      if den > 0.0 {
        var tv := b - Lean(d1, d2, ga, gc) / (2.0 * den);
        var step := Abs(tv - b);
        if tv > a + margin && tv < c - margin && step >= margin && step <= last2 / 2.0 { t := tv; }
      }
    }

    /** When the best ladder point is at an end: up to three probes toward it look for a higher inner point, and the
        first one that beats the end gives a bracket with it. */
    method ProbeEnd(n: nat, index: nat) returns (found: bool, a: real, b: real, c: real, pa: real, pb: real, pc: real)
      requires Valid() && 2 <= n <= MAX_RUNGS && (index == 0 || index == n - 1)
      requires forall k :: 0 <= k < n ==> m.lo <= pts[k] <= m.hi && pts[k] > 0.0 && scan[k].profit <= scan[index].profit
      requires Spaced(pts[..n]) && forall k :: 0 <= k < n ==> Profit(m, pts[k]) <= scan[k].profit
      modifies this
      ensures Valid() && evals >= old(evals) && old(tried) <= tried
      ensures found ==> b in tried && pb == Profit(m, b) && pb > scan[index].profit
      ensures found ==> Profit(m, a) <= pa <= pb && Profit(m, c) <= pc <= pb
      ensures found ==> pts[Before(index)] <= a < b < c <= pts[After(n, index)]
      ensures !found ==> EndStands(m, tried, pts[index], scan[index].profit, pts[if index == n - 1 then n - 2 else 1])
    {
      hide Profit, Evaluate, FirstBest, EndStands, Spaced;
      var near := if index == n - 1 then n - 2 else 1;
      if index == n - 1 { SpacedIsStrict(pts[..n], n - 2, n - 1); } else { SpacedIsStrict(pts[..n], 0, 1); }
      found, a, b, c, pa, pb, pc := ProbeGap(pts[index], scan[index].profit, pts[near], scan[near].profit);
    }

    /** Probes from `end` toward `inner0`, each closer to the end, until one beats it. */
    method ProbeGap(end: real, endP: real, inner0: real, innerP0: real)
        returns (found: bool, a: real, b: real, c: real, pa: real, pb: real, pc: real)
      requires Valid() && m.lo <= end <= m.hi && m.lo <= inner0 <= m.hi && end != inner0
      requires Profit(m, inner0) <= innerP0 <= endP && Profit(m, end) <= endP
      modifies this
      ensures Valid() && evals >= old(evals) && old(tried) <= tried
      ensures found ==> b in tried && pb == Profit(m, b) && pb > endP
      ensures found ==> Profit(m, a) <= pa <= pb && Profit(m, c) <= pc <= pb && a < b < c
      ensures found ==> if inner0 < end then inner0 <= a && c == end else a == end && c <= inner0
      ensures !found ==> EndStands(m, tried, end, endP, inner0)
    {
      hide Profit, Evaluate, FirstBest, LostTo, EndStands, ProbeAt, Probe;
      found, a, b, c, pa, pb, pc := false, 0.0, 0.0, 0.0, 0.0, 0.0, 0.0;
      var atHi := inner0 < end;
      var inner, innerP, k := inner0, innerP0, 0;
      NoneLost(m, tried, end, endP, inner);
      while k < 3 && evals < MAX_EVALS && Abs(end - inner) > RESOLUTION * Max(end, inner)
        invariant 0 <= k <= 3 && Valid() && evals >= old(evals) && old(tried) <= tried
        invariant Profit(m, inner) <= innerP <= endP
        invariant if atHi then inner0 <= inner < end else end < inner <= inner0
        invariant inner == ProbeAt(end, inner0, k) && LostTo(m, tried, end, endP, inner0, k)
      {
        var t := Probe(end, inner);
        ProbeInside(end, inner);
        ghost var early := tried;
        var cp := EvalAt(t);
        EvaluateKeepsSize(m, t);
        if cp.profit > endP {
          if atHi { a, pa, b, pb, c, pc := inner, innerP, t, cp.profit, end, endP; }
          else { a, pa, b, pb, c, pc := end, endP, t, cp.profit, inner, innerP; }
          return true, a, b, c, pa, pb, pc;
        }
        OneMoreLost(m, early, t, end, endP, inner0, k);
        inner, innerP, k := t, cp.profit, k + 1;
      }
      ProbesStop(m, tried, end, endP, inner0, k);
    }

    /** A sharp local peak at the balance crossing may win after refinement: unless the best size is already near it,
        shrink a bracket around it until it is highest there, and refine that. */
    method RefineDip(n: nat, low: real, cap: real, dip: real, ghost p: Path) returns (ghost found: DipSearch)
      requires Valid() && 1 <= n <= MAX_RUNGS && best.Some? && dip > 0.0 && m.lo <= low <= dip <= cap <= m.hi
      requires p.low == low && p.cap == cap && p.dip == dip && p.rungs == pts[..n]
      requires forall k :: 0 <= k < n ==> scan[k].profit == Ordinate(m, p.rungs, cap, k)
      requires forall k :: 0 <= k < n && Measured(m, n, cap, k) ==> p.rungs[k] in tried
      requires p.bracket.Some? ==> p.bracket.value.b in tried
      modifies this
      ensures Valid() && old(tried) <= tried && DipKept(m, tried, p.(search := found))
    {
      hide Profit, Evaluate, FirstBest, Outdone, BasinKept, KnownAt, NearBest, Ordinate;
      if evals + 3 > MAX_EVALS { return Skipped; }
      if best.value.dx > dip / 2.0 && best.value.dx < dip * 2.0 {
        NearIsBest(m, tried, best.value, p);
        SkipNear(m, tried, p, best.value.dx);
        return Skipped;
      }
      var pb := DipValue(n, dip, p.rungs, cap);
      var settled, a, b, c := false, 0.0, 0.0, 0.0;
      for i := 0 to |FACTORS|
        invariant Valid() && old(tried) <= tried && KnownAt(m, tried, p.rungs, cap, dip, pb)
        invariant settled ==> exists j: nat :: Settled(m, tried, low, cap, dip, pb, j, Bracket(a, b, c))
        invariant !settled ==> forall j :: 0 <= j < i ==>
                  evals + 2 > MAX_EVALS || Outdone(m, tried, low, cap, dip, pb, j)
      {
        if !settled && evals + 2 <= MAX_EVALS {
          ghost var early := tried;
          settled, a, b, c := TryDip(low, cap, dip, pb, i);
          TriedStays(early, tried);
          KnownStays(m, early, tried, p.rungs, cap, dip, pb);
          forall j | 0 <= j < i && Outdone(m, early, low, cap, dip, pb, j)
            ensures Outdone(m, tried, low, cap, dip, pb, j)
          {
            OutdoneStays(m, early, tried, low, cap, dip, pb, j);
          }
          if settled { assert Settled(m, tried, low, cap, dip, pb, i, Bracket(a, b, c)); }
        }
      }
      found := Sought(pb, if settled then Some(Bracket(a, b, c)) else None);
    }

    /** Reuses the scan's value at the dip point, or evaluates it. */
    method DipValue(n: nat, dip: real, ghost rungs: seq<real>, ghost cap: real) returns (pb: real)
      requires Valid() && 1 <= n <= MAX_RUNGS && evals + 3 <= MAX_EVALS && m.lo <= dip <= m.hi && rungs == pts[..n]
      requires forall k :: 0 <= k < n ==> scan[k].profit == Ordinate(m, rungs, cap, k)
      modifies this
      ensures Valid() && old(evals) <= evals <= old(evals) + 1 && old(tried) <= tried
      ensures KnownAt(m, tried, rungs, cap, dip, pb)
    {
      hide Profit, Evaluate, FirstBest, Ordinate;
      for k := 0 to n {
        if Abs(pts[k] - dip) <= dip * 0.000000001 {
          assert rungs[k] == pts[k];
          return scan[k].profit;
        }
      }
      var c := EvalAt(dip);
      EvaluateKeepsSize(m, dip);
      pb := c.profit;
    }

    /** One bracket around the dip. */
    method TryDip(low: real, cap: real, dip: real, pb: real, i: nat) returns (settled: bool, a: real, b: real, c: real)
      requires Valid() && i < |FACTORS| && evals + 2 <= MAX_EVALS && m.lo <= low <= dip <= cap <= m.hi
      modifies this
      ensures Valid() && evals >= old(evals) && old(tried) <= tried
      ensures settled ==> BasinKept(m, tried, low, cap, dip, pb, i, Bracket(a, b, c))
      ensures !settled ==> Outdone(m, tried, low, cap, dip, pb, i)
    {
      hide Profit, Evaluate, FirstBest, DipLow, DipHigh;
      DipWithin(low, cap, dip, i);
      var da, dc := Max(low, dip / FACTORS[i]), Min(cap, dip * FACTORS[i]);
      assert da == DipLow(low, dip, i) && dc == DipHigh(cap, dip, i);
      if !(da < dip < dc) { return false, 0.0, 0.0, 0.0; }
      var ca := EvalAt(da);
      var cc := EvalAt(dc);
      EvaluateKeepsSize(m, da);
      EvaluateKeepsSize(m, dc);
      if !(pb >= ca.profit && pb >= cc.profit) {
        assert da in tried && dc in tried;
        return false, 0.0, 0.0, 0.0;
      }
      ghost var early := tried;
      assert da in early && dc in early;
      var a', b', c', _, _, _ := Refine(da, dip, dc, ca.profit, pb, cc.profit);
      TriedStays(early, tried);
      return true, a', b', c';
    }

    // -------------------------------------------------------------------------------------------
    // The whole decision

    /** How far below the seed the ladder reaches. */
    static function LowCover(lo: real, seed: real, dip: real, shallow: bool): real {
      if shallow then Max(lo, Min(seed, if dip > 0.0 then dip else seed) / 27.0) else lo
    }

    function DipOf(crossing: Option<real>, native: bool, cap: real): real {
      if native && crossing.Some? && m.lo < crossing.value < cap then crossing.value else 0.0
    }

    /** Sizes one direction. `tradeOnly` callers take only profitable trades, so a screened direction is dropped.
        The answer is the best of all sizes tried, and `path` says how they were come by. */
    method Decide(sc: TradeScreen.Scale, sqrt: real -> real, seed0: real, crossing: Option<real>,
                  native: bool, ordered: bool, tradeOnly: bool) returns (d: Decision, ghost path: Path)
      requires Valid() && tried == [] && Faithful(m) && TradeScreen.Faithful(sc)
      modifies this, pts, scan
      ensures Valid()
      // screening
      ensures !d.sized <==> tradeOnly && TradeScreen.Screens(sc, EnvelopeOf(m, m.screenFee), m.lo, m.hi)
      ensures !d.sized ==> d == NOTHING && tried == [] && forall dx :: m.lo <= dx <= m.hi ==> Profit(m, dx) < 0.0
      // the answer
      ensures d.sized ==> best == Some(d.c) && d.c == Evaluate(m, d.c.dx) && m.lo <= d.c.dx <= m.hi && 1 <= evals
      ensures d.sized ==> (d.go <==> d.c.profit > 0.0) && AddsUp(m, d.c) && |tried| <= 24
      ensures d.sized ==> forall k :: 0 <= k < |tried| ==> Profit(m, tried[k]) <= d.c.profit
      // the sizes tried
      ensures d.sized ==> m.lo <= path.low <= path.seed <= path.cap <= m.hi
      ensures d.sized ==> Walked(m, Clamp(seed0, m.lo, m.hi), path.cap, path.seed)
      ensures d.sized ==> path.dip == DipOf(crossing, native, path.cap)
      ensures d.sized ==> path.low == LowCover(m.lo, path.seed, path.dip, native && ordered)
      ensures d.sized ==> LadderKept(m, path.searched, path)
      ensures d.sized ==> RefinementKept(m, path.searched, path)
      ensures d.sized ==> DipKept(m, path.searched, path)
      ensures d.sized ==> tried == path.searched + if native then Smallest(m, sqrt, path.low, path.searched) else []
      // what the answer beats
      ensures d.sized ==> CapKept(m, path.cap) && RungsKept(m, path.rungs, path.cap, d.c.profit)
      ensures d.sized && path.bracket.Some? ==> PeakKept(m, path.bracket.value, d.c.profit)
      ensures d.sized ==> GapKept(m, path, d.c.profit)
    {
      hide Profit, Evaluate, Faithful, TradeScreen.Faithful, TradeScreen.Screens, Envelope, Concave, LowCover,
           FirstBest, Spaced, Within, Walked, LadderKept, RefinementKept, DipKept, Smallest, RungsKept, PeakKept,
           IsLadder, Peak, GapKept;
      path := Path(0.0, 0.0, 0.0, 0.0, [], 0, None, Skipped, []);
      if tradeOnly {
        var screened := ScreenOut(sc);
        if screened { return NOTHING, path; }
      }
      var cap, seed := WalkCap(Clamp(seed0, m.lo, m.hi));
      var dip := 0.0;
      if native && crossing.Some? && m.lo < crossing.value < cap { dip := crossing.value; }
      var low := LowCover(m.lo, seed, dip, native && ordered);
      LowCoverBelow(m.lo, seed, dip, native && ordered);
      path := Maximise(low, cap, seed, dip);
      if native { ProbeSmallest(sqrt, low); }
      d := Decision(true, best.value.profit > 0.0, best.value);
      BestIsMost(m, tried, best.value);
      EvaluateAddsUp(m, best.value.dx);
      PathBeaten(m, path, tried, best.value);
    }

    /** Scans the ladder, refines its best bracket, and refines the dip's basin. */
    method Maximise(low: real, cap: real, seed: real, dip: real) returns (ghost path: Path)
      requires Valid() && Faithful(m) && tried == [] && m.lo <= low <= seed <= cap <= m.hi
      requires dip > 0.0 ==> low <= dip <= cap
      modifies this, pts, scan
      ensures Valid() && best.Some? && 1 <= evals && path.searched == tried
      ensures path.low == low && path.cap == cap && path.seed == seed && path.dip == dip
      ensures LadderKept(m, tried, path) && RefinementKept(m, tried, path) && DipKept(m, tried, path)
    {
      hide Profit, Evaluate, Faithful, FirstBest, Spaced, Peak, Within, Wins, IsLadder, BracketKept, EndKept, DipKept,
           Ordinate, Walked;
      var n, index := Ladder(low, cap, seed, dip);
      ghost var rungs, laddered := pts[..n], tried;
      RungsWithin(low, cap, seed, dip, rungs);
      path := Path(low, cap, seed, dip, rungs, index, None, Skipped, []);
      assert LadderKept(m, tried, path);
      var refined, a, b, c := RefineLadder(n, index, rungs, cap);
      path := path.(bracket := if refined then Some(Bracket(a, b, c)) else None);
      TriedStays(laddered, tried);
      BracketIsTried(m, tried, path);
      ghost var refinedBy := tried;
      if dip > 0.0 {
        ghost var search := RefineDip(n, low, cap, dip, path);
        path := path.(search := search);
        TriedStays(refinedBy, tried);
        RefinementStays(m, refinedBy, tried, path);
      } else {
        NoDip(m, tried, path);
      }
      SearchedAside(m, tried, path, tried);
      path := path.(searched := tried);
    }

    /** Native ladders skip the bottom of the range: when nothing was positive, the smallest size is tried. */
    method ProbeSmallest(sqrt: real -> real, low: real)
      requires Valid() && best.Some?
      modifies this
      ensures Valid() && best.Some? && tried == old(tried) + Smallest(m, sqrt, low, old(tried))
    {
      hide Profit, Evaluate, FirstBest, SomePays, Midway;
      PaysIfBestDoes(m, tried, best.value);
      if best.value.profit > 0.0 || evals == MAX_EVALS { return; }
      ghost var searched := tried;
      EvaluateKeepsSize(m, m.lo);
      var c := EvalAt(m.lo);
      if c.profit > 0.0 && low > 3.0 * m.lo && evals < MAX_EVALS {
        var _ := EvalAt(Midway(sqrt, m.lo, low));
        assert tried == searched + [m.lo, Clamp(Midway(sqrt, m.lo, low), m.lo, m.hi)];
      }
    }

    method ScreenOut(sc: TradeScreen.Scale) returns (screened: bool)
      requires 0.0 < m.lo < m.hi && Faithful(m) && TradeScreen.Faithful(sc)
      ensures screened <==> TradeScreen.Screens(sc, EnvelopeOf(m, m.screenFee), m.lo, m.hi)
      ensures screened ==> forall dx :: m.lo <= dx <= m.hi ==> Profit(m, dx) < 0.0
      ensures !screened ==> TradeScreen.Undecided(sc, EnvelopeOf(m, m.screenFee), m.lo, m.hi)
    {
      hide Profit, TradeScreen.Faithful, Envelope, Concave, TradeScreen.Screens, TradeScreen.Undecided;
      EnvelopeOfConcave(m, m.screenFee);
      var f := EnvelopeOf(m, m.screenFee);
      screened := TradeScreen.Screen(sc, f, m.lo, m.hi);
      if screened {
        forall dx | m.lo <= dx <= m.hi ensures Profit(m, dx) < 0.0 {
          assert f(dx) < 0.0;
          EnvelopeDominates(m, m.screenFee, dx);
        }
      }
    }

    /** Builds, sorts, merges and scans the ladder. */
    method Ladder(low: real, cap: real, seed: real, dip: real) returns (n: nat, index: nat)
      requires Valid() && Faithful(m) && tried == [] && m.lo <= low <= seed <= cap <= m.hi
      requires dip > 0.0 ==> low <= dip <= cap
      modifies this, pts, scan
      ensures Valid() && 1 <= n <= MAX_RUNGS && index < n && 1 <= evals <= n
      ensures IsLadder(low, cap, seed, dip, pts[..n]) && Wins(m, pts[..n], cap, index)
      ensures forall k :: 0 <= k < n ==> m.lo <= pts[k] <= m.hi && Profit(m, pts[k]) <= scan[k].profit
      ensures forall k :: 0 <= k < n ==> scan[k].profit == Ordinate(m, pts[..n], cap, k)
      ensures forall k :: 0 <= k < n && Measured(m, n, cap, k) ==>
              pts[k] in tried && scan[k].profit == Profit(m, pts[k])
    {
      hide Profit, Evaluate, FirstBest, IsLadder, Envelope, Faithful, Concave;
      n := BuildMerged(low, cap, seed, dip);
      RungsWithin(low, cap, seed, dip, pts[..n]);
      assert forall k :: 0 <= k < n ==> pts[..n][k] == pts[k];
      var capIsHi := cap >= m.hi * (1.0 - 0.000000001);
      index := ScanLadder(n, capIsHi);
      forall k | 0 <= k < n
        ensures Profit(m, pts[k]) <= scan[k].profit && scan[k].profit == Ordinate(m, pts[..n], cap, k)
      {
        EvaluateKeepsSize(m, pts[k]);
        FloorAbove(m, pts[k]);
      }
    }

    method BuildMerged(low: real, cap: real, seed: real, dip: real) returns (n: nat)
      requires Valid() && 0.0 < low <= seed <= cap && (dip > 0.0 ==> low <= dip <= cap)
      modifies pts
      ensures 1 <= n <= MAX_RUNGS && IsLadder(low, cap, seed, dip, pts[..n])
    {
      hide Increasing, Merged, IsLadder, Raw;
      var built := BuildLadder(low, cap, seed, dip);
      ghost var raw := pts[..built];
      SortLadder(built);
      ghost var sorted := pts[..built];
      RawWithin(low, cap, seed, dip);
      WithinPermutes(raw, sorted, low, cap);
      WithinEach(sorted, low, cap);
      assert pts[0] == sorted[0];
      n := MergeLadder(built);
      MergedIsLadder(low, cap, seed, dip, sorted, pts[..n]);
    }

    /** Refines around the best ladder point, down to the resolution or the budget. */
    method RefineLadder(n: nat, index: nat, ghost rungs: seq<real>, ghost cap: real)
        returns (refined: bool, a: real, b: real, c: real)
      requires Valid() && 1 <= n <= MAX_RUNGS && index < n && Spaced(pts[..n]) && rungs == pts[..n]
      requires Wins(m, rungs, cap, index)
      requires forall k :: 0 <= k < n ==> m.lo <= pts[k] <= m.hi && Profit(m, pts[k]) <= scan[k].profit
      requires forall k :: 0 <= k < n ==> scan[k].profit == Ordinate(m, rungs, cap, k)
      requires forall k :: 0 <= k < n - 1 ==> pts[k] in tried && scan[k].profit == Profit(m, pts[k])
      modifies this
      ensures Valid() && evals >= old(evals) && old(tried) <= tried
      ensures refined ==> BracketKept(m, tried, rungs, cap, index, Bracket(a, b, c))
      ensures !refined ==> EndKept(m, tried, rungs, cap, index)
    {
      hide Profit, Evaluate, FirstBest, Ordinate, Spaced, EndStands;
      refined, a, b, c := false, 0.0, 0.0, 0.0;
      var pa, pb, pc;
      if 0 < index < n - 1 {
        SpacedIsStrict(pts[..n], index - 1, index);
        SpacedIsStrict(pts[..n], index, index + 1);
        ghost var early := tried;
        a, b, c, pa, pb, pc := Refine(pts[index - 1], pts[index], pts[index + 1], scan[index - 1].profit,
                                      scan[index].profit, scan[index + 1].profit);
        TriedStays(early, tried);
        refined := true;
      } else if n >= 2 {
        refined, a, b, c, pa, pb, pc := ProbeEnd(n, index);
        ghost var early := tried;
        if refined { a, b, c, pa, pb, pc := Refine(a, b, c, pa, pb, pc); }
        TriedStays(early, tried);
      }
    }
  }

  /** `c` is the earliest of the most profitable sizes tried. */
  ghost predicate FirstBest(m: Market, tried: seq<real>, c: Candidate) {
    && c == Evaluate(m, c.dx)
    && exists k :: 0 <= k < |tried| && tried[k] == c.dx
         && (forall j :: 0 <= j < k ==> Profit(m, tried[j]) < c.profit)
         && (forall j :: k <= j < |tried| ==> Profit(m, tried[j]) <= c.profit)
  }

  lemma BestIsMost(m: Market, tried: seq<real>, c: Candidate)
    requires FirstBest(m, tried, c)
    ensures forall k :: 0 <= k < |tried| ==> Profit(m, tried[k]) <= c.profit
    ensures c == Evaluate(m, c.dx) && c.dx in tried
  {
    hide Profit;
  }

  lemma TriedStays(early: seq<real>, late: seq<real>)
    requires early <= late
    ensures forall x :: x in early ==> x in late
  {
    forall x | x in early ensures x in late {
      var j :| 0 <= j < |early| && early[j] == x;
      assert late[j] == x;
    }
  }

  lemma OutdoneStays(m: Market, early: seq<real>, late: seq<real>, low: real, cap: real, dip: real, pb: real, i: nat)
    requires i < |FACTORS| && Outdone(m, early, low, cap, dip, pb, i) && forall x :: x in early ==> x in late
    ensures Outdone(m, late, low, cap, dip, pb, i)
  {
    hide Profit, DipLow, DipHigh;
  }

  lemma KnownStays(m: Market, early: seq<real>, late: seq<real>, rungs: seq<real>, cap: real, dip: real, value: real)
    requires KnownAt(m, early, rungs, cap, dip, value) && forall x :: x in early ==> x in late
    ensures KnownAt(m, late, rungs, cap, dip, value)
  {
    hide Profit, Ordinate;
  }

  lemma DipWithin(low: real, cap: real, dip: real, i: nat)
    requires i < |FACTORS|
    ensures low <= DipLow(low, dip, i) && DipHigh(cap, dip, i) <= cap
    ensures Max(low, dip / FACTORS[i]) == DipLow(low, dip, i) && Min(cap, dip * FACTORS[i]) == DipHigh(cap, dip, i)
  {
    assert FACTORS[i] == Factor(i);
  }

  /** The best size tried, when near the dip, beats the measured rungs and the refined bracket. */
  lemma NearIsBest(m: Market, tried: seq<real>, c: Candidate, p: Path)
    requires FirstBest(m, tried, c) && p.dip / 2.0 < c.dx < p.dip * 2.0
    requires forall k :: 0 <= k < |p.rungs| && Measured(m, |p.rungs|, p.cap, k) ==> p.rungs[k] in tried
    requires p.bracket.Some? ==> p.bracket.value.b in tried
    ensures c.dx in tried && NearBest(m, p, c.dx)
  {
    BestIsMost(m, tried, c);
    assert c.profit == Profit(m, c.dx);
    hide Profit, Evaluate, FirstBest, Measured;
    forall x | x in tried ensures Profit(m, x) <= c.profit { TriedIsBeaten(m, tried, c.profit, x); }
  }

  lemma BracketIsTried(m: Market, tried: seq<real>, p: Path)
    requires RefinementKept(m, tried, p)
    ensures p.bracket.Some? ==> p.bracket.value.b in tried
  {}

  /** More trying keeps what refinement found. */
  lemma RefinementStays(m: Market, early: seq<real>, late: seq<real>, p: Path)
    requires RefinementKept(m, early, p) && early <= late && |late| <= MAX_EVALS
    ensures RefinementKept(m, late, p)
  {
    TriedStays(early, late);
    hide Profit, Ordinate, Peak;
    match p.bracket
    case Some(t) =>
    case None =>
      if |p.rungs| > 1 {
        var near := if p.win == 0 then 1 else p.win - 1;
        EndStays(m, early, late, p.rungs[p.win], Ordinate(m, p.rungs, p.cap, p.win), p.rungs[near]);
        hide EndStands;
      }
  }

  lemma EndStays(m: Market, early: seq<real>, late: seq<real>, end: real, top: real, inner: real)
    requires EndStands(m, early, end, top, inner) && early <= late && |late| <= MAX_EVALS
    ensures EndStands(m, late, end, top, inner)
  {
    TriedStays(early, late);
    hide Profit, ProbeAt;
    var j: nat :| LostTo(m, early, end, top, inner, j) && ProbesEnd(early, end, inner, j);
    assert LostTo(m, late, end, top, inner, j) && ProbesEnd(late, end, inner, j);
  }

  lemma SkipNear(m: Market, tried: seq<real>, p: Path, x: real)
    requires x in tried && NearBest(m, p, x)
    ensures DipKept(m, tried, p.(search := Skipped))
  {
    hide Profit, Measured;
    assert NearBest(m, p.(search := Skipped), x);
  }

  /** The record of what was searched is no part of the claims about it. */
  lemma SearchedAside(m: Market, tried: seq<real>, p: Path, searched: seq<real>)
    ensures LadderKept(m, tried, p) == LadderKept(m, tried, p.(searched := searched))
    ensures RefinementKept(m, tried, p) == RefinementKept(m, tried, p.(searched := searched))
    ensures DipKept(m, tried, p) == DipKept(m, tried, p.(searched := searched))
  {
    hide Profit, Measured, Outdone, KnownAt, BasinKept, BracketKept, EndKept, IsLadder, Wins;
    forall x ensures NearBest(m, p, x) == NearBest(m, p.(searched := searched), x) {}
    hide NearBest;
  }

  lemma NoDip(m: Market, tried: seq<real>, p: Path)
    requires p.dip <= 0.0 && p.search == Skipped
    ensures DipKept(m, tried, p)
  {}

  lemma NoneLost(m: Market, tried: seq<real>, end: real, top: real, inner: real)
    ensures LostTo(m, tried, end, top, inner, 0) && ProbeAt(end, inner, 0) == inner
  {}

  lemma OneMoreLost(m: Market, early: seq<real>, t: real, end: real, top: real, inner: real, j: nat)
    requires LostTo(m, early, end, top, inner, j) && Profit(m, t) <= top
    requires t == Probe(end, ProbeAt(end, inner, j))
    ensures LostTo(m, early + [t], end, top, inner, j + 1) && t == ProbeAt(end, inner, j + 1)
  {
    TriedStays(early, early + [t]);
    assert (early + [t])[|early|] == t;
    assert t == ProbeAt(end, inner, j + 1);
    hide Profit, ProbeAt;
  }

  lemma ProbesStop(m: Market, tried: seq<real>, end: real, top: real, inner: real, j: nat)
    requires LostTo(m, tried, end, top, inner, j) && ProbesEnd(tried, end, inner, j)
    ensures EndStands(m, tried, end, top, inner)
  {
    hide LostTo, ProbesEnd;
  }

  /** Rungs lie within the range, spaced and positive. */
  lemma RungsWithin(low: real, cap: real, seed: real, dip: real, rungs: seq<real>)
    requires IsLadder(low, cap, seed, dip, rungs)
    ensures Spaced(rungs) && forall k :: 0 <= k < |rungs| ==> low <= rungs[k] <= cap
  {}

  lemma TriedIsBeaten(m: Market, tried: seq<real>, most: real, x: real)
    requires x in tried && forall k :: 0 <= k < |tried| ==> Profit(m, tried[k]) <= most
    ensures Profit(m, x) <= most
  {}

  lemma LadderIsLadder(m: Market, tried: seq<real>, p: Path)
    requires LadderKept(m, tried, p)
    ensures IsLadder(p.low, p.cap, p.seed, p.dip, p.rungs) && p.win < |p.rungs|
  {}

  /** The best size tried beats the measured rungs. */
  lemma RungsBeaten(m: Market, p: Path, tried: seq<real>, c: Candidate)
    requires p.searched <= tried && LadderKept(m, p.searched, p)
    requires forall k :: 0 <= k < |tried| ==> Profit(m, tried[k]) <= c.profit
    ensures RungsKept(m, p.rungs, p.cap, c.profit)
  {
    hide Profit, Wins, Measured;
    TriedStays(p.searched, tried);
    RungsWithin(p.low, p.cap, p.seed, p.dip, p.rungs);
    hide IsLadder, Spaced;
    forall k | 0 <= k < |p.rungs| && Measured(m, |p.rungs|, p.cap, k) ensures Profit(m, p.rungs[k]) <= c.profit {
      TriedIsBeaten(m, tried, c.profit, p.rungs[k]);
    }
  }

  /** A bracket kept around a rung lies within the allowed sizes. */
  lemma BracketWithin(m: Market, tried: seq<real>, p: Path, t: Bracket)
    requires m.lo <= p.low && p.cap <= m.hi && IsLadder(p.low, p.cap, p.seed, p.dip, p.rungs)
    requires RefinementKept(m, tried, p) && p.bracket == Some(t)
    ensures m.lo <= t.a < t.b < t.c <= m.hi && Peak(m, t.a, t.b, t.c) && t.b in tried
  {
    hide Profit, Ordinate, Peak;
    RungsWithin(p.low, p.cap, p.seed, p.dip, p.rungs);
    hide IsLadder;
    assert BracketKept(m, tried, p.rungs, p.cap, p.win, t);
  }

  /** The best size tried beats a bracket's surroundings where profit is concave. */
  lemma BracketBeaten(m: Market, t: Bracket, searched: seq<real>, tried: seq<real>, c: Candidate)
    requires m.lo <= t.a < t.b < t.c <= m.hi && Peak(m, t.a, t.b, t.c) && t.b in searched && searched <= tried
    requires forall k :: 0 <= k < |tried| ==> Profit(m, tried[k]) <= c.profit
    ensures PeakKept(m, t, c.profit)
  {
    hide Profit, Concave, Peak;
    TriedStays(searched, tried);
    TriedIsBeaten(m, tried, c.profit, t.b);
    if Concave(ProfitOf(m), m.lo, m.hi) {
      forall x | m.lo <= x <= m.hi && !(t.a < x < t.c) ensures Profit(m, x) <= c.profit {
        OutsideLoses(m, t.a, t.b, t.c, x);
      }
    }
  }

  lemma {:induction false} ProbeBetween(end: real, inner: real, j: nat)
    requires end != inner
    ensures if end < inner then end < ProbeAt(end, inner, j) <= inner else inner <= ProbeAt(end, inner, j) < end
  {
    if j > 0 { ProbeBetween(end, inner, j - 1); }
  }

  /** An end that stands, against a neighbour no higher. */
  lemma EndBeaten(m: Market, tried: seq<real>, end: real, inner: real, most: real)
    requires m.lo <= end <= m.hi && m.lo <= inner <= m.hi && end != inner
    requires Profit(m, inner) <= Profit(m, end) <= most && EndStands(m, tried, end, Profit(m, end), inner)
    ensures BeyondProbe(m, tried, end, inner, most)
  {
    hide Profit, Concave, LostTo, ProbesEnd;
    var j: nat :| LostTo(m, tried, end, Profit(m, end), inner, j) && ProbesEnd(tried, end, inner, j);
    var probe := ProbeAt(end, inner, j);
    ProbeBetween(end, inner, j);
    LastProbe(m, tried, end, Profit(m, end), inner, j);
    hide ProbeAt;
    if Concave(ProfitOf(m), m.lo, m.hi) {
      forall x | m.lo <= x <= m.hi && (if end < probe then probe <= x else x <= probe) ensures Profit(m, x) <= most {
        var f := ProfitOf(m);
        assert f(x) == Profit(m, x) && f(end) == Profit(m, end) && f(probe) == Profit(m, probe);
        if end < probe {
          FallingRight(f, m.lo, m.hi, end, probe, x);
        } else {
          RisingLeft(f, m.lo, m.hi, x, probe, end);
        }
      }
    }
    assert BeyondLoses(m, end, probe, most);
  }

  lemma LastProbe(m: Market, tried: seq<real>, end: real, top: real, inner: real, j: nat)
    requires LostTo(m, tried, end, top, inner, j) && Profit(m, inner) <= top
    ensures Profit(m, ProbeAt(end, inner, j)) <= top
  {
    hide Profit;
  }

  lemma OrdinateAbove(m: Market, rungs: seq<real>, cap: real, k: nat)
    requires Faithful(m) && k < |rungs| && m.lo <= rungs[k] <= m.hi
    ensures Profit(m, rungs[k]) <= Ordinate(m, rungs, cap, k)
  {
    FloorAbove(m, rungs[k]);
    hide Profit, Envelope;
  }

  /** A measured end that stands against the rung next to it. */
  lemma EndAgainst(m: Market, tried: seq<real>, rungs: seq<real>, cap: real, win: nat, near: nat, most: real)
    requires Faithful(m) && win < |rungs| && near < |rungs| && rungs[win] != rungs[near]
    requires m.lo <= rungs[win] <= m.hi && m.lo <= rungs[near] <= m.hi
    requires Measured(m, |rungs|, cap, win) && Profit(m, rungs[win]) <= most
    requires Ordinate(m, rungs, cap, near) <= Ordinate(m, rungs, cap, win)
    requires EndStands(m, tried, rungs[win], Ordinate(m, rungs, cap, win), rungs[near])
    ensures BeyondProbe(m, tried, rungs[win], rungs[near], most)
  {
    assert Ordinate(m, rungs, cap, win) == Profit(m, rungs[win]);
    OrdinateAbove(m, rungs, cap, near);
    hide Profit, Ordinate, Measured, EndStands, BeyondProbe, Faithful;
    EndBeaten(m, tried, rungs[win], rungs[near], most);
  }

  lemma EndsBeaten(m: Market, p: Path, most: real)
    requires Faithful(m) && m.lo <= p.low && p.cap <= m.hi && p.bracket.None? && p.win < |p.rungs|
    requires LadderKept(m, p.searched, p) && RefinementKept(m, p.searched, p) && RungsKept(m, p.rungs, p.cap, most)
    ensures GapKept(m, p, most)
  {
    hide Profit, Ordinate, Faithful, EndStands, BeyondProbe, Spaced, IsLadder, Measured, Wins, RungsKept;
    LadderIsLadder(m, p.searched, p);
    RungsWithin(p.low, p.cap, p.seed, p.dip, p.rungs);
    RungsPositive(m, p);
    var n := |p.rungs|;
    WinnerIs(m, p, most);
    hide LadderKept;
    if p.win == 0 && n > 1 {
      SpacedIsStrict(p.rungs, 0, 1);
      FirstIsMeasured(m, n, p.cap);
      EndAgainst(m, p.searched, p.rungs, p.cap, 0, 1, most);
    }
    if 0 < p.win == n - 1 && Measured(m, n, p.cap, p.win) {
      SpacedIsStrict(p.rungs, p.win - 1, p.win);
      EndAgainst(m, p.searched, p.rungs, p.cap, p.win, p.win - 1, most);
    }
  }

  lemma WinnerIs(m: Market, p: Path, most: real)
    requires LadderKept(m, p.searched, p) && RungsKept(m, p.rungs, p.cap, most)
    ensures p.win < |p.rungs|
    ensures forall k :: 0 <= k < |p.rungs| ==>
              Ordinate(m, p.rungs, p.cap, k) <= Ordinate(m, p.rungs, p.cap, p.win)
    ensures Measured(m, |p.rungs|, p.cap, p.win) ==> Profit(m, p.rungs[p.win]) <= most
  {
    hide Profit, Ordinate, IsLadder, Measured, Spaced;
  }

  lemma FirstIsMeasured(m: Market, n: nat, cap: real)
    requires n > 1
    ensures Measured(m, n, cap, 0)
  {}

  lemma RungsPositive(m: Market, p: Path)
    requires Faithful(m) && m.lo <= p.low && IsLadder(p.low, p.cap, p.seed, p.dip, p.rungs)
    ensures forall k :: 0 <= k < |p.rungs| ==> p.rungs[k] > 0.0
  {}

  lemma PathBeaten(m: Market, p: Path, tried: seq<real>, c: Candidate)
    requires Faithful(m) && m.lo <= p.low && p.cap <= m.hi && p.searched <= tried
    requires LadderKept(m, p.searched, p) && RefinementKept(m, p.searched, p)
    requires forall k :: 0 <= k < |tried| ==> Profit(m, tried[k]) <= c.profit
    ensures RungsKept(m, p.rungs, p.cap, c.profit)
    ensures p.bracket.Some? ==> PeakKept(m, p.bracket.value, c.profit)
    ensures GapKept(m, p, c.profit)
  {
    hide Profit, IsLadder, Peak, RungsKept, PeakKept, LadderKept, RefinementKept, Spaced, BeyondProbe, Faithful;
    RungsBeaten(m, p, tried, c);
    LadderIsLadder(m, p.searched, p);
    if p.bracket.Some? {
      BracketWithin(m, p.searched, p, p.bracket.value);
      BracketBeaten(m, p.bracket.value, p.searched, tried, c);
    } else {
      EndsBeaten(m, p, c.profit);
    }
  }

  function EnvelopeOf(m: Market, fee: real): real -> real { (dx: real) => Envelope(m, fee, dx) }

  lemma EnvelopeOfConcave(m: Market, fee: real)
    requires Concave(m.output, m.lo, m.hi)
    ensures Concave(EnvelopeOf(m, fee), m.lo, m.hi)
  {
    EnvelopeConcave(m, fee);
    hide Envelope;
    ConcaveAgrees((dx: real) => Envelope(m, fee, dx), EnvelopeOf(m, fee), m.lo, m.hi);
  }

  /** Where profit is concave, no size outside a bracket with its middle highest beats that middle. */
  lemma OutsideLoses(m: Market, a: real, b: real, c: real, x: real)
    requires Concave(ProfitOf(m), m.lo, m.hi) && m.lo <= a < b < c <= m.hi && Peak(m, a, b, c)
    requires m.lo <= x <= m.hi && !(a < x < c)
    ensures Profit(m, x) <= Profit(m, b)
  {
    hide Profit, Concave;
    var f := ProfitOf(m);
    assert f(a) == Profit(m, a) && f(b) == Profit(m, b) && f(c) == Profit(m, c) && f(x) == Profit(m, x);
    if x <= a { RisingLeft(f, m.lo, m.hi, x, a, b); } else { FallingRight(f, m.lo, m.hi, b, c, x); }
  }

  /** Profit is concave when every size pays the same fee. */
  lemma FlatFeeIsConcave(m: Market, fee: real)
    requires Concave(m.output, m.lo, m.hi) && 1.0 - fee >= LEAST
    requires forall dx :: m.lo <= dx <= m.hi ==> m.fee(dx) == fee
    ensures Concave(ProfitOf(m), m.lo, m.hi)
  {
    EnvelopeConcave(m, fee);
    var e := (dx: real) => Envelope(m, fee, dx);
    forall dx | m.lo <= dx <= m.hi ensures e(dx) == ProfitOf(m)(dx) { FlatFeeIsEnvelope(m, fee, dx); }
    hide Profit, Envelope;
    ConcaveAgrees(e, ProfitOf(m), m.lo, m.hi);
  }

  lemma ConcaveAgrees(e: real -> real, f: real -> real, lo: real, hi: real)
    requires Concave(e, lo, hi) && forall x :: lo <= x <= hi ==> e(x) == f(x)
    ensures Concave(f, lo, hi)
  {
    hide AboveChord;
    forall x, y, z | lo <= x < y < z <= hi ensures AboveChord(x, y, z, f(x), f(y), f(z)) {
      Chord(e, lo, hi, x, y, z);
    }
  }

  lemma FlatFeeIsEnvelope(m: Market, fee: real, dx: real)
    requires m.fee(dx) == fee && 1.0 - fee >= LEAST
    ensures Envelope(m, fee, dx) == Profit(m, dx)
  {
    var out, keep: real := m.output(dx), 1.0 - fee;
    assert out - fee * out == out * keep;
    assert out * (keep * m.value) == out * keep * m.value;
  }

  lemma FloorAbove(m: Market, dx: real)
    requires Faithful(m) && m.lo <= dx <= m.hi
    ensures Profit(m, dx) <= Envelope(m, m.floorFee, dx)
  {
    EnvelopeDominates(m, m.floorFee, dx);
  }

  /** Keeping the strictly better of the best so far and a new size keeps the first best. */
  lemma FirstBestGrows(m: Market, tried: seq<real>, best: Option<Candidate>, dx: real)
    requires best.None? <==> tried == []
    requires best.Some? ==> FirstBest(m, tried, best.value)
    ensures
      var c := Evaluate(m, dx);
      FirstBest(m, tried + [dx], if best.None? || c.profit > best.value.profit then c else best.value)
  {
    hide Profit;
    var c, more := Evaluate(m, dx), tried + [dx];
    if best.None? || c.profit > best.value.profit {
      assert more[|tried|] == c.dx;
      forall j | 0 <= j < |tried| ensures Profit(m, more[j]) < c.profit {
        assert more[j] == tried[j];
      }
    } else {
      var k :| 0 <= k < |tried| && tried[k] == best.value.dx
        && (forall j :: 0 <= j < k ==> Profit(m, tried[j]) < best.value.profit)
        && (forall j :: k <= j < |tried| ==> Profit(m, tried[j]) <= best.value.profit);
      assert more[k] == best.value.dx;
      forall j | 0 <= j < k ensures Profit(m, more[j]) < best.value.profit { assert more[j] == tried[j]; }
      forall j | k <= j < |more| ensures Profit(m, more[j]) <= best.value.profit {
        if j < |tried| { assert more[j] == tried[j]; }
      }
    }
  }

  lemma EvaluateKeepsSize(m: Market, dx: real)
    ensures Evaluate(m, dx).dx == dx && Evaluate(m, dx).profit == Profit(m, dx)
  {}

  lemma WalkUpEnds(m: Market, seed0: real, cap: real, n: nat)
    requires n <= WALK && forall k :: 1 <= k <= n ==> Grow(seed0, k) < m.hi && Floats(m, Grow(seed0, k))
    requires cap == m.hi || (cap < m.hi && n < WALK && cap == Grow(seed0, n + 1) && !Floats(m, cap))
    requires cap == m.hi ==> n == WALK || Grow(seed0, n + 1) >= m.hi
    ensures exists n: nat :: WalkUp(m, seed0, cap, n)
  {
    hide Floats, Grow;
    assert WalkUp(m, seed0, cap, n);
  }

  lemma WalkDownEnds(m: Market, seed0: real, cap: real, seed: real, n: nat)
    requires n <= WALK && forall k :: 1 <= k <= n ==> !Floats(m, Lowered(m, seed0, k))
    requires (n < WALK && seed == Lowered(m, seed0, n + 1) && Floats(m, seed) && cap == seed0) ||
             (seed == seed0 && cap == m.hi && (n == WALK || (n > 0 && Lowered(m, seed0, n) == m.lo)))
    ensures exists n: nat :: WalkDown(m, seed0, cap, seed, n)
  {
    hide Floats, Lowered;
    assert WalkDown(m, seed0, cap, seed, n);
  }

  lemma CapIsSafe(m: Market, inner: real, cap: real)
    requires Faithful(m) && m.lo <= inner < cap <= m.hi
    requires Envelope(m, m.floorFee, inner) > 0.0 && !(Envelope(m, m.floorFee, cap) > 0.0)
    ensures forall dx :: cap <= dx <= m.hi ==> Profit(m, dx) <= 0.0
  {
    hide Profit, Faithful, Envelope;
    forall dx | cap <= dx <= m.hi ensures Profit(m, dx) <= 0.0 { CapLosesNothing(m, inner, cap, dx); }
  }

  lemma LowCoverBelow(lo: real, seed: real, dip: real, shallow: bool)
    requires 0.0 < lo <= seed && (dip > 0.0 ==> lo < dip)
    ensures lo <= Search.LowCover(lo, seed, dip, shallow) <= seed
    ensures dip > 0.0 ==> Search.LowCover(lo, seed, dip, shallow) <= dip
  {}
}
