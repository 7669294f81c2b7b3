/** Bounds on the profit of every trade size in a direction: the fee-floor envelope, the concave screen in
    front of sizing, and the size cap. */
module TradeBounds {
  import opened Algebra
  import opened PoolSdk
  import opened TradeEntry

  /** One direction of one pool: gross curve output and fee rate by size, unit value of the output, unit cost
      of the input, fixed cost, the fee floors, and the sizes allowed. */
  datatype Market = Market(output: real -> real, fee: real -> real, value: NonNeg, cost: real, gas: real,
                           floorFee: real, screenFee: real, lo: real, hi: real)

  /** For x < y < z, the value at y is at least that of the chord through the other two. */
  predicate AboveChord(x: real, y: real, z: real, fx: real, fy: real, fz: real) {
    (z - y) * fx + (y - x) * fz <= (z - x) * fy
  }

  /** Below a chord nowhere. */
  ghost predicate Concave(f: real -> real, lo: real, hi: real) {
    forall x, y, z :: lo <= x < y < z <= hi ==> AboveChord(x, y, z, f(x), f(y), f(z))
  }

  lemma Chord(f: real -> real, lo: real, hi: real, x: real, y: real, z: real)
    requires Concave(f, lo, hi) && lo <= x < y < z <= hi
    ensures AboveChord(x, y, z, f(x), f(y), f(z))
  {
    hide AboveChord;
    assert f(x) == f(x) && f(y) == f(y) && f(z) == f(z);
  }

  /** What the SDK promises of a market: concave nonnegative output, and both floors below every fee. */
  ghost predicate Faithful(m: Market) {
    && 0.0 < m.lo < m.hi
    && Concave(m.output, m.lo, m.hi)
    && (forall dx :: m.lo <= dx <= m.hi ==> m.output(dx) >= 0.0 && m.floorFee <= m.fee(dx) && m.screenFee <= m.fee(dx))
  }

  /** Profit of a size: output after its fee, at the outside price, less cost and gas. */
  function Profit(m: Market, dx: real): real {
    (m.output(dx) - m.fee(dx) * m.output(dx)) * m.value - dx * m.cost - m.gas
  }

  function Weight(m: Market, fee: real): NonNeg {
    MulNonNeg(Keep(fee), m.value);
    Keep(fee) * m.value
  }

  /** Profit of a size if its fee were only `fee`. */
  function Envelope(m: Market, fee: real, dx: real): real {
    Affine(m.output(dx), Weight(m, fee), dx, m.cost, m.gas)
  }

  function Affine(out: real, k: real, dx: real, cost: real, gas: real): real { out * k - dx * cost - gas }

  lemma EnvelopeDominates(m: Market, fee: real, dx: real)
    requires m.output(dx) >= 0.0 && fee <= m.fee(dx)
    ensures Profit(m, dx) <= Envelope(m, fee, dx)
  {
    var out, net: real, keep: real := m.output(dx), 1.0 - m.fee(dx), Keep(fee);
    MulMonotone(net, keep, out);
    MulMonotone(net * out, keep * out, m.value);
    assert (out - m.fee(dx) * out) == net * out;
    assert out * (keep * m.value) == keep * out * m.value;
  }

  lemma EnvelopeConcave(m: Market, fee: real)
    requires Concave(m.output, m.lo, m.hi)
    ensures Concave((dx: real) => Envelope(m, fee, dx), m.lo, m.hi)
  {
    hide Affine;
    var f := (dx: real) => Envelope(m, fee, dx);
    hide Weight;
    var k: real := Weight(m, fee);
    hide AboveChord;
    forall x, y, z | m.lo <= x < y < z <= m.hi ensures AboveChord(x, y, z, f(x), f(y), f(z)) {
      Chord(m.output, m.lo, m.hi, x, y, z);
      AffineChord(m.output(x), m.output(y), m.output(z), x, y, z, k, m.cost, m.gas);
    }
  }

  lemma AffineChord(ox: real, oy: real, oz: real, x: real, y: real, z: real, k: real, c: real, g: real)
    requires AboveChord(x, y, z, ox, oy, oz) && k >= 0.0
    ensures AboveChord(x, y, z, Affine(ox, k, x, c, g), Affine(oy, k, y, c, g), Affine(oz, k, z, c, g))
  {
    var left, right := (z - y) * ox + (y - x) * oz, (z - x) * oy;
    MulMonotone(left, right, k);
    assert (z - y) * (ox * k - x * c - g) + (y - x) * (oz * k - z * c - g)
        == left * k - ((z - y) * (x * c) + (y - x) * (z * c)) - (z - x) * g;
    assert (z - y) * (x * c) + (y - x) * (z * c) == (z - x) * (y * c);
    assert (z - x) * (oy * k - y * c - g) == right * k - (z - x) * (y * c) - (z - x) * g;
  }

  // ---------------------------------------------------------------------------------------------
  // Consequences of concavity

  /** Values at x <= a < b with no drop from a to b: the first is no higher than the second. */
  lemma LeftOfRise(x: real, a: real, b: real, fx: real, fa: real, fb: real)
    requires x < a < b && fa <= fb && AboveChord(x, a, b, fx, fa, fb)
    ensures fx <= fa
  {
    var near, far, whole := b - a, a - x, b - x;
    Split(near, far, whole, fa);
    MulMonotone(fa, fb, far);
    Commute(far, fb);
    Commute(far, fa);
    Cancels(near, fx, fa);
  }

  lemma RightOfFall(a: real, b: real, x: real, fa: real, fb: real, fx: real)
    requires a < b < x && fa >= fb && AboveChord(a, b, x, fa, fb, fx)
    ensures fx <= fb
  {
    var near, far, whole := b - a, x - b, x - a;
    Split(near, far, whole, fb);
    MulMonotone(fb, fa, far);
    Commute(far, fa);
    Commute(far, fb);
    Cancels(near, fx, fb);
  }

  lemma Split(near: real, far: real, whole: real, v: real)
    requires whole == near + far
    ensures whole * v == near * v + far * v
  {
    Distribute(near, far, v);
  }

  /** A positive factor cancels from a comparison. */
  lemma Cancels(c: real, p: real, q: real)
    requires c > 0.0
    ensures c * p <= c * q ==> p <= q
  {
    if p > q {
      MulStrict(q, p, c);
      Commute(q, c);
      Commute(p, c);
    }
  }

  /** Left of a rise, nothing exceeds the lower sample. */
  lemma RisingLeft(f: real -> real, lo: real, hi: real, x: real, a: real, b: real)
    requires Concave(f, lo, hi) && lo <= x <= a < b <= hi && f(a) <= f(b)
    ensures f(x) <= f(a)
  {
    hide AboveChord;
    if x < a {
      Chord(f, lo, hi, x, a, b);
      LeftOfRise(x, a, b, f(x), f(a), f(b));
    }
  }

  /** Right of a fall, nothing exceeds the lower sample. */
  lemma FallingRight(f: real -> real, lo: real, hi: real, a: real, b: real, x: real)
    requires Concave(f, lo, hi) && lo <= a < b <= x <= hi && f(a) >= f(b)
    ensures f(x) <= f(b)
  {
    hide AboveChord;
    if b < x {
      Chord(f, lo, hi, a, b, x);
      RightOfFall(a, b, x, f(a), f(b), f(x));
    }
  }

  /** Past a drop from positive to nonpositive, everything is nonpositive: the cap loses nothing. */
  lemma CapLosesNothing(m: Market, inner: real, cap: real, x: real)
    requires Faithful(m) && m.lo <= inner < cap <= x <= m.hi
    requires Envelope(m, m.floorFee, inner) > 0.0 && Envelope(m, m.floorFee, cap) <= 0.0
    ensures Profit(m, x) <= 0.0
  {
    EnvelopeConcave(m, m.floorFee);
    FallingRight((dx: real) => Envelope(m, m.floorFee, dx), m.lo, m.hi, inner, cap, x);
    EnvelopeDominates(m, m.floorFee, x);
  }

  // ---------------------------------------------------------------------------------------------
  // The four-sample bound

  function Line(xa: real, fa: real, xb: real, fb: real, x: real): real
    requires xa != xb
  {
    fa + (fb - fa) * (x - xa) / (xb - xa)
  }

  function Slope(xa: real, xb: real, fa: real, fb: real): real
    requires xa != xb
  {
    (fb - fa) / (xb - xa)
  }

  /** Where the lines through (x0, f0) and (x2, f2) with these slopes meet. */
  function Crossing(x0: real, x2: real, f0: real, f2: real, s01: real, s23: real): real
    requires s01 != s23
  {
    (f2 - f0 + s01 * x0 - s23 * x2) / (s01 - s23)
  }

  /** Upper bound of a concave function on [x0, x3] from four samples: the chord through the inner pair
      outside it, the outer chords extended inward inside it. */
  function ConcaveBound(x0: real, x1: real, x2: real, x3: real, f0: real, f1: real, f2: real, f3: real): real
    requires x0 < x1 < x2 < x3
  {
    var outside := Max(Max(Line(x1, f1, x2, f2, x0), Line(x1, f1, x2, f2, x3)), Max(Max(f0, f1), Max(f2, f3)));
    var ends := Max(outside, Max(Inner(x0, x1, x2, x3, f0, f1, f2, f3, x1), Inner(x0, x1, x2, x3, f0, f1, f2, f3, x2)));
    var s01, s23 := Slope(x0, x1, f0, f1), Slope(x2, x3, f2, f3);
    if s01 == s23 then ends
    else
      var xc := Crossing(x0, x2, f0, f2, s01, s23);
      if x1 < xc < x2 then Max(ends, Inner(x0, x1, x2, x3, f0, f1, f2, f3, xc)) else ends
  }

  /** The lower of the two outer chords. */
  function Inner(x0: real, x1: real, x2: real, x3: real, f0: real, f1: real, f2: real, f3: real, x: real): real
    requires x0 < x1 < x2 < x3
  {
    Min(Line(x0, f0, x1, f1, x), Line(x2, f2, x3, f3, x))
  }

  lemma LineSlope(xa: real, fa: real, xb: real, fb: real, x: real)
    requires xa != xb
    ensures Line(xa, fa, xb, fb, x) == fa + (fb - fa) / (xb - xa) * (x - xa)
    ensures Line(xa, fa, xb, fb, x) * (xb - xa) == fa * (xb - x) + fb * (x - xa)
  {
    var d := xb - xa;
    var s := (fb - fa) / d;
    assert s * d == fb - fa;
    var q := (fb - fa) * (x - xa) / d;
    assert q * d == (fb - fa) * (x - xa);
    assert (s * (x - xa)) * d == (s * d) * (x - xa);
    Cancel(q, s * (x - xa), d);
    assert (fa + q) * d == fa * d + (fb - fa) * (x - xa);
    assert fa * d + (fb - fa) * (x - xa) == fa * (xb - x) + fb * (x - xa);
  }

  lemma Opposite(v: real, p: real, q: real)
    requires p == -q
    ensures v * p == -(q * v)
  {
    Commute(q, v);
    Distribute(p, q, v);
    Commute(p, v);
  }

  /** `line` is the height at x of the line through (a, fa) and (b, fb). */
  lemma LeftOfLine(x: real, a: real, b: real, fx: real, fa: real, fb: real, line: real)
    requires x < a < b && AboveChord(x, a, b, fx, fa, fb) && line * (b - a) == fa * (b - x) + fb * (x - a)
    ensures fx <= line
  {
    Opposite(fb, x - a, a - x);
    Commute(fa, b - x);
    Commute(line, b - a);
    Cancels(b - a, fx, line);
  }

  lemma RightOfLine(a: real, b: real, x: real, fa: real, fb: real, fx: real, line: real)
    requires a < b < x && AboveChord(a, b, x, fa, fb, fx) && line * (b - a) == fa * (b - x) + fb * (x - a)
    ensures fx <= line
  {
    Opposite(fa, b - x, x - b);
    Commute(fb, x - a);
    Commute(line, b - a);
    Cancels(b - a, fx, line);
  }

  lemma AtEnd(line: real, v: real, other: real, d: real, e: real)
    requires d > 0.0 && e == 0.0 && line * d == v * d + other * e
    ensures v == line
  {
    Cancel(line, v, d);
  }

  /** Outside the pair (a, b) a concave function is below the line through it. */
  lemma BelowExtended(f: real -> real, lo: real, hi: real, a: real, b: real, x: real)
    requires Concave(f, lo, hi) && lo <= a < b <= hi && lo <= x <= hi && (x <= a || x >= b)
    ensures f(x) <= Line(a, f(a), b, f(b), x)
  {
    LineSlope(a, f(a), b, f(b), x);
    hide AboveChord, Line;
    var line := Line(a, f(a), b, f(b), x);
    if x < a {
      Chord(f, lo, hi, x, a, b);
      LeftOfLine(x, a, b, f(x), f(a), f(b), line);
    } else if x > b {
      Chord(f, lo, hi, a, b, x);
      RightOfLine(a, b, x, f(a), f(b), f(x), line);
    } else if x == a {
      AtEnd(line, f(a), f(b), b - a, x - a);
    } else {
      AtEnd(line, f(b), f(a), b - a, b - x);
    }
  }

  function Along(p: real, s: real, v: real): real { p + s * v }

  /** An affine function on an interval is below its larger end. */
  lemma AffineBetween(p: real, s: real, a: real, b: real, x: real)
    requires a <= x <= b
    ensures Along(p, s, x) <= Max(Along(p, s, a), Along(p, s, b))
  {
    if s >= 0.0 {
      MulMonotone(x, b, s);
    } else {
      MulMonotone(a, x, -s);
      assert x * -s == -(s * x) && a * -s == -(s * a);
    }
  }

  /** The lower of two affine functions. */
  function Lower(p: real, s: real, q: real, t: real, v: real): real { Min(Along(p, s, v), Along(q, t, v)) }

  /** Where one of the two is the lower at both ends, it bounds the lower one between them. */
  lemma SameSide(p: real, s: real, q: real, t: real, a: real, b: real, x: real)
    requires a <= x <= b
    requires (Along(p, s, a) <= Along(q, t, a) && Along(p, s, b) <= Along(q, t, b)) ||
             (Along(q, t, a) <= Along(p, s, a) && Along(q, t, b) <= Along(p, s, b))
    ensures Lower(p, s, q, t, x) <= Max(Lower(p, s, q, t, a), Lower(p, s, q, t, b))
  {
    AffineBetween(p, s, a, b, x);
    AffineBetween(q, t, a, b, x);
    hide Along;
  }

  /** Two affine functions that swap order across an interval cross inside it. */
  lemma CrossBetween(p: real, s: real, q: real, t: real, a: real, b: real, cross: real)
    requires a <= b && (s != t ==> cross * (s - t) == q - p)
    requires Along(p, s, a) < Along(q, t, a) && Along(p, s, b) > Along(q, t, b)
    ensures s != t && a < cross < b && Along(p, s, cross) == Along(q, t, cross)
  {
    var d := s - t;
    assert Along(p, s, a) - Along(q, t, a) == (p - q) + d * a;
    assert Along(p, s, b) - Along(q, t, b) == (p - q) + d * b;
    assert d * b - d * a == d * (b - a);
    PositiveFactor(d, b - a);
    assert d * (a - cross) == (p - q) + d * a && d * (b - cross) == (p - q) + d * b;
    if a >= cross { MulNonNeg(d, a - cross); }
    if b <= cross { MulNonNeg(d, cross - b); }
    assert Along(p, s, cross) - Along(q, t, cross) == (p - q) + cross * d;
  }

  /** The lower of two affine functions peaks at an end or where they cross. */
  lemma LowerPeaks(p: real, s: real, q: real, t: real, a: real, b: real, x: real, cross: real)
    requires a <= x <= b
    requires s != t ==> cross * (s - t) == q - p
    ensures
      var ends := Max(Lower(p, s, q, t, a), Lower(p, s, q, t, b));
      Lower(p, s, q, t, x) <= (if s != t && a < cross < b then Max(ends, Lower(p, s, q, t, cross)) else ends)
  {
    hide Along;
    if Along(p, s, a) < Along(q, t, a) && Along(p, s, b) > Along(q, t, b) {
      CrossBetween(p, s, q, t, a, b, cross);
      if x <= cross { SameSide(p, s, q, t, a, cross, x); } else { SameSide(p, s, q, t, cross, b, x); }
    } else if Along(q, t, a) < Along(p, s, a) && Along(q, t, b) > Along(p, s, b) {
      if s != t { assert cross * (t - s) == p - q; }
      CrossBetween(q, t, p, s, a, b, cross);
      if x <= cross { SameSide(p, s, q, t, a, cross, x); } else { SameSide(p, s, q, t, cross, b, x); }
    } else {
      SameSide(p, s, q, t, a, b, x);
    }
  }

  function Intercept(f: real, s: real, x: real): real { f - s * x }

  lemma LineIsAffine(xa: real, fa: real, xb: real, fb: real, x: real)
    requires xa != xb
    ensures var s := (fb - fa) / (xb - xa); Line(xa, fa, xb, fb, x) == Along(Intercept(fa, s, xa), s, x)
  {
    LineSlope(xa, fa, xb, fb, x);
    var s := (fb - fa) / (xb - xa);
    assert s * (x - xa) == s * x - s * xa;
  }

  /** Between the inner samples, the lower outer chord is below the bound. */
  lemma InnerBelowBound(x0: real, x1: real, x2: real, x3: real, f0: real, f1: real, f2: real, f3: real, x: real)
    requires x0 < x1 < x2 < x3 && x1 <= x <= x2
    ensures Inner(x0, x1, x2, x3, f0, f1, f2, f3, x) <= ConcaveBound(x0, x1, x2, x3, f0, f1, f2, f3)
  {
    hide Inner, Line, Along, Lower;
    var s, t := Slope(x0, x1, f0, f1), Slope(x2, x3, f2, f3);
    var p, q := Intercept(f0, s, x0), Intercept(f2, t, x2);
    var xc := if s == t then 0.0 else Crossing(x0, x2, f0, f2, s, t);
    if s != t { DivMul(f2 - f0 + s * x0 - t * x2, s - t); }
    LowerPeaks(p, s, q, t, x1, x2, x, xc);
    InnerIsLower(x0, x1, x2, x3, f0, f1, f2, f3, x);
    InnerIsLower(x0, x1, x2, x3, f0, f1, f2, f3, x1);
    InnerIsLower(x0, x1, x2, x3, f0, f1, f2, f3, x2);
    InnerIsLower(x0, x1, x2, x3, f0, f1, f2, f3, xc);
    hide Slope, Crossing, Intercept;
  }

  lemma InnerIsLower(x0: real, x1: real, x2: real, x3: real, f0: real, f1: real, f2: real, f3: real, x: real)
    requires x0 < x1 < x2 < x3
    ensures
      var s, t := Slope(x0, x1, f0, f1), Slope(x2, x3, f2, f3);
      Inner(x0, x1, x2, x3, f0, f1, f2, f3, x) == Lower(Intercept(f0, s, x0), s, Intercept(f2, t, x2), t, x)
  {
    LineIsAffine(x0, f0, x1, f1, x);
    LineIsAffine(x2, f2, x3, f3, x);
    hide Line, Along, Intercept;
  }

  lemma LineBetween(xa: real, fa: real, xb: real, fb: real, a: real, b: real, x: real)
    requires xa != xb && a <= x <= b
    ensures Line(xa, fa, xb, fb, x) <= Max(Line(xa, fa, xb, fb, a), Line(xa, fa, xb, fb, b))
  {
    LineIsAffine(xa, fa, xb, fb, x);
    LineIsAffine(xa, fa, xb, fb, a);
    LineIsAffine(xa, fa, xb, fb, b);
    var s := (fb - fa) / (xb - xa);
    AffineBetween(Intercept(fa, s, xa), s, a, b, x);
    hide Line, Along, Intercept;
  }

  /** The bound holds on the whole bracket. */
  lemma BoundHolds(f: real -> real, lo: real, hi: real, x0: real, x1: real, x2: real, x3: real, x: real)
    requires Concave(f, lo, hi) && lo <= x0 < x1 < x2 < x3 <= hi && x0 <= x <= x3
    ensures f(x) <= ConcaveBound(x0, x1, x2, x3, f(x0), f(x1), f(x2), f(x3))
  {
    hide Concave, Line;
    if x <= x1 {
      BelowExtended(f, lo, hi, x1, x2, x);
      LineBetween(x1, f(x1), x2, f(x2), x0, x1, x);
      LineAtEnds(x1, f(x1), x2, f(x2));
    } else if x >= x2 {
      BelowExtended(f, lo, hi, x1, x2, x);
      LineBetween(x1, f(x1), x2, f(x2), x2, x3, x);
      LineAtEnds(x1, f(x1), x2, f(x2));
    } else {
      BelowExtended(f, lo, hi, x0, x1, x);
      BelowExtended(f, lo, hi, x2, x3, x);
      InnerBelowBound(x0, x1, x2, x3, f(x0), f(x1), f(x2), f(x3), x);
    }
  }

  lemma LineAtEnds(xa: real, fa: real, xb: real, fb: real)
    requires xa != xb
    ensures Line(xa, fa, xb, fb, xa) == fa && Line(xa, fa, xb, fb, xb) == fb
  {
    LineSlope(xa, fa, xb, fb, xa);
    LineSlope(xa, fa, xb, fb, xb);
    Cancel(Line(xa, fa, xb, fb, xb), fb, xb - xa);
  }
}
