/** Compiled parameter grids: the shape check, row-major decoding, and the materialisation of ordinal ranges. */
module Grid {
  import opened Algebra
  import opened Wrappers
  import opened PoolOverrides

  const MAX_TOTAL := 0x1_0000_0000

  // ---------------------------------------------------------------------------------------------
  // Shapes and row-major coordinates

  /** Position of a cell in a table of `width` columns, and back. */
  function Cell(row: nat, width: nat, column: nat): nat { row * width + column }

  function Row(x: nat, width: nat): nat
    requires width > 0
  {
    x / width
  }

  function Column(x: nat, width: nat): nat
    requires width > 0
  {
    x % width
  }

  lemma CellParts(row: nat, width: nat, column: nat)
    requires column < width
    ensures Row(Cell(row, width, column), width) == row && Column(Cell(row, width, column), width) == column
  {
    var x := Cell(row, width, column);
    var d := x / width;
    if d < row { Scale(d + 1, row, width); assert false; }
    if d > row { Scale(row + 1, d, width); assert false; }
  }

  lemma PartsCell(x: nat, width: nat)
    requires width > 0
    ensures Cell(Row(x, width), width, Column(x, width)) == x && Column(x, width) < width
  {}

  lemma CellBelow(row: nat, rows: nat, width: nat, column: nat)
    requires row < rows && column < width
    ensures Cell(row, width, column) < Cell(rows, width, 0)
  {
    Scale(row + 1, rows, width);
  }

  lemma RowBelow(x: nat, rows: nat, width: nat)
    requires width > 0 && x < Cell(rows, width, 0)
    ensures Row(x, width) < rows
  {
    if Row(x, width) >= rows { Scale(rows, Row(x, width), width); }
  }

  predicate Positive(shape: seq<nat>) { forall k :: 0 <= k < |shape| ==> shape[k] > 0 }

  function Product(shape: seq<nat>): nat {
    if shape == [] then 1 else Cell(Product(shape[..|shape| - 1]), shape[|shape| - 1], 0)
  }

  predicate Within(shape: seq<nat>, coords: seq<nat>) {
    |coords| == |shape| && forall k :: 0 <= k < |shape| ==> coords[k] < shape[k]
  }

  /** The ordinal of a coordinate tuple: the last axis varies fastest. */
  function Encode(shape: seq<nat>, coords: seq<nat>): nat
    requires |coords| == |shape|
  {
    if shape == [] then 0
    else
      var n := |shape| - 1;
      Cell(Encode(shape[..n], coords[..n]), shape[n], coords[n])
  }

  function Decode(shape: seq<nat>, ordinal: nat): (coords: seq<nat>)
    requires Positive(shape)
    ensures |coords| == |shape|
  {
    if shape == [] then []
    else
      var n := |shape| - 1;
      Decode(shape[..n], Row(ordinal, shape[n])) + [Column(ordinal, shape[n])]
  }

  /** Every ordinal below the total has coordinates within the shape, and encoding them gives it back. */
  lemma {:induction false} EncodeDecode(shape: seq<nat>, ordinal: nat)
    requires Positive(shape) && ordinal < Product(shape)
    ensures Within(shape, Decode(shape, ordinal))
    ensures Encode(shape, Decode(shape, ordinal)) == ordinal
  {
    hide Cell, Row, Column;
    if shape != [] {
      var n := |shape| - 1;
      RowBelow(ordinal, Product(shape[..n]), shape[n]);
      PartsCell(ordinal, shape[n]);
      EncodeDecode(shape[..n], Row(ordinal, shape[n]));
      assert Decode(shape, ordinal)[..n] == Decode(shape[..n], Row(ordinal, shape[n]));
    }
  }

  /** Every coordinate tuple within the shape is the decoding of exactly its own ordinal. */
  lemma {:induction false} DecodeEncode(shape: seq<nat>, coords: seq<nat>)
    requires Positive(shape) && Within(shape, coords)
    ensures Encode(shape, coords) < Product(shape)
    ensures Decode(shape, Encode(shape, coords)) == coords
  {
    hide Cell, Row, Column;
    if shape != [] {
      var n := |shape| - 1;
      DecodeEncode(shape[..n], coords[..n]);
      var q := Encode(shape[..n], coords[..n]);
      CellBelow(q, Product(shape[..n]), shape[n], coords[n]);
      CellParts(q, shape[n], coords[n]);
      assert coords == coords[..n] + [coords[n]];
    }
  }

  // ---------------------------------------------------------------------------------------------
  // The order of the tuples

  /** At the first coordinate where two tuples differ, the first tuple's is smaller. */
  predicate Precedes(x: seq<nat>, y: seq<nat>) {
    |x| == |y| && exists k :: 0 <= k < |x| && FirstDiffers(x, y, k)
  }

  predicate FirstDiffers(x: seq<nat>, y: seq<nat>, k: nat)
    requires k < |x| == |y|
  {
    x[k] < y[k] && forall j :: 0 <= j < k ==> x[j] == y[j]
  }

  /** Ordinals follow the tuples in dictionary order: the last axis varies fastest. */
  lemma {:induction false} DecodeInOrder(shape: seq<nat>, a: nat, b: nat)
    requires Positive(shape) && a < b < Product(shape)
    ensures Precedes(Decode(shape, a), Decode(shape, b))
  {
    if shape != [] {
      var n := |shape| - 1;
      var width := shape[n];
      var x, y := Decode(shape, a), Decode(shape, b);
      RowBelow(b, Product(shape[..n]), width);
      RowsInOrder(a, b, width);
      hide Cell, Row, Column;
      if Row(a, width) < Row(b, width) {
        DecodeInOrder(shape[..n], Row(a, width), Row(b, width));
        var p, q := Decode(shape[..n], Row(a, width)), Decode(shape[..n], Row(b, width));
        var k :| 0 <= k < n && FirstDiffers(p, q, k);
        assert FirstDiffers(x, y, k);
      } else {
        assert FirstDiffers(x, y, n);
      }
    }
  }

  lemma RowsInOrder(a: nat, b: nat, width: nat)
    requires width > 0 && a < b
    ensures Row(a, width) < Row(b, width) || (Row(a, width) == Row(b, width) && Column(a, width) < Column(b, width))
  {
    if Row(a, width) > Row(b, width) {
      Scale(Row(b, width) + 1, Row(a, width), width);
    }
  }

  /** All tuples of a shape, each once, in dictionary order. */
  ghost predicate InOrder(shape: seq<nat>, listing: seq<seq<nat>>) {
    && (forall i :: 0 <= i < |listing| ==> Within(shape, listing[i]))
    && (forall i, j :: 0 <= i < j < |listing| ==> Precedes(listing[i], listing[j]))
    && (forall coords :: Within(shape, coords) ==> coords in listing)
  }

  function Decodings(shape: seq<nat>): (listing: seq<seq<nat>>)
    requires Positive(shape)
    ensures |listing| == Product(shape)
    ensures forall i :: 0 <= i < |listing| ==> listing[i] == Decode(shape, i)
  {
    seq(Product(shape), i requires 0 <= i => Decode(shape, i))
  }

  lemma DecodingsInOrder(shape: seq<nat>)
    requires Positive(shape)
    ensures InOrder(shape, Decodings(shape))
  {
    hide Decode, Encode, Within, Precedes;
    var listing := Decodings(shape);
    forall i | 0 <= i < |listing| ensures Within(shape, listing[i]) { EncodeDecode(shape, i); }
    forall i, j | 0 <= i < j < |listing| ensures Precedes(listing[i], listing[j]) { DecodeInOrder(shape, i, j); }
    forall coords | Within(shape, coords) ensures coords in listing {
      WithinHasLength(shape, coords);
      DecodeEncode(shape, coords);
      assert listing[Encode(shape, coords)] == coords;
    }
  }

  lemma WithinHasLength(shape: seq<nat>, coords: seq<nat>)
    requires Within(shape, coords)
    ensures |coords| == |shape|
  {}

  /** The order of tuples is that of their ordinals, so a listing in order is the only one. */
  lemma {:induction false} ListingIsDecoding(shape: seq<nat>, listing: seq<seq<nat>>, i: nat)
    requires Positive(shape) && InOrder(shape, listing) && i < |listing|
    ensures i < Product(shape) && listing[i] == Decode(shape, i)
    decreases i
  {
    hide Decode, Encode, Precedes, Product;
    var e := Encode(shape, listing[i]);
    DecodeEncode(shape, listing[i]);
    if e < i {
      ListingIsDecoding(shape, listing, e);
      assert listing[e] == listing[i];
      NotBeforeItself(listing[i]);
    } else if i < e {
      EncodeDecode(shape, i);
      var j :| 0 <= j < |listing| && listing[j] == Decode(shape, i);
      if j < i {
        ListingIsDecoding(shape, listing, j);
        EncodeDecode(shape, j);
      } else {
        DecodeInOrder(shape, i, e);
        NotBeforeItself(listing[i]);
        NotBothBefore(listing[i], listing[j]);
      }
    }
  }

  lemma NotBeforeItself(x: seq<nat>)
    ensures !Precedes(x, x)
  {}

  lemma NotBothBefore(x: seq<nat>, y: seq<nat>)
    ensures Precedes(x, y) ==> !Precedes(y, x)
  {
    if Precedes(x, y) {
      var k :| 0 <= k < |x| && FirstDiffers(x, y, k);
      forall j | 0 <= j < |x| ensures !FirstDiffers(y, x, j) {}
    }
  }

  // ---------------------------------------------------------------------------------------------
  // Axes

  /** One value of an axis: policy parameter updates and an optional pool patch. */
  datatype AxisValue<H> = AxisValue(updates: seq<(nat, real)>, patch: Option<Override<H>>)

  datatype Compiled<H> = Compiled(axes: seq<seq<AxisValue<H>>>, total: nat, basePolicy: seq<real>, base: Override<H>)

  function Sizes<H>(axes: seq<seq<AxisValue<H>>>): (shape: seq<nat>)
    ensures |shape| == |axes|
    ensures forall k :: 0 <= k < |axes| ==> shape[k] == |axes[k]|
  {
    seq(|axes|, k requires 0 <= k < |axes| => |axes[k]|)
  }

  predicate InRange<H>(value: AxisValue<H>, params: nat) {
    forall k :: 0 <= k < |value.updates| ==> value.updates[k].0 < params
  }

  predicate AxisInRange<H>(axis: seq<AxisValue<H>>, params: nat) {
    forall k :: 0 <= k < |axis| ==> InRange(axis[k], params)
  }

  predicate WellFormed<H>(g: Compiled<H>) {
    && Positive(Sizes(g.axes)) && g.total == Product(Sizes(g.axes)) <= MAX_TOTAL
    && (forall k :: 0 <= k < |g.axes| ==> AxisInRange(g.axes[k], |g.basePolicy|))
  }

  /** The declared order, shape and axes describe one grid over `params` policy parameters that fits in 32-bit
      ordinals. */
  predicate Describes<H>(order: seq<string>, axes: map<string, seq<AxisValue<H>>>, shape: seq<nat>, params: nat) {
    && |order| == |axes| && |shape| == |order|
    && (forall i, j :: 0 <= i < j < |order| ==> order[i] != order[j])
    && (forall k :: 0 <= k < |order| ==> order[k] in axes && shape[k] == |axes[order[k]]| > 0)
    && (forall k :: 0 <= k < |order| ==> AxisInRange(axes[order[k]], params))
    && Product(shape) <= MAX_TOTAL
  }

  lemma {:induction false} ProductGrows(shape: seq<nat>, k: nat)
    requires Positive(shape) && k <= |shape|
    ensures Product(shape[..k]) <= Product(shape)
  {
    if k < |shape| {
      var n := |shape| - 1;
      ProductGrows(shape[..n], k);
      assert shape[..n][..k] == shape[..k];
      Scale(1, shape[n], Product(shape[..n]));
      assert Product(shape) == Product(shape[..n]) * shape[n];
    } else {
      assert shape[..k] == shape;
    }
  }

  /** The overflow test made before multiplying is exact. */
  lemma OverflowTest(total: nat, declared: nat)
    requires declared > 0
    ensures total > MAX_TOTAL / declared <==> Cell(total, declared, 0) > MAX_TOTAL
  {
    var q := MAX_TOTAL / declared;
    if total > q { Scale(q + 1, total, declared); } else { Scale(total, q, declared); }
  }

  lemma TooManyOrdinals<H>(order: seq<string>, axes: map<string, seq<AxisValue<H>>>, shape: seq<nat>, params: nat,
                           k: nat)
    requires k <= |shape| && Product(shape[..k]) > MAX_TOTAL
    ensures !Describes(order, axes, shape, params)
  {
    if Describes(order, axes, shape, params) { ProductGrows(shape, k); }
  }

  /** Whether every update of an axis names an existing policy parameter. */
  method CheckAxis<H>(axis: seq<AxisValue<H>>, params: nat) returns (ok: bool)
    ensures ok <==> AxisInRange(axis, params)
  {
    for k := 0 to |axis|
      invariant AxisInRange(axis[..k], params)
    {
      for j := 0 to |axis[k].updates|
        invariant forall i :: 0 <= i < j ==> axis[k].updates[i].0 < params
      {
        if axis[k].updates[j].0 >= params {
          assert !InRange(axis[k], params);
          return false;
        }
      }
      assert InRange(axis[k], params);
      assert axis[..k + 1] == axis[..k] + [axis[k]];
    }
    assert axis[..|axis|] == axis;
    ok := true;
  }

  /** Accepts exactly the grids that are described consistently, and computes their total. */
  method Compile<H>(order: seq<string>, axes: map<string, seq<AxisValue<H>>>, shape: seq<nat>,
      basePolicy: seq<real>, base: Override<H>) returns (g: Option<Compiled<H>>)
    ensures g.Some? <==> Describes(order, axes, shape, |basePolicy|)
    ensures g.Some? ==> WellFormed(g.value) && g.value.basePolicy == basePolicy && g.value.base == base
    ensures g.Some? ==> |g.value.axes| == |order| && forall k :: 0 <= k < |order| ==> g.value.axes[k] == axes[order[k]]
  {
    hide AxisInRange;
    if |order| != |axes| || |shape| != |order| { return None; }
    var total, seen, compiled := 1, {}, [];
    for k := 0 to |order|
      invariant |compiled| == k && seen == (set j | 0 <= j < k :: order[j])
      invariant forall i, j :: 0 <= i < j < k ==> order[i] != order[j]
      invariant forall j :: 0 <= j < k ==>
                order[j] in axes && compiled[j] == axes[order[j]] && shape[j] == |axes[order[j]]| > 0
      invariant forall j :: 0 <= j < k ==> AxisInRange(axes[order[j]], |basePolicy|)
      invariant total == Product(shape[..k]) <= MAX_TOTAL
    {
      if order[k] in seen { return None; }
      seen := seen + {order[k]};
      if order[k] !in axes || axes[order[k]] == [] || shape[k] == 0 || shape[k] != |axes[order[k]]| { return None; }
      OverflowTest(total, shape[k]);
      assert shape[..k + 1][..k] == shape[..k];
      if total > MAX_TOTAL / shape[k] {
        TooManyOrdinals(order, axes, shape, |basePolicy|, k + 1);
        return None;
      }
      total := total * shape[k];
      var fits := CheckAxis(axes[order[k]], |basePolicy|);
      if !fits { return None; }
      compiled := compiled + [axes[order[k]]];
    }
    assert shape[..|order|] == shape && Sizes(compiled) == shape;
    g := Some(Compiled(compiled, total, basePolicy, base));
  }

  // ---------------------------------------------------------------------------------------------
  // Candidates

  datatype Candidate<H> = Candidate(ordinal: nat, policy: seq<real>, pool: Override<H>)

  function Values<H>(axes: seq<seq<AxisValue<H>>>, coords: seq<nat>): (vs: seq<AxisValue<H>>)
    requires Within(Sizes(axes), coords)
    ensures |vs| == |axes|
    ensures forall k :: 0 <= k < |axes| ==> vs[k] == axes[k][coords[k]]
  {
    seq(|axes|, k requires 0 <= k < |axes| => axes[k][coords[k]])
  }

  /** All policy updates of the chosen values, in axis order. */
  function Updates<H>(vs: seq<AxisValue<H>>): seq<(nat, real)> {
    if vs == [] then [] else Updates(vs[..|vs| - 1]) + vs[|vs| - 1].updates
  }

  /** All pool patches of the chosen values, in axis order. */
  function Patches<H>(vs: seq<AxisValue<H>>): seq<Override<H>> {
    if vs == [] then []
    else match vs[|vs| - 1].patch
         case None => Patches(vs[..|vs| - 1])
         case Some(patch) => Patches(vs[..|vs| - 1]) + [patch]
  }

  /** The value the last update of parameter `index` gives it. */
  function LastUpdate(updates: seq<(nat, real)>, index: nat, base: real): real {
    if updates == [] then base
    else
      var last := updates[|updates| - 1];
      if last.0 == index then last.1 else LastUpdate(updates[..|updates| - 1], index, base)
  }

  function PolicyAfter(base: seq<real>, updates: seq<(nat, real)>): (p: seq<real>)
    ensures |p| == |base|
    ensures forall k :: 0 <= k < |base| ==> p[k] == LastUpdate(updates, k, base[k])
  {
    seq(|base|, k requires 0 <= k < |base| => LastUpdate(updates, k, base[k]))
  }

  /** The candidate of an ordinal. */
  function CandidateAt<H>(g: Compiled<H>, ordinal: nat): Candidate<H>
    requires WellFormed(g) && ordinal < g.total
  {
    EncodeDecode(Sizes(g.axes), ordinal);
    var vs := Values(g.axes, Decode(Sizes(g.axes), ordinal));
    Candidate(ordinal, PolicyAfter(g.basePolicy, Updates(vs)), OverlaidAll(g.base, Patches(vs)))
  }

  /** A candidate of these coordinates: its ordinal, and the updates and patches of the value each axis has there. */
  ghost predicate MadeOf<H>(g: Compiled<H>, c: Candidate<H>, ordinal: nat, coords: seq<nat>) {
    && c.ordinal == ordinal && Within(Sizes(g.axes), coords)
    && c.policy == PolicyAfter(g.basePolicy, Updates(Values(g.axes, coords)))
    && c.pool == OverlaidAll(g.base, Patches(Values(g.axes, coords)))
  }

  lemma CandidateIsMade<H>(g: Compiled<H>, ordinal: nat)
    requires WellFormed(g) && ordinal < g.total
    ensures MadeOf(g, CandidateAt(g, ordinal), ordinal, Decode(Sizes(g.axes), ordinal))
  {
    hide Updates, Patches, PolicyAfter, OverlaidAll, Decode, Encode;
    EncodeDecode(Sizes(g.axes), ordinal);
  }

  /** A candidate's pool override acts on any setup as the base and then its axis patches in axis order. */
  lemma CandidateAppliesInOrder<H>(g: Compiled<H>, ordinal: nat, t: Setup<H>)
    requires WellFormed(g) && ordinal < g.total && Within(Sizes(g.axes), Decode(Sizes(g.axes), ordinal))
    ensures Applied(CandidateAt(g, ordinal).pool, t) ==
            AppliedAll(Applied(g.base, t), Patches(Values(g.axes, Decode(Sizes(g.axes), ordinal))))
  {
    hide Applied, AppliedAll, OverlaidAll;
    OverlaysApplyInOrder(g.base, Patches(Values(g.axes, Decode(Sizes(g.axes), ordinal))), t);
  }

  /** Divides a running remainder from the last axis to the first. */
  method Coordinates<H>(axes: seq<seq<AxisValue<H>>>, ordinal: nat, coordinates: array<nat>)
    requires Positive(Sizes(axes)) && coordinates.Length == |axes|
    modifies coordinates
    ensures coordinates[..] == Decode(Sizes(axes), ordinal)
  {
    var remainder: nat, reverse: nat := ordinal, |axes|;
    ghost var shape := Sizes(axes);
    assert shape[..reverse] == shape;
    while reverse > 0
      invariant reverse <= |axes|
      invariant Decode(shape, ordinal) == Decode(shape[..reverse], remainder) + coordinates[reverse..]
    {
      ghost var done := coordinates[reverse..];
      assert shape[..reverse][..reverse - 1] == shape[..reverse - 1];
      reverse := reverse - 1;
      coordinates[reverse] := remainder % |axes[reverse]|;
      assert coordinates[reverse..] == [Column(remainder, shape[reverse])] + done;
      remainder := remainder / |axes[reverse]|;
    }
    assert shape[..0] == [];
  }

  /** Writes one value's updates over the parameters. */
  method WriteUpdates(policy: seq<real>, updates: seq<(nat, real)>, ghost base: seq<real>,
                      ghost before: seq<(nat, real)>)
      returns (p: seq<real>)
    requires policy == PolicyAfter(base, before) && forall k :: 0 <= k < |updates| ==> updates[k].0 < |base|
    ensures p == PolicyAfter(base, before + updates)
  {
    p := policy;
    assert before + updates[..0] == before;
    for k := 0 to |updates|
      invariant p == PolicyAfter(base, before + updates[..k])
    {
      p := p[updates[k].0 := updates[k].1];
      assert (before + updates[..k + 1])[..|before| + k] == before + updates[..k];
    }
    assert updates[..|updates|] == updates;
  }

  method LayOver<H>(pool: PoolOverride<H>, value: AxisValue<H>, ghost base: Override<H>,
                    ghost before: seq<AxisValue<H>>)
    requires pool.View() == OverlaidAll(base, Patches(before))
    modifies pool
    ensures pool.View() == OverlaidAll(base, Patches(before + [value]))
  {
    hide Overlaid;
    assert (before + [value])[..|before|] == before;
    if value.patch.Some? {
      var patch := new PoolOverride(value.patch.value);
      pool.Overlay(patch);
      ghost var ps := Patches(before);
      assert (ps + [value.patch.value])[..|ps|] == ps;
    }
  }

  method Build<H>(g: Compiled<H>, ordinal: nat, coordinates: array<nat>) returns (c: Candidate<H>)
    requires WellFormed(g) && ordinal < g.total && coordinates.Length == |g.axes|
    modifies coordinates
    ensures c == CandidateAt(g, ordinal)
  {
    hide OverlaidAll, Patches, PolicyAfter, Decode, Encode, Product;
    Coordinates(g.axes, ordinal, coordinates);
    EncodeDecode(Sizes(g.axes), ordinal);
    ghost var vs := Values(g.axes, coordinates[..]);
    var policy := g.basePolicy;
    var pool := new PoolOverride(g.base);
    BaseUntouched(g.base, g.basePolicy);
    for axis := 0 to |g.axes|
      invariant coordinates[..] == Decode(Sizes(g.axes), ordinal)
      invariant policy == PolicyAfter(g.basePolicy, Updates(vs[..axis]))
      invariant pool.View() == OverlaidAll(g.base, Patches(vs[..axis])) && fresh(pool)
    {
      var value := g.axes[axis][coordinates[axis]];
      assert vs[..axis + 1] == vs[..axis] + [value] && (vs[..axis] + [value])[..axis] == vs[..axis];
      assert InRange(value, |g.basePolicy|) by { assert AxisInRange(g.axes[axis], |g.basePolicy|); }
      policy := WriteUpdates(policy, value.updates, g.basePolicy, Updates(vs[..axis]));
      LayOver(pool, value, g.base, vs[..axis]);
    }
    assert vs[..|g.axes|] == vs;
    c := Candidate(ordinal % MAX_TOTAL, policy, pool.View());
  }

  lemma BaseUntouched<H>(base: Override<H>, policy: seq<real>)
    ensures OverlaidAll(base, Patches([])) == base && PolicyAfter(policy, []) == policy
  {}

  // ---------------------------------------------------------------------------------------------
  // Ranges

  /** A requested range: an entry that is not a pair of unsigned integers is `None`. */
  type Item = Option<(nat, nat)>

  predicate Fits(item: Item, total: nat, from: nat) {
    item.Some? && item.value.1 > 0 && from <= item.value.0 && item.value.0 + item.value.1 <= total
  }

  /** Nonempty, ordered, disjoint and in range. */
  predicate Acceptable(ranges: seq<Item>, total: nat) {
    && ranges != []
    && (forall k :: 0 <= k < |ranges| ==> Fits(ranges[k], total, 0))
    && (forall k :: 0 < k < |ranges| ==> ranges[k].value.0 >= ranges[k - 1].value.0 + ranges[k - 1].value.1)
  }

  /** The ordinals of a range, and of all ranges in turn. */
  function Span(start: nat, length: nat): (s: seq<nat>)
    ensures |s| == length && forall k :: 0 <= k < length ==> s[k] == start + k
  {
    seq(length, k => start + k)
  }

  function Ordinals(ranges: seq<Item>): seq<nat>
    requires forall k :: 0 <= k < |ranges| ==> ranges[k].Some?
  {
    if ranges == [] then []
    else Ordinals(ranges[..|ranges| - 1]) + Span(ranges[|ranges| - 1].value.0, ranges[|ranges| - 1].value.1)
  }

  predicate Inside(item: Item, x: nat)
    requires item.Some?
  {
    item.value.0 <= x < item.value.0 + item.value.1
  }

  lemma InSpan(start: nat, length: nat, x: nat)
    ensures x in Span(start, length) <==> start <= x < start + length
  {
    if start <= x < start + length { assert Span(start, length)[x - start] == x; }
  }

  /** The ordinals of accepted ranges are distinct, in increasing order, and in the grid. */
  lemma {:induction false} OrdinalsAreOrdered(ranges: seq<Item>, total: nat)
    requires Acceptable(ranges, total)
    ensures forall i, j :: 0 <= i < j < |Ordinals(ranges)| ==> Ordinals(ranges)[i] < Ordinals(ranges)[j]
    ensures forall i :: 0 <= i < |Ordinals(ranges)| ==>
              Ordinals(ranges)[i] < ranges[|ranges| - 1].value.0 + ranges[|ranges| - 1].value.1 <= total
    decreases |ranges|
  {
    var n := |ranges| - 1;
    assert Fits(ranges[n], total, 0);
    if n > 0 {
      OrdinalsAreOrdered(ranges[..n], total);
      assert ranges[n].value.0 >= ranges[n - 1].value.0 + ranges[n - 1].value.1;
    }
  }

  /** They are exactly the ordinals that lie in some range. */
  lemma {:induction false} OrdinalsCover(ranges: seq<Item>, x: nat)
    requires forall k :: 0 <= k < |ranges| ==> ranges[k].Some?
    ensures x in Ordinals(ranges) <==> exists k :: 0 <= k < |ranges| && Inside(ranges[k], x)
    decreases |ranges|
  {
    if ranges != [] {
      var n := |ranges| - 1;
      OrdinalsCover(ranges[..n], x);
      InSpan(ranges[n].value.0, ranges[n].value.1, x);
      assert x in Ordinals(ranges) <==> x in Ordinals(ranges[..n]) || Inside(ranges[n], x);
      if k :| 0 <= k < n && Inside(ranges[..n][k], x) { assert Inside(ranges[k], x); }
      if k :| 0 <= k < n && Inside(ranges[k], x) { assert Inside(ranges[..n][k], x); }
    }
  }

  predicate AllBelow(ordinals: seq<nat>, total: nat) { forall k :: 0 <= k < |ordinals| ==> ordinals[k] < total }

  function Candidates<H>(g: Compiled<H>, ordinals: seq<nat>): (cs: seq<Candidate<H>>)
    requires WellFormed(g) && AllBelow(ordinals, g.total)
    ensures |cs| == |ordinals|
    ensures forall k :: 0 <= k < |cs| ==> cs[k] == CandidateAt(g, ordinals[k])
  {
    seq(|ordinals|, k requires 0 <= k < |ordinals| => CandidateAt(g, ordinals[k]))
  }

  /** Materialises exactly the acceptable requests: the candidate of each ordinal, range by range. */
  method MaterializeRanges<H>(g: Compiled<H>, ranges: seq<Item>)
      returns (r: Option<seq<Candidate<H>>>, ghost listing: seq<seq<nat>>)
    requires WellFormed(g)
    ensures InOrder(Sizes(g.axes), listing) && |listing| == g.total
    ensures r.Some? <==> Acceptable(ranges, g.total)
    ensures r.Some? ==> AllBelow(Ordinals(ranges), g.total) && r.value == Candidates(g, Ordinals(ranges))
    ensures r.Some? ==> forall k :: 0 <= k < |r.value| ==>
              MadeOf(g, r.value[k], Ordinals(ranges)[k], listing[Ordinals(ranges)[k]])
  {
    listing := Decodings(Sizes(g.axes));
    DecodingsInOrder(Sizes(g.axes));
    if ranges == [] { return None, listing; }
    var stop := 0;
    for k := 0 to |ranges|
      invariant k > 0 ==> Acceptable(ranges[..k], g.total) && stop == ranges[k - 1].value.0 + ranges[k - 1].value.1
    {
      if ranges[k].None? || ranges[k].value.1 == 0 || ranges[k].value.0 >= g.total
         || ranges[k].value.1 > g.total - ranges[k].value.0 || (k > 0 && ranges[k].value.0 < stop) {
        assert !Fits(ranges[k], g.total, 0) ||
               (k > 0 && ranges[k].value.0 < ranges[k - 1].value.0 + ranges[k - 1].value.1);
        return None, listing;
      }
      stop := ranges[k].value.0 + ranges[k].value.1;
      assert forall j :: 0 <= j < k ==> ranges[..k + 1][j] == ranges[j] && ranges[..k][j] == ranges[j];
      assert Fits(ranges[k], g.total, 0);
    }
    assert ranges[..|ranges|] == ranges;
    var candidates := Produce(g, ranges);
    r := Some(candidates);
    forall k | 0 <= k < |candidates|
      ensures MadeOf(g, candidates[k], Ordinals(ranges)[k], listing[Ordinals(ranges)[k]])
    {
      CandidateIsMade(g, Ordinals(ranges)[k]);
    }
  }

  method Produce<H>(g: Compiled<H>, ranges: seq<Item>) returns (cs: seq<Candidate<H>>)
    requires WellFormed(g) && Acceptable(ranges, g.total)
    ensures AllBelow(Ordinals(ranges), g.total) && cs == Candidates(g, Ordinals(ranges))
  {
    hide CandidateAt, WellFormed;
    cs := [];
    var coordinates := new nat[|g.axes|];
    for k := 0 to |ranges|
      invariant AllBelow(Ordinals(ranges[..k]), g.total) && cs == Candidates(g, Ordinals(ranges[..k]))
    {
      assert Fits(ranges[k], g.total, 0);
      var more := ProduceRange(g, ranges[k].value.0, ranges[k].value.1, coordinates);
      assert ranges[..k + 1][..k] == ranges[..k];
      cs := cs + more;
    }
    assert ranges[..|ranges|] == ranges;
  }

  method ProduceRange<H>(g: Compiled<H>, start: nat, length: nat, coordinates: array<nat>)
      returns (cs: seq<Candidate<H>>)
    requires WellFormed(g) && start + length <= g.total && coordinates.Length == |g.axes|
    modifies coordinates
    ensures AllBelow(Span(start, length), g.total) && cs == Candidates(g, Span(start, length))
  {
    hide CandidateAt, WellFormed;
    cs := [];
    for n := 0 to length
      invariant AllBelow(Span(start, n), g.total) && cs == Candidates(g, Span(start, n))
    {
      var c := Build(g, start + n, coordinates);
      cs := cs + [c];
    }
  }
}
