/** Facts about real arithmetic that the solver needs by name. */
module Algebra {

  function Max(a: real, b: real): real { if a >= b then a else b }
  function Min(a: real, b: real): real { if a <= b then a else b }
  function Abs(a: real): real { if a >= 0.0 then a else -a }

  lemma MulPos(a: real, b: real)
    requires a > 0.0 && b > 0.0
    ensures a * b > 0.0
  {}

  lemma MulNonNeg(a: real, b: real)
    requires a >= 0.0 && b >= 0.0
    ensures a * b >= 0.0
  {}

  lemma MulMonotone(a: real, b: real, c: real)
    requires a <= b && c >= 0.0
    ensures a * c <= b * c
  {
    MulNonNeg(b - a, c);
    assert (b - a) * c == b * c - a * c;
  }

  lemma MulStrict(a: real, b: real, c: real)
    requires a < b && c > 0.0
    ensures a * c < b * c
  {
    MulPos(b - a, c);
    assert (b - a) * c == b * c - a * c;
  }

  lemma Commute(a: real, b: real)
    ensures a * b == b * a
  {}

  lemma Distribute(a: real, b: real, c: real)
    ensures (a + b) * c == a * c + b * c
  {}

  lemma ProductPos(a: real, b: real, product: real)
    requires a > 0.0 && b > 0.0 && product == a * b
    ensures product > 0.0
  {
    MulPos(a, b);
  }

  lemma Scale(a: nat, b: nat, n: nat)
    requires a <= b
    ensures a * n <= b * n
  {
    assert (b - a) * n >= 0;
  }

  function Square(d: real): (r: real)
    ensures r >= 0.0 && (d != 0.0 ==> r > 0.0)
  {
    var a := Abs(d);
    if a == 0.0 then 0.0 else ProductPos(a, a, a * a); a * a
  }

  lemma SquareIs(d: real)
    ensures Square(d) == d * d
  {
    if d < 0.0 { assert (-d) * (-d) == d * d; }
  }

  lemma Cancel(a: real, b: real, c: real)
    requires c != 0.0 && a * c == b * c
    ensures a == b
  {
    assert (a - b) * c == 0.0;
  }

  lemma PositiveFactor(a: real, b: real)
    requires a * b > 0.0 && b >= 0.0
    ensures a > 0.0
  {
    if a <= 0.0 { MulMonotone(a, 0.0, b); }
  }

  lemma DivMul(a: real, b: real)
    requires b != 0.0
    ensures a / b * b == a
  {}

  lemma DivCompare(a: real, b: real, c: real)
    requires c > 0.0
    ensures a / c < b <==> a < b * c
    ensures a / c == b <==> a == b * c
  {
    var q := a / c;
    assert a == q * c;
    if q < b {
      MulStrict(q, b, c);
      assert a < b * c;
    } else if q == b {
    } else {
      MulStrict(b, q, c);
      assert a > b * c;
    }
  }

  lemma DivPos(a: real, b: real)
    requires a >= 0.0 && b > 0.0
    ensures a / b >= 0.0 && (a > 0.0 ==> a / b > 0.0)
  {
    DivCompare(a, 0.0, b);
  }

  lemma DivMonotone(a: real, b: real, c: real)
    requires a <= b && c > 0.0
    ensures a / c <= b / c
  {
    var q := b / c;
    assert q * c == b;
    DivCompare(a, q, c);
  }

  lemma Squares(a: real, b: real)
    requires 0.0 <= a && 0.0 <= b
    ensures a <= b <==> a * a <= b * b
  {
    if a <= b {
      MulNonNeg(b - a, b + a);
      assert (b - a) * (b + a) == b * b - a * a;
    } else {
      MulPos(a - b, a + b);
      assert (a - b) * (a + b) == a * a - b * b;
    }
  }
}
