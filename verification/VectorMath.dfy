/** Dot products and lengths (`vector-math.ts`), over the reals; a length is any root of the squared length. */
module VectorMath {
  import opened Prelude

  type Vector = seq<real>

  function Dot(a: Vector, b: Vector): real
    requires |a| == |b|
  {
    if a == [] then 0.0 else Dot(a[..|a| - 1], b[..|b| - 1]) + Times(a[|a| - 1], b[|b| - 1])
  }

  function Times(x: real, y: real): real {
    x * y
  }

  /** `a + t * b`, component by component. */
  function Shifted(a: Vector, t: real, b: Vector): (v: Vector)
    requires |a| == |b|
    ensures |v| == |a|
  {
    seq(|a|, i requires 0 <= i < |a| => a[i] + Times(t, b[i]))
  }

  predicate IsZero(a: Vector) {
    forall i :: 0 <= i < |a| ==> a[i] == 0.0
  }

  /** `x` is the square root of `square`. */
  predicate IsRoot(x: real, square: real) {
    x >= 0.0 && Times(x, x) == square
  }

  method DotProduct(a: Vector, b: Vector) returns (r: Result<real>)
    ensures r == if |a| != |b| || a == [] then Err(InvalidArgument) else Ok(Dot(a, b))
  {
    if |a| != |b| || a == [] { return Err(InvalidArgument); }
    var total := 0.0;
    for i := 0 to |a|
      invariant total == Dot(a[..i], b[..i])
    {
      assert a[..i + 1][..i] == a[..i] && b[..i + 1][..i] == b[..i];
      total := total + a[i] * b[i];
    }
    assert a[..|a|] == a && b[..|b|] == b;
    return Ok(total);
  }

  lemma SquareNonNegative(x: real)
    ensures Times(x, x) >= 0.0 && (Times(x, x) == 0.0 <==> x == 0.0)
  {
    if x > 0.0 {
      PositiveProduct(x, x);
    } else if x < 0.0 {
      PositiveProduct(-x, -x);
      assert Times(-x, -x) == Times(x, x);
    }
  }

  lemma PositiveProduct(x: real, y: real)
    requires x > 0.0 && y > 0.0
    ensures Times(x, y) > 0.0
  {
  }

  /** The squared length is never negative, and zero only for the zero vector. */
  lemma {:induction false} SquaredLength(a: Vector)
    ensures Dot(a, a) >= 0.0 && (Dot(a, a) == 0.0 <==> IsZero(a))
  {
    if a == [] {
    } else {
      var front, last := a[..|a| - 1], a[|a| - 1];
      SquaredLength(front);
      SquareNonNegative(last);
      assert a == front + [last];
    }
  }

  lemma ShiftExpands(x: real, t: real, y: real)
    ensures Times(x + Times(t, y), x + Times(t, y)) == Times(x, x) + 2.0 * Times(t, Times(x, y)) + Times(Times(t, t), Times(y, y))
  {
  }

  lemma Distributes(t: real, x: real, y: real)
    ensures Times(t, x + y) == Times(t, x) + Times(t, y)
  {
  }

  lemma {:induction false} ShiftedSquare(a: Vector, t: real, b: Vector)
    requires |a| == |b|
    ensures Dot(Shifted(a, t, b), Shifted(a, t, b)) == Dot(a, a) + 2.0 * Times(t, Dot(a, b)) + Times(Times(t, t), Dot(b, b))
  {
    if a == [] {
    } else {
      var n := |a| - 1;
      ShiftedSquare(a[..n], t, b[..n]);
      assert Shifted(a, t, b)[..n] == Shifted(a[..n], t, b[..n]);
      ShiftExpands(a[n], t, b[n]);
      Distributes(t, Dot(a[..n], b[..n]), Times(a[n], b[n]));
      Distributes(Times(t, t), Dot(b[..n], b[..n]), Times(b[n], b[n]));
    }
  }

  lemma {:induction false} DotWithZero(a: Vector, b: Vector)
    requires |a| == |b| && IsZero(b)
    ensures Dot(a, b) == 0.0
  {
    if a == [] {
    } else {
      DotWithZero(a[..|a| - 1], b[..|b| - 1]);
    }
  }

  lemma CompleteSquare(aa: real, d: real, bb: real, t: real)
    requires bb > 0.0 && t == -d / bb
    ensures Times(bb, aa + 2.0 * Times(t, d) + Times(Times(t, t), bb)) == Times(aa, bb) - Times(d, d)
  {
    assert t * bb == -d;
    calc {
      bb * (aa + 2.0 * (t * d) + (t * t) * bb);
      aa * bb + 2.0 * ((t * bb) * d) + (t * bb) * (t * bb);
      aa * bb - d * d;
    }
  }

  /** `b` is zero, or `a` is a multiple of it. */
  ghost predicate Parallel(a: Vector, b: Vector)
    requires |a| == |b|
  {
    IsZero(b) || exists t :: IsZero(Shifted(a, t, b))
  }

  /** The multiple of `b` closest to `-a`, and what is left of `a` there. */
  lemma BestShift(a: Vector, b: Vector) returns (t: real)
    requires |a| == |b| && Dot(b, b) > 0.0
    ensures var left := Dot(Shifted(a, t, b), Shifted(a, t, b));
      left >= 0.0 && (left == 0.0 <==> IsZero(Shifted(a, t, b)))
      && Times(Dot(b, b), left) == Times(Dot(a, a), Dot(b, b)) - Times(Dot(a, b), Dot(a, b))
  {
    t := -Dot(a, b) / Dot(b, b);
    ShiftedSquare(a, t, b);
    SquaredLength(Shifted(a, t, b));
    CompleteSquare(Dot(a, a), Dot(a, b), Dot(b, b), t);
  }

  lemma NonNegativeProduct(x: real, y: real)
    requires x > 0.0 && y >= 0.0
    ensures Times(x, y) >= 0.0 && (Times(x, y) == 0.0 <==> y == 0.0)
  {
    if y > 0.0 { PositiveProduct(x, y); }
  }

  /** The square of a dot product is at most the product of the squared lengths. */
  lemma {:induction false} CauchySchwarz(a: Vector, b: Vector)
    requires |a| == |b|
    ensures Times(Dot(a, b), Dot(a, b)) <= Times(Dot(a, a), Dot(b, b))
  {
    SquaredLength(b);
    if IsZero(b) {
      DotWithZero(a, b);
    } else {
      var t := BestShift(a, b);
      NonNegativeProduct(Dot(b, b), Dot(Shifted(a, t, b), Shifted(a, t, b)));
    }
  }

  lemma ShiftedTimes(x: real, t: real, y: real, z: real)
    ensures Times(x + Times(t, y), z) == Times(x, z) + Times(t, Times(y, z))
  {
  }

  lemma {:induction false} ShiftedDot(a: Vector, t: real, b: Vector, c: Vector)
    requires |a| == |b| == |c|
    ensures Dot(Shifted(a, t, b), c) == Dot(a, c) + Times(t, Dot(b, c))
  {
    if a == [] {
    } else {
      var n := |a| - 1;
      ShiftedDot(a[..n], t, b[..n], c[..n]);
      assert Shifted(a, t, b)[..n] == Shifted(a[..n], t, b[..n]);
      ShiftedTimes(a[n], t, b[n], c[n]);
      Distributes(t, Dot(b[..n], c[..n]), Times(b[n], c[n]));
    }
  }

  lemma {:induction false} DotSymmetric(a: Vector, b: Vector)
    requires |a| == |b|
    ensures Dot(a, b) == Dot(b, a)
  {
    if a == [] {
    } else {
      DotSymmetric(a[..|a| - 1], b[..|b| - 1]);
    }
  }

  lemma MultipleSquares(aa: real, d: real, bb: real, t: real)
    requires d + Times(t, bb) == 0.0 && aa + Times(t, d) == 0.0
    ensures Times(d, d) == Times(aa, bb)
  {
    assert d == -(t * bb) && aa == -(t * d);
    calc {
      aa * bb;
      -(t * d) * bb;
      d * -(t * bb);
      d * d;
    }
  }

  lemma MultipleMeetsBound(a: Vector, b: Vector, t: real)
    requires |a| == |b| && IsZero(Shifted(a, t, b))
    ensures Times(Dot(a, b), Dot(a, b)) == Times(Dot(a, a), Dot(b, b))
  {
    var zero := Shifted(a, t, b);
    DotWithZero(b, zero);
    DotWithZero(a, zero);
    DotSymmetric(zero, b);
    DotSymmetric(zero, a);
    DotSymmetric(a, b);
    ShiftedDot(a, t, b, b);
    ShiftedDot(a, t, b, a);
    MultipleSquares(Dot(a, a), Dot(a, b), Dot(b, b), t);
  }

  /** The two are equal exactly when the vectors are parallel. */
  lemma {:induction false} CauchySchwarzEqualIff(a: Vector, b: Vector)
    requires |a| == |b|
    ensures Times(Dot(a, b), Dot(a, b)) == Times(Dot(a, a), Dot(b, b)) <==> Parallel(a, b)
  {
    SquaredLength(b);
    if IsZero(b) {
      DotWithZero(a, b);
    } else {
      var t := BestShift(a, b);
      NonNegativeProduct(Dot(b, b), Dot(Shifted(a, t, b), Shifted(a, t, b)));
      if u :| IsZero(Shifted(a, u, b)) {
        MultipleMeetsBound(a, b, u);
      }
    }
  }

  // Cosine similarity, for given lengths.

  method CosineSimilarity(a: Vector, b: Vector, aLength: real, bLength: real) returns (r: Result<real>)
    requires |a| == |b| ==> IsRoot(aLength, Dot(a, a)) && IsRoot(bLength, Dot(b, b))
    ensures r.Ok? <==> |a| == |b| && a != []
    ensures r.Ok? ==> -1.0 <= r.value <= 1.0
    ensures r.Ok? ==> Times(r.value, Times(aLength, bLength)) == Dot(a, b)
    ensures r.Ok? && (IsZero(a) || IsZero(b)) ==> r.value == 0.0
    ensures r.Ok? ==> (r.value == 1.0 <==> !IsZero(a) && !IsZero(b) && Parallel(a, b) && Dot(a, b) > 0.0)
    ensures r.Ok? ==> (r.value == -1.0 <==> !IsZero(a) && !IsZero(b) && Parallel(a, b) && Dot(a, b) < 0.0)
  {
    var product := DotProduct(a, b);
    if product.Err? { return product; }
    var denominator := Times(aLength, bLength);
    LengthsMultiply(a, b, aLength, bLength);
    CauchySchwarz(a, b);
    CauchySchwarzEqualIff(a, b);
    if denominator == 0.0 { return Ok(0.0); }
    r := Ok(Quotient(product.value, denominator));
  }

  /** A quotient of numbers whose squares are ordered. */
  function Quotient(p: real, q: real): (x: real)
    requires q > 0.0 && Times(p, p) <= Times(q, q)
    ensures -1.0 <= x <= 1.0 && Times(x, q) == p
    ensures x == 1.0 <==> Times(p, p) == Times(q, q) && p > 0.0
    ensures x == -1.0 <==> Times(p, p) == Times(q, q) && p < 0.0
  {
    QuotientInRange(p, q);
    p / q
  }

  lemma LargerSquare(p: real, q: real)
    requires 0.0 <= q < p
    ensures Times(q, q) < Times(p, p)
  {
    PositiveProduct(p - q, p + q);
    assert Times(p - q, p + q) == Times(p, p) - Times(q, q);
  }

  lemma EqualSquares(p: real, q: real)
    requires q > 0.0 && Times(p, p) == Times(q, q)
    ensures p == q || p == -q
  {
    assert Times(-p, -p) == Times(p, p);
    if p >= 0.0 {
      if p > q { LargerSquare(p, q); }
      if q > p { LargerSquare(q, p); }
    } else {
      if -p > q { LargerSquare(-p, q); }
      if q > -p { LargerSquare(q, -p); }
    }
  }

  lemma QuotientInRange(p: real, q: real)
    requires q > 0.0 && Times(p, p) <= Times(q, q)
    ensures -1.0 <= p / q <= 1.0 && Times(p / q, q) == p
    ensures p / q == 1.0 <==> Times(p, p) == Times(q, q) && p > 0.0
    ensures p / q == -1.0 <==> Times(p, p) == Times(q, q) && p < 0.0
  {
    assert Times(-p, -p) == Times(p, p);
    if p > q { LargerSquare(p, q); }
    if -p > q { LargerSquare(-p, q); }
    assert -q <= p <= q;
    Ordered(p, q);
    if Times(p, p) == Times(q, q) {
      EqualSquares(p, q);
    }
  }

  lemma Ordered(p: real, q: real)
    requires q > 0.0 && -q <= p <= q
    ensures -1.0 <= p / q <= 1.0 && Times(p / q, q) == p
    ensures (p / q == 1.0 <==> p == q) && (p / q == -1.0 <==> p == -q)
  {
  }

  lemma LengthsMultiply(a: Vector, b: Vector, aLength: real, bLength: real)
    requires |a| == |b| && IsRoot(aLength, Dot(a, a)) && IsRoot(bLength, Dot(b, b))
    ensures var q := Times(aLength, bLength);
      q >= 0.0 && Times(q, q) == Times(Dot(a, a), Dot(b, b)) && (q == 0.0 <==> IsZero(a) || IsZero(b))
    ensures IsZero(a) || IsZero(b) ==> Dot(a, b) == 0.0
  {
    SquaredLength(a);
    SquaredLength(b);
    SquareNonNegative(aLength);
    SquareNonNegative(bLength);
    if aLength > 0.0 { NonNegativeProduct(aLength, bLength); }
    SquareOfProduct(aLength, bLength);
    if IsZero(b) { DotWithZero(a, b); }
    if IsZero(a) {
      DotWithZero(b, a);
      DotSymmetric(a, b);
    }
  }

  lemma SquareOfProduct(x: real, y: real)
    ensures Times(Times(x, y), Times(x, y)) == Times(Times(x, x), Times(y, y))
  {
  }
}
