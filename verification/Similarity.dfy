/** Cosine similarity over the reals. */
module Similarity {

  type Vector = seq<real>

  function Dot(a: Vector, b: Vector): real
    requires |a| == |b|
  {
    if a == [] then 0.0 else Dot(a[1..], b[1..]) + a[0] * b[0]
  }

  ghost predicate IsSqrt(sqrt: real -> real) {
    forall x :: x >= 0.0 ==> sqrt(x) >= 0.0 && sqrt(x) * sqrt(x) == x
  }

  function ClampUnit(x: real): real {
    var low := if x < 1.0 then x else 1.0;
    if low > -1.0 then low else -1.0
  }

  function Normalised(dot: real, normA: real, normB: real): real {
    if normA == 0.0 || normB == 0.0 then 0.0
    else
      NonZeroProduct(normA, normB);
      ClampUnit(dot / (normA * normB))
  }

  function CosineSimilarity(a: Vector, b: Vector, sqrt: real -> real): (similarity: real)
    ensures -1.0 <= similarity <= 1.0
  {
    if |a| != |b| then 0.0
    else
      var normA, normB := sqrt(Dot(a, a)), sqrt(Dot(b, b));
      Normalised(Dot(a, b), normA, normB)
  }

  lemma NonZeroProduct(x: real, y: real)
    requires x != 0.0 && y != 0.0
    ensures x * y != 0.0
  {
  }

  lemma {:induction false} DotSelf(a: Vector)
    ensures Dot(a, a) >= 0.0
  {
    if a == [] {
    } else {
      DotSelf(a[1..]);
      assert a[0] * a[0] >= 0.0;
    }
  }

  /** The sum of (s*a[i] - t*b[i])^2, written out by the three dot products. */
  function Spread(s: real, t: real, aa: real, ab: real, bb: real): real {
    s * s * aa - 2.0 * (s * t * ab) + t * t * bb
  }

  lemma {:induction false} SpreadIsNonNegative(a: Vector, b: Vector, s: real, t: real)
    requires |a| == |b|
    ensures Spread(s, t, Dot(a, a), Dot(a, b), Dot(b, b)) >= 0.0
  {
    if a == [] {
    } else {
      SpreadIsNonNegative(a[1..], b[1..], s, t);
      SpreadGrows(s, t, a[0], b[0], Dot(a[1..], a[1..]), Dot(a[1..], b[1..]), Dot(b[1..], b[1..]));
    }
  }

  lemma SpreadGrows(s: real, t: real, x: real, y: real, aa: real, ab: real, bb: real)
    ensures Spread(s, t, aa + x * x, ab + x * y, bb + y * y) >= Spread(s, t, aa, ab, bb)
  {
    SquareOfDifference(s * x, t * y);
    assert s * x * (s * x) == s * s * (x * x) && t * y * (t * y) == t * t * (y * y);
    assert s * x * (t * y) == s * t * (x * y);
    Distribute(s * s, aa, x * x);
    Distribute(s * t, ab, x * y);
    Distribute(t * t, bb, y * y);
  }

  lemma SquareOfDifference(p: real, q: real)
    ensures p * p - 2.0 * (p * q) + q * q >= 0.0
  {
    assert (p - q) * (p - q) >= 0.0;
  }

  lemma Distribute(c: real, x: real, y: real)
    ensures c * (x + y) == c * x + c * y
  {
  }

  /** A vector of norm zero is orthogonal to every other. */
  lemma {:induction false} ZeroVector(a: Vector, b: Vector)
    requires |a| == |b| && Dot(b, b) == 0.0
    ensures Dot(a, b) == 0.0
  {
    if a == [] {
    } else {
      DotSelf(b[1..]);
      SquareSign(b[0]);
      ZeroVector(a[1..], b[1..]);
      assert a[0] * b[0] == 0.0;
    }
  }

  lemma SquareSign(x: real)
    ensures if x == 0.0 then x * x == 0.0 else x * x > 0.0
  {
  }

  lemma {:induction false} CauchySchwarz(a: Vector, b: Vector)
    requires |a| == |b|
    ensures Dot(a, b) * Dot(a, b) <= Dot(a, a) * Dot(b, b)
  {
    DotSelf(b);
    if Dot(b, b) == 0.0 {
      ZeroVector(a, b);
      return;
    }
    SpreadIsNonNegative(a, b, Dot(b, b), Dot(a, b));
    Discriminant(Dot(a, a), Dot(a, b), Dot(b, b));
  }

  lemma Discriminant(aa: real, ab: real, bb: real)
    requires bb > 0.0 && Spread(bb, ab, aa, ab, bb) >= 0.0
    ensures ab * ab <= aa * bb
  {
    var gap := aa * bb - ab * ab;
    assert bb * bb * aa == bb * (aa * bb);
    assert bb * ab * ab == bb * (ab * ab);
    assert ab * ab * bb == bb * (ab * ab);
    Distribute(bb, aa * bb, -(ab * ab));
    assert bb * -(ab * ab) == -(bb * (ab * ab));
    assert bb * gap >= 0.0;
    SignOf(gap, bb);
  }

  lemma SignOf(d: real, x: real)
    requires x * d >= 0.0 && x > 0.0
    ensures d >= 0.0
  {
  }

  lemma SquareOrder(x: real, y: real)
    requires y >= 0.0 && x * x <= y * y
    ensures -y <= x <= y
  {
    assert (y - x) * (y + x) == y * y - x * x;
    if y + x > 0.0 {
      SignOf(y - x, y + x);
    } else if y - x > 0.0 {
      SignOf(y + x, y - x);
    }
  }

  lemma QuotientBound(aa: real, ab: real, bb: real, m: real, n: real)
    requires m > 0.0 && n > 0.0 && m * m == aa && n * n == bb && ab * ab <= aa * bb
    ensures m * n > 0.0 && -1.0 <= ab / (m * n) <= 1.0
  {
    assert m * n > 0.0;
    Regroup(m, n);
    SquareOrder(ab, m * n);
    QuotientInUnit(ab, m * n);
  }

  lemma Regroup(m: real, n: real)
    requires m >= 0.0 && n >= 0.0
    ensures m * n >= 0.0 && (m * n) * (m * n) == (m * m) * (n * n)
  {
  }

  lemma QuotientInUnit(x: real, y: real)
    requires y > 0.0 && -y <= x <= y
    ensures -1.0 <= x / y <= 1.0
  {
    assert x / y * y == x;
    assert (1.0 - x / y) * y == y - x && (x / y + 1.0) * y == x + y;
    SignOf(1.0 - x / y, y);
    SignOf(x / y + 1.0, y);
  }

  lemma NormalisedIsQuotient(aa: real, ab: real, bb: real, m: real, n: real)
    requires m >= 0.0 && n >= 0.0 && m != 0.0 && n != 0.0
    requires m * m == aa && n * n == bb && ab * ab <= aa * bb
    ensures m * n != 0.0 && Normalised(ab, m, n) == ab / (m * n)
  {
    QuotientBound(aa, ab, bb, m, n);
  }

  /**
   Over the reals the clamp never changes anything: two vectors of one length and of non-zero
   norms have exactly their normalised dot product as similarity.
   */
  lemma {:induction false} ClampIsNeverNeeded(a: Vector, b: Vector, sqrt: real -> real)
    requires IsSqrt(sqrt) && |a| == |b| && sqrt(Dot(a, a)) != 0.0 && sqrt(Dot(b, b)) != 0.0
    ensures sqrt(Dot(a, a)) * sqrt(Dot(b, b)) != 0.0
    ensures CosineSimilarity(a, b, sqrt) == Dot(a, b) / (sqrt(Dot(a, a)) * sqrt(Dot(b, b)))
  {
    DotSelf(a);
    DotSelf(b);
    CauchySchwarz(a, b);
    NormalisedIsQuotient(Dot(a, a), Dot(a, b), Dot(b, b), sqrt(Dot(a, a)), sqrt(Dot(b, b)));
  }

  lemma NormalisedSelf(dot: real, norm: real)
    requires dot != 0.0 && norm * norm == dot
    ensures Normalised(dot, norm, norm) == 1.0
  {
    assert norm != 0.0;
    QuotientOfItself(dot);
  }

  lemma QuotientOfItself(x: real)
    requires x != 0.0
    ensures x / x == 1.0
  {
  }

  /** A non-zero vector is as similar to itself as can be. */
  lemma {:induction false} SelfSimilarity(a: Vector, sqrt: real -> real)
    requires IsSqrt(sqrt) && Dot(a, a) != 0.0
    ensures CosineSimilarity(a, a, sqrt) == 1.0
  {
    DotSelf(a);
    NormalisedSelf(Dot(a, a), sqrt(Dot(a, a)));
  }

  /** The dot product adds up the products of the entries at equal places. */
  lemma {:induction false} DotAppends(a: Vector, b: Vector, c: Vector, d: Vector)
    requires |a| == |c| && |b| == |d|
    ensures Dot(a + b, c + d) == Dot(a, c) + Dot(b, d)
  {
    if a == [] {
      assert a + b == b && c + d == d;
    } else {
      DotAppends(a[1..], b, c[1..], d);
      assert (a + b)[1..] == a[1..] + b && (c + d)[1..] == c[1..] + d;
    }
  }

  lemma DotOfOne(x: real, y: real)
    ensures Dot([x], [y]) == x * y && Dot([], []) == 0.0
  {
    assert Dot([x][1..], [y][1..]) == 0.0;
  }

  /** Vectors of different lengths and vectors of norm zero are similar to nothing. */
  lemma NoSimilarity(a: Vector, b: Vector, sqrt: real -> real)
    requires IsSqrt(sqrt)
    ensures |a| != |b| ==> CosineSimilarity(a, b, sqrt) == 0.0
    ensures Dot(a, a) == 0.0 || Dot(b, b) == 0.0 ==> CosineSimilarity(a, b, sqrt) == 0.0
  {
    RootOfZero(sqrt);
  }

  lemma RootOfZero(sqrt: real -> real)
    requires IsSqrt(sqrt)
    ensures sqrt(0.0) == 0.0
  {
    ZeroSquare(sqrt(0.0));
  }

  lemma ZeroSquare(x: real)
    requires x * x == 0.0
    ensures x == 0.0
  {
    if x != 0.0 {
      ZeroProduct(x, x, x * x);
    }
  }

  lemma ZeroProduct(x: real, y: real, p: real)
    requires p == x * y && p == 0.0 && x != 0.0
    ensures y == 0.0
  {
  }
}
