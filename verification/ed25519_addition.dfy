/** The addition formula is total on the curve and computes the Edwards addition law. */
module Ed25519Addition {
  import opened Modular
  import opened Ed25519
  import opened Ed25519Roots

  /** The product both denominators are built from. */
  function Cross(c: Curve, p: Point, r: Point): int {
    c.d * p.x * r.x * p.y * r.y
  }

  lemma SquareOfSum(j: int, x: int, y: int, eps: int)
    requires eps * eps == 1
    ensures (j * x + eps * y) * (j * x + eps * y) == (j * j) * (x * x) + y * y + 2 * eps * j * (x * y)
  {
    var a, b := j * x, eps * y;
    assert (a + b) * (a + b) == a * a + 2 * a * b + b * b;
    assert a * a == (j * j) * (x * x);
    assert b * b == (eps * eps) * (y * y);
    assert a * b == eps * j * (x * y);
  }

  /** With s = j*j + 1 and the curve equation off by `off`, the square of jx + eps*y. */
  lemma SquareOnCurve(j: int, x: int, y: int, eps: int, d: int, off: int)
    requires eps * eps == 1 && off == y * y - x * x - 1 - d * ((x * y) * (x * y))
    ensures (j * x + eps * y) * (j * x + eps * y)
            == (j * j + 1) * (x * x) + off + 1 + d * ((x * y) * (x * y)) + 2 * eps * j * (x * y)
  {
    SquareOfSum(j, x, y, eps);
    assert (j * j + 1) * (x * x) == (j * j) * (x * x) + x * x;
  }

  lemma ScaledSquare(d: int, m: int, n: int, j: int, sx: int, off: int, e: int)
    requires e == d * (m * n)
    ensures (d * (m * m)) * (sx + off + 1 + d * (n * n) + 2 * j * n)
            == (d * (m * m)) * sx + (d * (m * m)) * off + d * (m * m) + e * e + 2 * j * m * e
  {
    var k := d * (m * m);
    assert k * (d * (n * n)) == e * e by {
      assert k * (d * (n * n)) == (d * (m * n)) * (d * (m * n));
    }
    assert k * (2 * j * n) == 2 * j * m * e by {
      assert k * (2 * j * n) == 2 * j * m * (d * (m * n));
    }
  }

  lemma DifferenceFromOne(e: int, eps: int, jm: int)
    requires eps * eps == 1
    ensures 1 - e * e + 2 * jm * (eps - e) == -(e - eps) * (e + eps + 2 * jm)
  {
    var t := e - eps;
    assert t * (e + eps + 2 * jm) == t * (e + eps) + 2 * jm * t;
    assert t * (e + eps) == e * e - eps * eps;
  }

  lemma ZeroTerm(k: int, z: int, q: nat)
    requires q > 0 && z % q == 0
    ensures (k * z) % q == 0 && (z * k) % q == 0
  {
    ScaleCong(k, z, 0, q);
  }

  lemma ZeroSum(a: int, b: int, q: nat)
    requires q > 0 && a % q == 0 && b % q == 0
    ensures (a + b) % q == 0 && (a - b) % q == 0
  {
    CongAdd(a, 0, b, 0, q);
  }

  /** If the cross product were eps, one square would be d times another. */
  lemma SquaresMeet(d: int, j: int, x1: int, y1: int, x2: int, y2: int, eps: int, q: nat)
    requires q > 0 && eps * eps == 1 && (j * j + 1) % q == 0
    requires (y1 * y1 - x1 * x1 - 1 - d * ((x1 * y1) * (x1 * y1))) % q == 0
    requires (y2 * y2 - x2 * x2 - 1 - d * ((x2 * y2) * (x2 * y2))) % q == 0
    requires (d * ((x1 * y1) * (x2 * y2)) - eps) % q == 0
    ensures var u, v := j * x1 + eps * y1, j * x2 + y2;
            (u * u - (d * ((x1 * y1) * (x1 * y1))) * (v * v)) % q == 0
  {
    var m, n := x1 * y1, x2 * y2;
    var a := y1 * y1 - x1 * x1 - 1 - d * (m * m);
    var b := y2 * y2 - x2 * x2 - 1 - d * (n * n);
    var s, e := j * j + 1, d * (m * n);
    var k := d * (m * m);
    var u, v := j * x1 + eps * y1, j * x2 + y2;
    SquareOnCurve(j, x1, y1, eps, d, a);
    SquareOnCurve(j, x2, y2, 1, d, b);
    ScaledSquare(d, m, n, j, s * (x2 * x2), b, e);
    DifferenceFromOne(e, eps, j * m);
    SquaresDiffer(u * u, v * v, s * (x1 * x1), s * (x2 * x2), a, b, k, e, eps, j, m);
    ZeroTerm(x1 * x1, s, q);
    ZeroTerm(x2 * x2, s, q);
    ZeroTerm(k, s * (x2 * x2), q);
    ZeroTerm(k, b, q);
    ZeroTerm(e + eps + 2 * (j * m), e - eps, q);
    ZeroSum(s * (x1 * x1), a, q);
    ZeroSum(k * (s * (x2 * x2)), k * b, q);
    ZeroSum(s * (x1 * x1) + a, k * (s * (x2 * x2)) + k * b, q);
    ZeroSum(s * (x1 * x1) + a - (k * (s * (x2 * x2)) + k * b), (e - eps) * (e + eps + 2 * (j * m)), q);
  }

  lemma SquaresDiffer(uu: int, vv: int, s1: int, s2: int, a: int, b: int, k: int, e: int, eps: int, j: int, m: int)
    requires uu == s1 + a + 1 + k + 2 * eps * j * m
    requires k * vv == k * s2 + k * b + k + e * e + 2 * j * m * e
    requires 1 - e * e + 2 * (j * m) * (eps - e) == -(e - eps) * (e + eps + 2 * (j * m))
    ensures uu - k * vv == s1 + a - (k * s2 + k * b) - (e - eps) * (e + eps + 2 * (j * m))
  {
    assert 2 * (j * m) * (eps - e) == 2 * eps * j * m - 2 * j * m * e;
  }

  lemma RegroupQuotient(d: int, m: int, v: int)
    ensures (d * (m * m)) * (v * v) == d * ((m * v) * (m * v))
  {
    assert (m * v) * (m * v) == (m * m) * (v * v);
  }

  lemma RatioIsRoot(c: Curve, u: int, w: int, z: int)
    requires Cong(w * z, 1, c.q) && Cong(u * u, c.d * (w * w), c.q)
    ensures !NotRootOfD(c, u * z)
  {
    ScaleCong(z * z, u * u, c.d * (w * w), c.q);
    assert (z * z) * (u * u) == (u * z) * (u * z);
    RegroupSquares(c.d, w, z);
    CongMul(w * z, 1, w * z, 1, c.q);
    ScaleCong(c.d, (w * z) * (w * z), 1, c.q);
    CongTrans((u * z) * (u * z), (z * z) * (c.d * (w * w)), c.d, c.q);
  }

  /** d times a nonzero square is no square. */
  lemma NoSquareRatio(c: Curve, u: int, w: int)
    requires FieldFacts(c) && (u * u - c.d * (w * w)) % c.q == 0
    ensures w % c.q == 0
  {
    if w % c.q != 0 {
      InvRight(c, w);
      RatioIsRoot(c, u, w, Inv(c, w));
      assert false;
    }
  }

  /** Both points on the curve, in terms of their coordinate products. */
  predicate OffBy(d: int, x: int, y: int, q: nat)
    requires q > 0
  {
    (y * y - x * x - 1 - d * ((x * y) * (x * y))) % q == 0
  }

  lemma CurveProducts(c: Curve, p: Point)
    requires IsOnCurve(c, p)
    ensures OffBy(c.d, p.x, p.y, c.q)
  {
    var x, y := p.x, p.y;
    assert (x * y) * (x * y) == (x * x) * (y * y);
    assert c.d * ((x * x) * (y * y)) == c.d * x * x * y * y;
    assert -x * x == -(x * x);
  }

  /** The cross product is eps: then each root j of -1 gives a vanishing sum. */
  lemma SideVanishes(c: Curve, j: int, p: Point, r: Point, eps: int)
    requires FieldFacts(c) && eps * eps == 1 && (j * j + 1) % c.q == 0
    requires OffBy(c.d, p.x, p.y, c.q) && OffBy(c.d, r.x, r.y, c.q)
    requires (c.d * ((p.x * p.y) * (r.x * r.y)) - eps) % c.q == 0
    ensures ((p.x * p.y) * (j * r.x + r.y)) % c.q == 0
  {
    SquaresMeet(c.d, j, p.x, p.y, r.x, r.y, eps, c.q);
    RegroupQuotient(c.d, p.x * p.y, j * r.x + r.y);
    NoSquareRatio(c, j * p.x + eps * p.y, (p.x * p.y) * (j * r.x + r.y));
  }

  lemma UnitNotZero(e: int, eps: int, q: nat)
    requires q > 2 && (eps == 1 || eps == -1) && (e - eps) % q == 0
    ensures e % q != 0
  {
    if e % q == 0 {
      ZeroSum(e, e - eps, q);
      NearZero(e - (e - eps), q);
    }
  }

  lemma FactorsNotZero(k: int, m: int, n: int, q: nat)
    requires q > 0 && (k * (m * n)) % q != 0
    ensures m % q != 0 && n % q != 0
  {
    if m % q == 0 {
      ZeroTerm(n, m, q);
      ZeroTerm(k, m * n, q);
    }
    if n % q == 0 {
      ZeroTerm(m, n, q);
      ZeroTerm(k, m * n, q);
    }
  }

  lemma OtherRoot(i: int, q: nat)
    requires q > 0 && (i * i + 1) % q == 0
    ensures ((-i) * (-i) + 1) % q == 0
  {
    assert (-i) * (-i) == i * i;
  }

  lemma ProductIsNoUnit(c: Curve, p: Point, r: Point, m: int, n: int, e: int, eps: int)
    requires FieldFacts(c) && (eps == 1 || eps == -1)
    requires OffBy(c.d, p.x, p.y, c.q) && OffBy(c.d, r.x, r.y, c.q)
    requires m == p.x * p.y && n == r.x * r.y && e == c.d * (m * n)
    ensures (e - eps) % c.q != 0
  {
    if (e - eps) % c.q == 0 {
      OtherRoot(c.i, c.q);
      SideVanishes(c, c.i, p, r, eps);
      SideVanishes(c, -c.i, p, r, eps);
      UnitNotZero(e, eps, c.q);
      FactorsNotZero(c.d, m, n, c.q);
      BothSidesVanish(c, m, r.x, r.y, c.i);
      ZeroTerm(r.x, r.y, c.q);
      assert false;
    }
  }

  lemma CrossProducts(c: Curve, p: Point, r: Point)
    ensures Cross(c, p, r) == c.d * ((p.x * p.y) * (r.x * r.y))
  {
  }

  /** No two curve points have cross product 1 or -1, so the addition formula never divides by zero. */
  lemma CrossIsNoUnit(c: Curve, p: Point, r: Point, eps: int)
    requires FieldFacts(c) && IsOnCurve(c, p) && IsOnCurve(c, r) && (eps == 1 || eps == -1)
    ensures (Cross(c, p, r) - eps) % c.q != 0
  {
    CurveProducts(c, p);
    CurveProducts(c, r);
    CrossProducts(c, p, r);
    ProductIsNoUnit(c, p, r, p.x * p.y, r.x * r.y, Cross(c, p, r), eps);
  }

  lemma BothSidesVanish(c: Curve, m: int, x: int, y: int, j: int)
    requires FieldFacts(c) && m % c.q != 0
    requires (m * (j * x + y)) % c.q == 0 && (m * (-j * x + y)) % c.q == 0
    ensures y % c.q == 0
  {
    NoZeroDivisors(c, m, j * x + y);
    NoZeroDivisors(c, m, -j * x + y);
    ZeroSum(j * x + y, -j * x + y, c.q);
    assert (j * x + y) + (-j * x + y) == 2 * y;
    SmallNotZero(c.q);
    NoZeroDivisors(c, 2, y);
  }

  lemma SmallNotZero(q: nat)
    requires q > 2
    ensures 2 % q != 0
  {
  }

  // ---- The addition law ----

  /** s solves the two equations of the Edwards addition law of section 5.1.4 of RFC 8032. */
  predicate Adds(c: Curve, p: Point, r: Point, s: Point) {
    && 0 <= s.x < c.q && 0 <= s.y < c.q
    && Cong(s.x * (1 + Cross(c, p, r)), p.x * r.y + r.x * p.y, c.q)
    && Cong(s.y * (1 - Cross(c, p, r)), p.y * r.y + p.x * r.x, c.q)
  }

  lemma QuotientSolves(c: Curve, num: int, den: int)
    requires FieldFacts(c) && den % c.q != 0
    ensures Cong(((num * Inv(c, den)) % c.q) * den, num, c.q)
  {
    var w := num * Inv(c, den);
    CongMod(w, c.q);
    ScaleCong(den, w % c.q, w, c.q);
    Cancel(c, den, num);
    CongTrans((w % c.q) * den, w * den, num, c.q);
  }

  lemma FactorOut(a: int, b: int, den: int)
    ensures a * den - b * den == (a - b) * den
  {
  }

  lemma SolutionIsUnique(c: Curve, a: int, b: int, den: int, num: int)
    requires FieldFacts(c) && den % c.q != 0 && 0 <= a < c.q && 0 <= b < c.q
    requires Cong(a * den, num, c.q) && Cong(b * den, num, c.q)
    ensures a == b
  {
    CongSym(b * den, num, c.q);
    CongTrans(a * den, num, b * den, c.q);
    FactorOut(a, b, den);
    NoZeroDivisors(c, a - b, den);
    NearZero(a - b, c.q);
  }

  /** On curve points the formula gives the one solution of the addition law. */
  lemma EdwardsAdds(c: Curve, p: Point, r: Point, s: Point)
    requires FieldFacts(c) && IsOnCurve(c, p) && IsOnCurve(c, r)
    ensures s == Edwards(c, p, r) <==> Adds(c, p, r, s)
  {
    var e := Cross(c, p, r);
    var t := Edwards(c, p, r);
    CrossIsNoUnit(c, p, r, 1);
    CrossIsNoUnit(c, p, r, -1);
    DenominatorsInvertible(e, c.q);
    QuotientSolves(c, p.x * r.y + r.x * p.y, 1 + e);
    QuotientSolves(c, p.y * r.y + p.x * r.x, 1 - e);
    assert Adds(c, p, r, t);
    if Adds(c, p, r, s) {
      SolutionIsUnique(c, s.x, t.x, 1 + e, p.x * r.y + r.x * p.y);
      SolutionIsUnique(c, s.y, t.y, 1 - e, p.y * r.y + p.x * r.x);
    }
  }

  lemma DenominatorsInvertible(e: int, q: nat)
    requires q > 0 && (e - 1) % q != 0 && (e + 1) % q != 0
    ensures (1 + e) % q != 0 && (1 - e) % q != 0
  {
    if (1 - e) % q == 0 {
      CongSym(1, e, q);
    }
  }

  lemma AddsCommutes(c: Curve, p: Point, r: Point, s: Point)
    requires Adds(c, p, r, s)
    ensures Adds(c, r, p, s)
  {
    CrossCommutes(c, p, r);
    assert p.x * r.y + r.x * p.y == r.x * p.y + p.x * r.y;
    assert p.y * r.y + p.x * r.x == r.y * p.y + r.x * p.x;
  }

  lemma CrossCommutes(c: Curve, p: Point, r: Point)
    ensures Cross(c, p, r) == Cross(c, r, p)
  {
    CrossProducts(c, p, r);
    CrossProducts(c, r, p);
    assert (p.x * p.y) * (r.x * r.y) == (r.x * r.y) * (p.x * p.y);
  }

  /** Addition on the curve is commutative and has the identity. */
  lemma EdwardsCommutes(c: Curve, p: Point, r: Point, s: Point)
    requires FieldFacts(c) && IsOnCurve(c, p) && IsOnCurve(c, r) && s == Edwards(c, p, r)
    ensures s == Edwards(c, r, p)
  {
    EdwardsAdds(c, p, r, s);
    AddsCommutes(c, p, r, s);
    EdwardsAdds(c, r, p, s);
  }

  lemma IdentityOnCurve(c: Curve)
    ensures IsOnCurve(c, IDENTITY)
  {
  }

  lemma IdentityCross(c: Curve, p: Point)
    ensures Cross(c, IDENTITY, p) == 0
  {
    assert c.d * 0 * p.x == 0;
  }

  lemma EdwardsIdentity(c: Curve, p: Point)
    requires FieldFacts(c) && OnCurve(c, p)
    ensures Edwards(c, IDENTITY, p) == p
  {
    IdentityOnCurve(c);
    IdentityCross(c, p);
    CongRefl(p.x, c.q);
    CongRefl(p.y, c.q);
    assert Adds(c, IDENTITY, p, p);
    EdwardsAdds(c, IDENTITY, p, p);
  }
}
