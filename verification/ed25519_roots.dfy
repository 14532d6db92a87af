/** Field inverses and the square root taken by xrecover, from Fermat's little theorem alone. */
module Ed25519Roots {
  import opened Modular
  import opened LittleEndian
  import opened Ed25519

  lemma PowerInverts(x: int, p: int, r: int, q: nat)
    requires q > 0 && r == x * p && Cong(r, 1, q)
    ensures Cong(x * (p % q), 1, q)
  {
    CongMod(p, q);
    ScaleCong(x, p % q, p, q);
    CongTrans(x * (p % q), r, 1, q);
  }

  lemma RemainderOne(p: int, q: nat)
    requires q > 1 && p % q == 1
    ensures Cong(p, 1, q)
  {
    DivisionLaw(p, q);
    CongFrom(p, 1, p / q, q);
  }

  lemma Fermat(c: Curve, x: int)
    requires FieldFacts(c) && x % c.q != 0
    ensures Cong(Pow(x, c.q - 1), 1, c.q)
  {
    assert FermatAt(c, x);
    RemainderOne(Pow(x, c.q - 1), c.q);
  }

  lemma InvRight(c: Curve, x: int)
    requires FieldFacts(c) && x % c.q != 0
    ensures Cong(x * Inv(c, x), 1, c.q)
  {
    Fermat(c, x);
    PowerInverts(x, Pow(x, c.q - 2), Pow(x, c.q - 1), c.q);
  }

  lemma ScaleCong(k: int, a: int, b: int, q: nat)
    requires q > 0 && Cong(a, b, q)
    ensures Cong(k * a, k * b, q) && Cong(a * k, b * k, q)
  {
    CongRefl(k, q);
    CongMul(k, k, a, b, q);
    CongMul(a, b, k, k, q);
  }

  lemma CancelBy(v: int, w: int, a: int, q: nat)
    requires q > 0 && Cong(v * w, 1, q)
    ensures Cong((a * v) * w, a, q) && Cong((a * w) * v, a, q)
  {
    ScaleCong(a, v * w, 1, q);
    assert a * (v * w) == (a * v) * w;
    assert a * (v * w) == (a * w) * v;
  }

  /** Multiplying by an invertible v and by its inverse cancel. */
  lemma Cancel(c: Curve, v: int, a: int)
    requires FieldFacts(c) && v % c.q != 0
    ensures Cong((a * v) * Inv(c, v), a, c.q) && Cong((a * Inv(c, v)) * v, a, c.q)
  {
    InvRight(c, v);
    CancelBy(v, Inv(c, v), a, c.q);
  }

  lemma ZeroFactor(a: int, w: int, b: int, q: nat)
    requires q > 0 && Cong(a * w, 1, q) && (a * b) % q == 0
    ensures b % q == 0
  {
    CancelBy(a, w, b, q);
    ScaleCong(w, b * a, 0, q);
    CongSym((b * a) * w, b, q);
    CongTrans(b, (b * a) * w, 0, q);
  }

  /** Fermat's little theorem leaves no zero divisors. */
  lemma NoZeroDivisors(c: Curve, a: int, b: int)
    requires FieldFacts(c) && (a * b) % c.q == 0
    ensures a % c.q == 0 || b % c.q == 0
  {
    if a % c.q != 0 {
      InvRight(c, a);
      ZeroFactor(a, Inv(c, a), b, c.q);
    }
  }

  lemma DifferenceOfSquares(a: int, b: int)
    ensures (a - b) * (a + b) == a * a - b * b
  {
  }

  /** Two roots of the same number are equal or opposite. */
  lemma EqualSquares(c: Curve, a: int, b: int)
    requires FieldFacts(c) && Cong(a * a, b * b, c.q)
    ensures Cong(a, b, c.q) || Cong(a, -b, c.q)
  {
    DifferenceOfSquares(a, b);
    NoZeroDivisors(c, a - b, a + b);
  }

  lemma MinusOneRoot(c: Curve, k: int)
    requires FieldFacts(c)
    ensures Cong((k * c.i) * (k * c.i), -(k * k), c.q)
  {
    ScaleCong(k * k, c.i * c.i, -1, c.q);
    assert (k * k) * (c.i * c.i) == (k * c.i) * (k * c.i);
  }

  /** The denominator d*y*y + 1 never vanishes, because d is not a square and -1 is. */
  lemma DenominatorInvertible(c: Curve, y: int)
    requires FieldFacts(c)
    ensures (c.d * y * y + 1) % c.q != 0
  {
    if (c.d * y * y + 1) % c.q == 0 {
      var w := c.d * (y * y);
      assert w == c.d * y * y;
      assert Cong(w, -1, c.q);
      if y % c.q == 0 {
        ScaleCong(c.d * y, y, 0, c.q);
        assert (c.d * y) * y == w;
        CongSym(w, 0, c.q);
        CongTrans(0, w, -1, c.q);
        assert false;
      }
      DenominatorRoot(c, y, w);
      assert false;
    }
  }

  lemma DenominatorRoot(c: Curve, y: int, w: int)
    requires FieldFacts(c) && y % c.q != 0 && w == c.d * (y * y) && Cong(w, -1, c.q)
    ensures !NotRootOfD(c, Inv(c, y) * c.i)
  {
    var v := Inv(c, y);
    MinusOneRoot(c, v);
    ScaleCong(v * v, w, -1, c.q);
    CongSym((v * v) * w, -(v * v), c.q);
    CongTrans((v * c.i) * (v * c.i), -(v * v), (v * v) * w, c.q);
    InvRight(c, y);
    CongMul(y * v, 1, y * v, 1, c.q);
    ScaleCong(c.d, (y * v) * (y * v), 1, c.q);
    RegroupSquares(c.d, y, v);
    CongTrans((v * c.i) * (v * c.i), (v * v) * w, c.d, c.q);
  }

  lemma RegroupSquares(d: int, y: int, v: int)
    ensures d * ((y * v) * (y * v)) == (v * v) * (d * (y * y))
  {
    assert (y * v) * (y * v) == (v * v) * (y * y);
    assert d * ((v * v) * (y * y)) == (v * v) * (d * (y * y));
  }

  lemma CurveExpression(d: int, x: int, y: int)
    ensures -x * x + y * y - 1 - d * x * x * y * y == (y * y - 1) - (x * x) * (d * y * y + 1)
  {
    assert (x * x) * (d * y * y) == d * x * x * y * y;
    assert -x * x == -(x * x);
  }

  /** A point is on the curve exactly when x squared is the ratio that xrecover roots. */
  lemma CurveIffRoot(c: Curve, x: int, y: int)
    requires FieldFacts(c)
    ensures IsOnCurve(c, Point(x, y)) <==> Cong(x * x, XSquared(c, y), c.q)
  {
    var u, v := y * y - 1, c.d * y * y + 1;
    DenominatorInvertible(c, y);
    CurveExpression(c.d, x, y);
    assert IsOnCurve(c, Point(x, y)) <==> Cong(u, (x * x) * v, c.q);
    if Cong(u, (x * x) * v, c.q) {
      Cancel(c, v, x * x);
      ScaleCong(Inv(c, v), u, (x * x) * v, c.q);
      CongTrans(u * Inv(c, v), ((x * x) * v) * Inv(c, v), x * x, c.q);
      CongSym(u * Inv(c, v), x * x, c.q);
    }
    if Cong(x * x, u * Inv(c, v), c.q) {
      Cancel(c, v, u);
      ScaleCong(v, x * x, u * Inv(c, v), c.q);
      CongTrans((x * x) * v, (u * Inv(c, v)) * v, u, c.q);
      CongSym((x * x) * v, u, c.q);
    }
  }

  /** For a square of a nonzero number, the power 2k + 1 with q = 8k + 5 is 1 or -1. */
  lemma HalfOrder(c: Curve, x: int, xx: int, k: nat)
    requires FieldFacts(c) && c.q == 8 * k + 5 && Cong(xx, x * x, c.q) && x % c.q != 0
    ensures Cong(Pow(xx, 2 * k + 1), 1, c.q) || Cong(Pow(xx, 2 * k + 1), -1, c.q)
  {
    var t := Pow(xx, 2 * k + 1);
    PowAdd(xx, 2 * k + 1, 2 * k + 1);
    PowCong(xx, x * x, 4 * k + 2, c.q);
    PowSquare(x, 4 * k + 2);
    Fermat(c, x);
    CongTrans(t * t, Pow(x, c.q - 1), 1, c.q);
    EqualSquares(c, t, 1);
  }

  /** The candidate's square is xx times that power. */
  lemma CandidateSquare(c: Curve, xx: int, k: nat)
    requires FieldFacts(c) && c.q == 8 * k + 5
    ensures var x0 := PowMod(xx, (c.q + 3) / 8, c.q); Cong(x0 * x0, xx * Pow(xx, 2 * k + 1), c.q)
  {
    assert (c.q + 3) / 8 == k + 1;
    var p := Pow(xx, k + 1);
    CongMod(p, c.q);
    CongMul(PowMod(xx, k + 1, c.q), p, PowMod(xx, k + 1, c.q), p, c.q);
    PowAdd(xx, k + 1, k + 1);
    assert Pow(xx, 2 * k + 2) == xx * Pow(xx, 2 * k + 1);
  }

  function Candidate(c: Curve, xx: int): (x1: nat)
    ensures x1 < c.q
  {
    var x0 := PowMod(xx, (c.q + 3) / 8, c.q);
    if (x0 * x0 - xx) % c.q != 0 then (x0 * c.i) % c.q else x0
  }

  lemma NegatedCandidate(c: Curve, xx: int, x0: int)
    requires FieldFacts(c) && Cong(x0 * x0, -xx, c.q)
    ensures Cong(((x0 * c.i) % c.q) * ((x0 * c.i) % c.q), xx, c.q)
  {
    var z := x0 * c.i;
    CongMod(z, c.q);
    CongMul(z % c.q, z, z % c.q, z, c.q);
    MinusOneRoot(c, x0);
    CongTrans((z % c.q) * (z % c.q), z * z, -(x0 * x0), c.q);
    CongAdd(0, 0, x0 * x0, -xx, c.q);
    CongTrans((z % c.q) * (z % c.q), -(x0 * x0), xx, c.q);
  }

  /** Whenever xx has a square root at all, the candidate is one. */
  lemma CandidateIsRoot(c: Curve, x: int, xx: int)
    requires FieldFacts(c) && Cong(x * x, xx, c.q)
    ensures var x1 := Candidate(c, xx); Cong(x1 * x1, xx, c.q)
  {
    var k := c.q / 8;
    var x0 := PowMod(xx, (c.q + 3) / 8, c.q);
    var t := Pow(xx, 2 * k + 1);
    CandidateSquare(c, xx, k);
    CongSym(x * x, xx, c.q);
    if !Cong(x0 * x0, xx, c.q) {
      if x % c.q == 0 {
        ScaleCong(x, x, 0, c.q);
        CongTrans(xx, x * x, 0, c.q);
        ScaleCong(t, xx, 0, c.q);
        CongTrans(x0 * x0, xx * t, 0, c.q);
        CongSym(xx, 0, c.q);
        CongTrans(x0 * x0, 0, xx, c.q);
        assert false;
      }
      HalfOrder(c, x, xx, k);
      if Cong(t, 1, c.q) {
        ScaleCong(xx, t, 1, c.q);
        CongTrans(x0 * x0, xx * t, xx, c.q);
        assert false;
      }
      ScaleCong(xx, t, -1, c.q);
      CongTrans(x0 * x0, xx * t, -xx, c.q);
      NegatedCandidate(c, xx, x0);
    }
  }

  lemma OppositeSquare(x: int, q: nat)
    requires q > 0
    ensures Cong((q - x) * (q - x), x * x, q)
  {
    assert (q - x) * (q - x) == x * x + (q - 2 * x) * q;
    CongFrom((q - x) * (q - x), x * x, q - 2 * x, q);
  }

  function EvenOf(x1: int, q: int): int {
    if x1 % 2 != 0 then q - x1 else x1
  }

  lemma EvenOfIsEven(x1: int, q: nat)
    requires q % 8 == 5 && 0 <= x1 < q
    ensures 0 <= EvenOf(x1, q) < q && EvenOf(x1, q) % 2 == 0
    ensures Cong(EvenOf(x1, q) * EvenOf(x1, q), x1 * x1, q)
  {
    OppositeSquare(x1, q);
    CongRefl(x1 * x1, q);
  }

  /** xrecover returns an even number below q, and a root whenever any x is on the curve at y. */
  lemma XRecoverIsEvenRoot(c: Curve, x: int, y: int)
    requires FieldFacts(c)
    ensures 0 <= XRecover(c, y) < c.q && XRecover(c, y) % 2 == 0
    ensures IsOnCurve(c, Point(x, y)) ==> IsOnCurve(c, Point(XRecover(c, y), y))
  {
    var xx := XSquared(c, y);
    var x1 := Candidate(c, xx);
    var r := XRecover(c, y);
    assert r == EvenOf(x1, c.q);
    EvenOfIsEven(x1, c.q);
    CurveIffRoot(c, x, y);
    CurveIffRoot(c, r, y);
    if Cong(x * x, xx, c.q) {
      CandidateIsRoot(c, x, xx);
      CongTrans(r * r, x1 * x1, xx, c.q);
    }
  }

  lemma NearZero(n: int, q: int)
    requires q > 0 && n % q == 0 && -q < n < q
    ensures n == 0
  {
    SmallMultiple(n / q, q);
    SmallMultiple(-(n / q), q);
  }

  lemma EqualOrOpposite(a: int, b: int, q: int)
    requires q > 0 && 0 <= a < q && 0 <= b < q && (Cong(a, b, q) || Cong(a, -b, q))
    ensures a == b || a + b == q
  {
    if Cong(a, b, q) {
      NearZero(a - b, q);
    } else if a + b > 0 {
      CongFrom(a + b - q, a + b, -1, q);
      CongIffSameMod(a + b - q, a + b, q);
      NearZero(a + b - q, q);
    }
  }

  /** Two points of the curve with the same y agree or have opposite x. */
  lemma SameYMeansOpposite(c: Curve, p: Point, r: Point)
    requires FieldFacts(c) && OnCurve(c, p) && OnCurve(c, r) && p.y == r.y
    ensures p.x == r.x || p.x + r.x == c.q
  {
    var xx := XSquared(c, p.y);
    CurveIffRoot(c, p.x, p.y);
    CurveIffRoot(c, r.x, r.y);
    assert p == Point(p.x, p.y) && r == Point(r.x, r.y);
    CongSym(r.x * r.x, xx, c.q);
    CongTrans(p.x * p.x, xx, r.x * r.x, c.q);
    EqualSquares(c, p.x, r.x);
    EqualOrOpposite(p.x, r.x, c.q);
  }

  lemma EvenChoice(x: int, even: int, q: int)
    requires q % 8 == 5 && even % 2 == 0 && (x == even || x + even == q)
    ensures x == if x % 2 == 0 then even else q - even
  {
  }

  /** xrecover finds the even x: the only one on the curve at that y. */
  lemma EvenXIsRecovered(c: Curve, p: Point)
    requires FieldFacts(c) && OnCurve(c, p)
    ensures p.x == if p.x % 2 == 0 then XRecover(c, p.y) else c.q - XRecover(c, p.y)
  {
    XRecoverIsEvenRoot(c, p.x, p.y);
    SameYMeansOpposite(c, p, Point(XRecover(c, p.y), p.y));
    EvenChoice(p.x, XRecover(c, p.y), c.q);
  }

  /** If any point has y = 4/5, the base point is the one with even x. */
  lemma BasePointOnCurve(c: Curve, x: int)
    requires FieldFacts(c) && IsOnCurve(c, Point(x, 4 * Inv(c, 5) % c.q))
    ensures OnCurve(c, BasePoint(c)) && BasePoint(c).x % 2 == 0 && BasePoint(c).y == 4 * Inv(c, 5) % c.q
  {
    var y := 4 * Inv(c, 5) % c.q;
    XRecoverIsEvenRoot(c, x, y);
    SmallMod(XRecover(c, y), c.q);
    SmallMod(y, c.q);
  }
}
