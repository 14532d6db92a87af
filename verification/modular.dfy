/** Integer powers and congruences modulo a positive number. */
module Modular {

  predicate Cong(a: int, b: int, q: nat)
    requires q > 0
  {
    (a - b) % q == 0
  }

  lemma MultipleIsZero(k: int, q: nat)
    requires q > 0
    ensures (k * q) % q == 0
  {
    QuotientIsUnique(k * q, k, 0, q);
  }

  lemma AtLeastOnce(m: nat, q: nat)
    requires m >= 1
    ensures m * q >= q
  {
    assert m * q == (m - 1) * q + q;
  }

  lemma SmallMultiple(m: int, q: nat)
    requires m * q < q
    ensures m <= 0
  {
    if m >= 1 {
      AtLeastOnce(m, q);
    }
  }

  lemma OneQuotient(d: int, r: int, e: int, s: int, q: nat)
    requires d * q + r == e * q + s && 0 <= r < q && 0 <= s < q
    ensures d <= e
  {
    assert (d - e) * q == d * q - e * q;
    SmallMultiple(d - e, q);
  }

  lemma QuotientIsUnique(a: int, d: int, r: int, q: nat)
    requires q > 0 && a == d * q + r && 0 <= r < q
    ensures a / q == d && a % q == r
  {
    var e, s := a / q, a % q;
    DivisionLaw(a, q);
    OneQuotient(d, r, e, s, q);
    OneQuotient(e, s, d, r, q);
  }

  lemma DivisionLaw(a: int, q: nat)
    requires q > 0
    ensures a == (a / q) * q + a % q
  {
  }

  lemma CongWitness(a: int, b: int, q: nat) returns (k: int)
    requires q > 0 && Cong(a, b, q)
    ensures a == b + k * q
  {
    k := (a - b) / q;
  }

  lemma CongFrom(a: int, b: int, k: int, q: nat)
    requires q > 0 && a == b + k * q
    ensures Cong(a, b, q)
  {
    MultipleIsZero(k, q);
  }

  lemma CongMod(a: int, q: nat)
    requires q > 0
    ensures Cong(a % q, a, q) && Cong(a, a % q, q)
  {
    CongFrom(a, a % q, a / q, q);
    CongFrom(a % q, a, -(a / q), q);
  }

  lemma CongIffSameMod(a: int, b: int, q: nat)
    requires q > 0
    ensures Cong(a, b, q) <==> a % q == b % q
  {
    if Cong(a, b, q) {
      var k := CongWitness(a, b, q);
      assert a == (b / q + k) * q + b % q;
      QuotientIsUnique(a, b / q + k, b % q, q);
    }
    if a % q == b % q {
      assert a == b + (a / q - b / q) * q;
      CongFrom(a, b, a / q - b / q, q);
    }
  }

  lemma CongSym(a: int, b: int, q: nat)
    requires q > 0 && Cong(a, b, q)
    ensures Cong(b, a, q)
  {
    CongIffSameMod(a, b, q);
    CongIffSameMod(b, a, q);
  }

  lemma CongTrans(a: int, b: int, c: int, q: nat)
    requires q > 0 && Cong(a, b, q) && Cong(b, c, q)
    ensures Cong(a, c, q)
  {
    CongIffSameMod(a, b, q);
    CongIffSameMod(b, c, q);
    CongIffSameMod(a, c, q);
  }

  lemma CongMul(a: int, b: int, c: int, d: int, q: nat)
    requires q > 0 && Cong(a, b, q) && Cong(c, d, q)
    ensures Cong(a * c, b * d, q)
  {
    var j := CongWitness(a, b, q);
    var k := CongWitness(c, d, q);
    calc {
      a * c;
      (b + j * q) * (d + k * q);
      b * d + (b * (k * q) + (j * q) * d + (j * q) * (k * q));
      { assert b * (k * q) == (b * k) * q && (j * q) * d == (j * d) * q && (j * q) * (k * q) == (j * k * q) * q; }
      b * d + ((b * k) * q + (j * d) * q + (j * k * q) * q);
      b * d + (b * k + j * d + j * k * q) * q;
    }
    CongFrom(a * c, b * d, b * k + j * d + j * k * q, q);
  }

  lemma CongAdd(a: int, b: int, c: int, d: int, q: nat)
    requires q > 0 && Cong(a, b, q) && Cong(c, d, q)
    ensures Cong(a + c, b + d, q) && Cong(a - c, b - d, q)
  {
    var j := CongWitness(a, b, q);
    var k := CongWitness(c, d, q);
    assert a + c == (b + d) + (j + k) * q;
    assert a - c == (b - d) + (j - k) * q;
    CongFrom(a + c, b + d, j + k, q);
    CongFrom(a - c, b - d, j - k, q);
  }

  lemma CongRefl(a: int, q: nat)
    requires q > 0
    ensures Cong(a, a, q)
  {
  }

  // ---- Powers ----

  function Pow(a: int, e: nat): int {
    if e == 0 then 1 else a * Pow(a, e - 1)
  }

  lemma {:induction false} PowAdd(a: int, m: nat, n: nat)
    ensures Pow(a, m + n) == Pow(a, m) * Pow(a, n)
  {
    if m > 0 {
      PowAdd(a, m - 1, n);
      assert a * (Pow(a, m - 1) * Pow(a, n)) == (a * Pow(a, m - 1)) * Pow(a, n);
    }
  }

  lemma {:induction false} PowSquare(a: int, n: nat)
    ensures Pow(a * a, n) == Pow(a, 2 * n)
  {
    if n > 0 {
      PowSquare(a, n - 1);
      assert Pow(a, 2 * n) == a * (a * Pow(a, 2 * (n - 1)));
      assert a * (a * Pow(a, 2 * (n - 1))) == (a * a) * Pow(a, 2 * (n - 1));
    }
  }

  lemma {:induction false} PowCong(a: int, b: int, e: nat, q: nat)
    requires q > 0 && Cong(a, b, q)
    ensures Cong(Pow(a, e), Pow(b, e), q)
  {
    if e > 0 {
      PowCong(a, b, e - 1, q);
      CongMul(a, b, Pow(a, e - 1), Pow(b, e - 1), q);
    }
  }

  lemma {:induction false} PowPositive(a: nat, e: nat)
    requires a > 0
    ensures Pow(a, e) > 0
  {
    if e > 0 {
      PowPositive(a, e - 1);
      assert a * Pow(a, e - 1) >= Pow(a, e - 1);
    }
  }
}
