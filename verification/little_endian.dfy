/** Little-endian byte strings and their bits. */
module LittleEndian {
  import opened Common
  import opened Modular

  function FromBytes(s: seq<byte>): (n: nat)
  {
    if s == [] then 0 else s[0] + 256 * FromBytes(s[1..])
  }

  function ToBytes(n: nat, len: nat): (s: seq<byte>)
    ensures |s| == len
  {
    if len == 0 then [] else [n % 256] + ToBytes(n / 256, len - 1)
  }

  lemma {:induction false} FromBytesBound(s: seq<byte>)
    ensures FromBytes(s) < Pow(256, |s|)
  {
    if s != [] {
      FromBytesBound(s[1..]);
    }
  }

  lemma {:induction false} ToThenFrom(n: nat, len: nat)
    requires n < Pow(256, len)
    ensures FromBytes(ToBytes(n, len)) == n
  {
    if len > 0 {
      ToThenFrom(n / 256, len - 1);
      var s := ToBytes(n, len);
      assert s[1..] == ToBytes(n / 256, len - 1);
    }
  }

  lemma {:induction false} FromThenTo(s: seq<byte>)
    ensures ToBytes(FromBytes(s), |s|) == s
  {
    if s != [] {
      FromThenTo(s[1..]);
      var n := FromBytes(s);
      assert n % 256 == s[0] && n / 256 == FromBytes(s[1..]);
      assert s == [s[0]] + s[1..];
    }
  }

  lemma FromBytesInjective(s: seq<byte>, t: seq<byte>)
    requires |s| == |t| && FromBytes(s) == FromBytes(t)
    ensures s == t
  {
    FromThenTo(s);
    FromThenTo(t);
  }

  /** The i-th bit, least significant first. */
  function Bit(h: seq<byte>, i: nat): (b: int)
    requires i < 8 * |h|
    ensures 0 <= b <= 1
  {
    PowPositive(2, i % 8);
    var b: int := h[i / 8];
    (b / Pow(2, i % 8)) % 2
  }

  /** The sum of 2^k times bit k, for lo <= k < hi. */
  function BitSum(h: seq<byte>, lo: nat, hi: nat): (n: nat)
    requires hi <= 8 * |h|
    decreases hi
  {
    if hi <= lo then 0
    else
      PowPositive(2, hi - 1);
      BitSum(h, lo, hi - 1) + (if Bit(h, hi - 1) == 1 then Pow(2, hi - 1) else 0)
  }

  /** The remainder of a two-step division. */
  lemma DivideTwice(a: nat, b: nat, c: nat)
    requires b > 0 && c > 0
    ensures b * c > 0 && a / (b * c) == (a / b) / c
  {
    var d, r := a / b, a % b;
    var e, s := d / c, d % c;
    DivisionLaw(a, b);
    DivisionLaw(d, c);
    AtLeastOnce(b, c);
    TwoStepRemainder(b, c, s, r);
    assert a == (e * c + s) * b + r;
    assert (e * c + s) * b == e * (b * c) + s * b;
    QuotientIsUnique(a, e, s * b + r, b * c);
  }

  lemma TwoStepRemainder(b: nat, c: nat, s: nat, r: nat)
    requires s < c && r < b
    ensures 0 <= s * b + r < b * c
  {
    assert b * c == s * b + (c - s) * b;
    AtLeastOnce(c - s, b);
  }

  lemma ParityUnaffected(x: nat, k: nat)
    ensures (x + 2 * k) % 2 == x % 2
  {
  }

  lemma DivideShift(b: nat, x: nat, p: nat)
    requires p > 0
    ensures (b + x * p) / p == b / p + x
  {
    DivisionLaw(b, p);
    assert b + x * p == (b / p + x) * p + b % p;
    QuotientIsUnique(b + x * p, b / p + x, b % p, p);
  }

  lemma LowBitAt(b: nat, rest: nat, p: nat, half: nat)
    requires p > 0 && p * half == 128
    ensures ((b + 256 * rest) / p) % 2 == (b / p) % 2
  {
    var x := 2 * (half * rest);
    assert x * p == 2 * rest * (p * half);
    DivideShift(b, x, p);
    ParityUnaffected(b / p, half * rest);
  }

  lemma LowBit(b: nat, rest: nat, i: nat)
    requires i < 8
    ensures Pow(2, i) > 0 && ((b + 256 * rest) / Pow(2, i)) % 2 == (b / Pow(2, i)) % 2
  {
    PowPositive(2, i);
    PowPositive(2, 7 - i);
    PowAdd(2, i, 7 - i);
    SmallPowers();
    LowBitAt(b, rest, Pow(2, i), Pow(2, 7 - i));
  }

  lemma SmallPowers()
    ensures Pow(2, 0) == 1 && Pow(2, 1) == 2 && Pow(2, 2) == 4 && Pow(2, 3) == 8
    ensures Pow(2, 4) == 16 && Pow(2, 5) == 32 && Pow(2, 6) == 64 && Pow(2, 7) == 128 && Pow(2, 8) == 256
  {
    assert Pow(2, 2) == 4;
    assert Pow(2, 4) == 16;
    assert Pow(2, 6) == 64;
  }

  /** A bit of the byte string is a bit of its little-endian value. */
  lemma {:induction false} BitOfValue(h: seq<byte>, i: nat)
    requires i < 8 * |h|
    ensures Pow(2, i) > 0 && Bit(h, i) == (FromBytes(h) / Pow(2, i)) % 2
  {
    PowPositive(2, i);
    var rest := FromBytes(h[1..]);
    if i < 8 {
      LowBit(h[0], rest, i);
    } else {
      BitOfValue(h[1..], i - 8);
      assert h[1..][(i - 8) / 8] == h[i / 8];
      PowAdd(2, 8, i - 8);
      assert Pow(2, 8) == 256;
      DivideTwice(FromBytes(h), 256, Pow(2, i - 8));
      assert FromBytes(h) / 256 == rest;
    }
  }

  lemma TopBitOfMod(n: nat, m: nat)
    requires m > 0
    ensures n % (2 * m) == n % m + m * ((n / m) % 2)
  {
    var d, r := n / m, n % m;
    var e, s := d / 2, d % 2;
    DivisionLaw(n, m);
    assert d == 2 * e + s;
    assert n == (2 * e + s) * m + r;
    assert (2 * e + s) * m == e * (2 * m) + s * m;
    assert s == 0 || s == 1;
    QuotientIsUnique(n, e, s * m + r, 2 * m);
  }

  lemma NextBit(n: nat, m: nat, bit: int)
    requires m > 0 && bit == (n / m) % 2
    ensures n % (2 * m) == n % m + if bit == 1 then m else 0
  {
    TopBitOfMod(n, m);
    assert bit == 0 || bit == 1;
  }

  /** Summing the bits is reading the low end of the little-endian value. */
  lemma {:induction false} BitSumIsMod(h: seq<byte>, n: nat)
    requires n <= 8 * |h|
    ensures Pow(2, n) > 0 && BitSum(h, 0, n) == FromBytes(h) % Pow(2, n)
  {
    PowPositive(2, n);
    if n > 0 {
      BitSumIsMod(h, n - 1);
      BitOfValue(h, n - 1);
      assert Pow(2, n) == 2 * Pow(2, n - 1);
      NextBit(FromBytes(h), Pow(2, n - 1), Bit(h, n - 1));
    }
  }

  /** Summing every bit is the little-endian value itself. */
  lemma AllBits(h: seq<byte>)
    ensures BitSum(h, 0, 8 * |h|) == FromBytes(h)
  {
    BitSumIsMod(h, 8 * |h|);
    FromBytesBound(h);
    PowersAgree(|h|);
    SmallMod(FromBytes(h), Pow(2, 8 * |h|));
  }

  lemma SmallMod(n: nat, m: nat)
    requires n < m
    ensures n % m == n
  {
  }

  lemma {:induction false} PowersAgree(n: nat)
    ensures Pow(256, n) == Pow(2, 8 * n)
  {
    if n > 0 {
      PowersAgree(n - 1);
      PowAdd(2, 8, 8 * (n - 1));
      assert Pow(2, 8) == 256;
    }
  }

  lemma {:induction false} BitSumSplit(h: seq<byte>, m: nat, n: nat)
    requires m <= n <= 8 * |h|
    ensures BitSum(h, m, n) == BitSum(h, 0, n) - BitSum(h, 0, m)
  {
    if m < n {
      BitSumSplit(h, m, n - 1);
    }
  }

  lemma {:induction false} PowersGrow(m: nat, n: nat)
    requires m <= n
    ensures 0 < Pow(2, m) <= Pow(2, n)
  {
    PowPositive(2, m);
    if m < n {
      PowersGrow(m, n - 1);
    }
  }

  lemma BelowPower(x: nat, p: nat)
    requires x < p
    ensures x / p == 0
  {
  }

  lemma TopQuotient(x: nat, p: nat, b: nat)
    requires x < p && b <= 1
    ensures (x + b * p) / p == b
  {
    QuotientIsUnique(x + b * p, b, x, p);
  }

  lemma LowQuotient(x: nat, low: nat, k: nat, b: nat)
    requires low > 0 && b <= 1
    ensures ((x + b * (low * (2 * k))) / low) % 2 == (x / low) % 2
  {
    assert b * (low * (2 * k)) == (2 * (b * k)) * low;
    DivideShift(x, 2 * (b * k), low);
    ParityUnaffected(x / low, b * k);
  }

  /** A bit added on top of a number is that bit, and leaves the others alone. */
  lemma AddedBit(x: nat, n: nat, b: nat, i: nat)
    requires x < Pow(2, n) && b <= 1
    ensures Pow(2, i) > 0 && b * Pow(2, n) >= 0 && x + b * Pow(2, n) < Pow(2, n + 1)
    ensures ((x + b * Pow(2, n)) / Pow(2, i)) % 2 == if i == n then b else if i < n then (x / Pow(2, i)) % 2 else 0
  {
    PowersGrow(i, i);
    assert Pow(2, n + 1) == 2 * Pow(2, n);
    if i == n {
      TopQuotient(x, Pow(2, n), b);
    } else if i < n {
      PowersGrow(n - i - 1, n);
      PowAdd(2, i, n - i);
      assert Pow(2, n - i) == 2 * Pow(2, n - i - 1);
      LowQuotient(x, Pow(2, i), Pow(2, n - i - 1), b);
    } else {
      PowersGrow(n + 1, i);
      BelowPower(x + b * Pow(2, n), Pow(2, i));
    }
  }

  lemma MaybeAddedBit(x: nat, n: nat, b: nat, i: nat, sum: nat)
    requires x < Pow(2, n) && b <= 1 && sum == x + if b == 1 then Pow(2, n) else 0
    ensures Pow(2, i) > 0 && sum < Pow(2, n + 1)
    ensures (sum / Pow(2, i)) % 2 == if i == n then b else if i < n then (x / Pow(2, i)) % 2 else 0
  {
    AddedBit(x, n, b, i);
    assert b * Pow(2, n) == if b == 1 then Pow(2, n) else 0;
  }

  /** A sum of some bits has exactly those bits. */
  lemma {:induction false} BitsOfBitSum(h: seq<byte>, lo: nat, hi: nat, i: nat)
    requires hi <= 8 * |h|
    ensures Pow(2, i) > 0 && BitSum(h, lo, hi) < Pow(2, hi)
    ensures (BitSum(h, lo, hi) / Pow(2, i)) % 2 == if lo <= i < hi then Bit(h, i) else 0
    decreases hi
  {
    PowersGrow(i, i);
    PowersGrow(hi, hi);
    if hi <= lo {
      BelowPower(0, Pow(2, i));
    } else {
      BitsOfBitSum(h, lo, hi - 1, i);
      MaybeAddedBit(BitSum(h, lo, hi - 1), hi - 1, Bit(h, hi - 1), i, BitSum(h, lo, hi));
    }
  }

  /** Sums over bits that agree are equal. */
  lemma {:induction false} SameBitsSameSum(g: seq<byte>, h: seq<byte>, lo: nat, hi: nat)
    requires hi <= 8 * |g| && hi <= 8 * |h| && forall i :: lo <= i < hi ==> Bit(g, i) == Bit(h, i)
    ensures BitSum(g, lo, hi) == BitSum(h, lo, hi)
    decreases hi
  {
    if hi > lo {
      SameBitsSameSum(g, h, lo, hi - 1);
    }
  }
}
