/** Signing and verifying (sections 5.1.6 and 5.1.7 of RFC 8032). */
module Ed25519Signatures {
  import opened Common
  import opened Modular
  import opened LittleEndian
  import opened Ed25519
  import opened Ed25519Codec
  import opened ScalarGroups

  ghost predicate Facts(c: Curve) {
    FieldFacts(c) && GroupFacts(c) && BaseFacts(c) && c.Fits()
  }

  /** The recursion of the reference is double-and-add in the curve group. */
  lemma {:induction false} ScalarMultIsDoubleAndAdd(c: Curve, p: Point, e: nat)
    ensures ScalarMult(c, p, e) == DoubleAndAdd(CurveGroup(c), p, e)
  {
    if e > 0 {
      ScalarMultIsDoubleAndAdd(c, p, e / 2);
    }
  }

  /** Double-and-add on a curve point is repeated Edwards addition and stays on the curve. */
  lemma ScalarMultIsSum(c: Curve, g: Group<Point>, p: Point, e: nat)
    requires g == CurveGroup(c) && Lawful(g) && OnCurve(c, p)
    ensures ScalarMult(c, p, e) == Sum(g, p, e) && OnCurve(c, ScalarMult(c, p, e))
  {
    ScalarMultIsDoubleAndAdd(c, p, e);
    assert g.on(p);
    DoubleAndAddIsSum(g, p, e);
    SumOn(g, p, e);
    assert g.on(Sum(g, p, e));
  }

  /** The challenge is the little-endian value of the digest. */
  lemma HintIsLittleEndian(c: Curve, m: seq<byte>)
    ensures Hint(c, m) == FromBytes(c.hash(m))
  {
    AllBits(c.hash(m));
  }

  /** The verifier's test, once both points have been decoded. */
  lemma VerifyMeans(c: Curve, m: seq<byte>, s: seq<byte>, pk: seq<byte>, r: Point, a: Point, g: Group<Point>)
    requires c.Fits() && |s| == 64 && |pk| == 32 && g == CurveGroup(c)
    requires DecodePoint(c, s[..32]) == Some(r) && DecodePoint(c, pk) == Some(a)
    ensures var n := FromBytes(s[32..64]);
            var right := g.add(r, ScalarMult(c, a, Hint(c, EncodePoint(r) + pk + m)));
            Verify(c, m, s, pk) <==> n < c.l && ScalarMult(c, c.base, n) == right
  {
  }

  /** For a key and a commitment with known scalars, the verifier accepts one S and no other. */
  lemma AcceptsExactlyTheResponse(c: Curve, m: seq<byte>, s: seq<byte>, pk: seq<byte>, r: nat, a: nat)
    requires Facts(c) && |s| == 64
    requires pk == EncodePoint(ScalarMult(c, c.base, a))
    requires s[..32] == EncodePoint(ScalarMult(c, c.base, r))
    ensures Verify(c, m, s, pk) <==> FromBytes(s[32..64]) == Response(c, r, Hint(c, s[..32] + pk + m), a)
  {
    var b, g := c.base, CurveGroup(c);
    assert g.on(b);
    ScalarMultIsSum(c, g, b, a);
    ScalarMultIsSum(c, g, b, r);
    var big, key := ScalarMult(c, b, r), ScalarMult(c, b, a);
    EncodeThenDecode(c, key);
    EncodeThenDecode(c, big);
    VerifyMeans(c, m, s, pk, big, key, g);
    ResponseIsForced(c, g, b, r, a, Hint(c, s[..32] + pk + m), FromBytes(s[32..64]));
  }

  lemma ResponseIsForced(c: Curve, g: Group<Point>, b: Point, r: nat, a: nat, h: nat, n: nat)
    requires g == CurveGroup(c) && Lawful(g) && HasOrder(g, b, c.l)
    ensures n < c.l && ScalarMult(c, b, n) == g.add(ScalarMult(c, b, r), ScalarMult(c, ScalarMult(c, b, a), h))
            <==> n == Response(c, r, h, a)
  {
    assert g.on(b);
    ScalarMultIsSum(c, g, b, n);
    ScalarMultIsSum(c, g, b, r);
    ScalarMultIsSum(c, g, b, a);
    ScalarMultIsSum(c, g, ScalarMult(c, b, a), h);
    OneResponse(g, b, c.l, r, a, h, n, Response(c, r, h, a));
  }

  lemma Halves(s: seq<byte>, x: seq<byte>, y: seq<byte>)
    requires |x| == 32 && |y| == 32 && s == x + y
    ensures s[..32] == x && s[32..64] == y
  {
  }

  lemma SignatureParts(c: Curve, m: seq<byte>, sk: seq<byte>, pk: seq<byte>, r: nat)
    requires c.Fits() && r == Hint(c, c.hash(sk)[32..64] + m)
    ensures var s := Signature(c, m, sk, pk);
            && s[..32] == EncodePoint(ScalarMult(c, c.base, r))
            && s[32..64] == EncodeInt(Response(c, r, Hint(c, s[..32] + pk + m), SecretScalar(c.hash(sk))))
  {
    var e := EncodePoint(ScalarMult(c, c.base, r));
    Halves(Signature(c, m, sk, pk), e, EncodeInt(Response(c, r, Hint(c, e + pk + m), SecretScalar(c.hash(sk)))));
  }

  /** A signature made with a secret key verifies under its public key, for every message. */
  lemma SignThenVerify(c: Curve, m: seq<byte>, sk: seq<byte>)
    requires Facts(c)
    ensures Verify(c, m, Signature(c, m, sk, PublicKey(c, sk)), PublicKey(c, sk))
  {
    var pk := PublicKey(c, sk);
    var r := Hint(c, c.hash(sk)[32..64] + m);
    var a := SecretScalar(c.hash(sk));
    var s := Signature(c, m, sk, pk);
    SignatureParts(c, m, sk, pk, r);
    AcceptsExactlyTheResponse(c, m, s, pk, r, a);
    ToThenFrom(Response(c, r, Hint(c, s[..32] + pk + m), a), 32);
  }

  /** The verifier refuses every S that is not reduced. */
  lemma UnreducedRefused(c: Curve, m: seq<byte>, s: seq<byte>, pk: seq<byte>)
    requires c.Fits() && |s| == 64 && FromBytes(s[32..64]) >= c.l
    ensures !Verify(c, m, s, pk)
  {
  }

  lemma SameHalves(s: seq<byte>, t: seq<byte>)
    requires |s| == 64 && |t| == 64 && s[..32] == t[..32] && FromBytes(s[32..64]) == FromBytes(t[32..64])
    ensures s == t
  {
    FromBytesInjective(s[32..64], t[32..64]);
    assert s == s[..32] + s[32..64];
    assert t == t[..32] + t[32..64];
  }

  /** Two accepted signatures of one message under one key with the same R are the same bytes. */
  lemma NotMalleable(c: Curve, m: seq<byte>, s: seq<byte>, t: seq<byte>, pk: seq<byte>)
    requires Facts(c) && Verify(c, m, s, pk) && Verify(c, m, t, pk) && s[..32] == t[..32]
    ensures s == t
  {
    var b, g := c.base, CurveGroup(c);
    var x, y := FromBytes(s[32..64]), FromBytes(t[32..64]);
    var r, a := DecodePoint(c, s[..32]).value, DecodePoint(c, pk).value;
    VerifyMeans(c, m, s, pk, r, a, g);
    VerifyMeans(c, m, t, pk, r, a, g);
    assert g.on(b);
    ScalarMultIsSum(c, g, b, x);
    ScalarMultIsSum(c, g, b, y);
    ScalarIsUnique(g, b, c.l, x, y);
    SameHalves(s, t);
  }

  lemma ClampedBits(h: Digest)
    ensures Pow(2, 254) > 0 && Pow(2, 254) == 8 * Pow(2, 251)
    ensures BitSum(h, 3, 254) == FromBytes(h) % Pow(2, 254) - FromBytes(h) % 8
  {
    BitSumSplit(h, 3, 254);
    BitSumIsMod(h, 3);
    BitSumIsMod(h, 254);
    PowAdd(2, 3, 251);
    SmallPowers();
  }

  /** The secret scalar is clamped: a multiple of the cofactor with bit 254 as its top bit. */
  lemma SecretScalarIsClamped(h: Digest)
    ensures Pow(2, 254) <= SecretScalar(h) < Pow(2, 255) && SecretScalar(h) % 8 == 0
  {
    ClampedBits(h);
    PowPositive(2, 251);
    ClampedMod(FromBytes(h), Pow(2, 251), Pow(2, 254));
  }

  lemma ClampedMod(n: nat, m: nat, top: nat)
    requires m > 0 && top == 8 * m
    ensures (top + (n % top - n % 8)) % 8 == 0
  {
    var k, r := n / top, n % top;
    DivisionLaw(n, top);
    assert k * top == (k * m) * 8;
    CongFrom(n, r, k * m, 8);
    CongIffSameMod(n, r, 8);
    DivisionLaw(r, 8);
    MultipleIsZero(m + r / 8, 8);
    assert top + (r - n % 8) == (m + r / 8) * 8;
  }

  /** The secret scalar is the low half of the digest with its ends clamped. */
  lemma SecretScalarValue(h: Digest)
    ensures Pow(2, 254) > 0
    ensures SecretScalar(h) == Pow(2, 254) + FromBytes(h) % Pow(2, 254) - FromBytes(h) % 8
  {
    ClampedBits(h);
  }

  /** Bit by bit: bit 254 is set, bits 3 to 253 are the digest's, every other bit is clear. */
  lemma SecretScalarBits(h: Digest, i: nat)
    ensures Pow(2, i) > 0
    ensures (SecretScalar(h) / Pow(2, i)) % 2 == if i == 254 then 1 else if 3 <= i < 254 then Bit(h, i) else 0
  {
    BitsOfBitSum(h, 3, 254, i);
    AddedBit(BitSum(h, 3, 254), 254, 1, i);
  }

  /** Two digests give one scalar exactly when they agree on the bits that are not clamped. */
  lemma SameScalarIff(g: Digest, h: Digest)
    ensures SecretScalar(g) == SecretScalar(h) <==> forall i :: 3 <= i < 254 ==> Bit(g, i) == Bit(h, i)
  {
    if SecretScalar(g) == SecretScalar(h) {
      forall i | 3 <= i < 254
        ensures Bit(g, i) == Bit(h, i)
      {
        SecretScalarBits(g, i);
        SecretScalarBits(h, i);
      }
    }
    if forall i :: 3 <= i < 254 ==> Bit(g, i) == Bit(h, i) {
      SameBitsSameSum(g, h, 3, 254);
    }
  }

  /** Two secrets share a public key exactly when their scalars agree modulo the order. */
  lemma SameKeyIff(c: Curve, sk: seq<byte>, other: seq<byte>)
    requires Facts(c)
    ensures PublicKey(c, sk) == PublicKey(c, other)
            <==> SecretScalar(c.hash(sk)) % c.l == SecretScalar(c.hash(other)) % c.l
  {
    SameMultipleIff(c, CurveGroup(c), c.base, SecretScalar(c.hash(sk)), SecretScalar(c.hash(other)));
  }

  lemma SameMultipleIff(c: Curve, g: Group<Point>, b: Point, m: nat, n: nat)
    requires FieldFacts(c) && c.Fits() && g == CurveGroup(c) && Lawful(g) && HasOrder(g, b, c.l)
    ensures EncodePoint(ScalarMult(c, b, m)) == EncodePoint(ScalarMult(c, b, n)) <==> m % c.l == n % c.l
  {
    assert g.on(b);
    ScalarMultIsSum(c, g, b, m);
    ScalarMultIsSum(c, g, b, n);
    EncodeThenDecode(c, ScalarMult(c, b, m));
    EncodeThenDecode(c, ScalarMult(c, b, n));
    SumMod(g, b, c.l, m);
    SumMod(g, b, c.l, n);
    if Sum(g, b, m) == Sum(g, b, n) {
      ScalarIsUnique(g, b, c.l, m % c.l, n % c.l);
    }
  }

  // ---- Keys, signatures and the verifier in the terms of RFC 8032 ----

  /** The clamped secret of section 5.1.5 of RFC 8032, steps 1 to 3. */
  function Clamped(h: Digest): int {
    PowPositive(2, 254);
    Pow(2, 254) + FromBytes(h) % Pow(2, 254) - FromBytes(h) % 8
  }

  lemma SecretIsClamped(h: Digest)
    ensures Clamped(h) == SecretScalar(h)
  {
    SecretScalarValue(h);
  }

  lemma MultipleOfBase(c: Curve, n: nat)
    requires Facts(c)
    ensures ScalarMult(c, c.base, n) == Sum(CurveGroup(c), c.base, n)
  {
    assert CurveGroup(c).on(c.base);
    ScalarMultIsSum(c, CurveGroup(c), c.base, n);
  }

  /** Section 5.1.5: the public key is the encoding of the secret's multiple of the base point. */
  lemma PublicKeyIsRfc8032(c: Curve, sk: seq<byte>, a: nat)
    requires Facts(c) && a == Clamped(c.hash(sk))
    ensures PublicKey(c, sk) == EncodePoint(Sum(CurveGroup(c), c.base, a))
  {
    SecretIsClamped(c.hash(sk));
    MultipleOfBase(c, a);
  }

  lemma SignatureResponse(c: Curve, m: seq<byte>, sk: seq<byte>, pk: seq<byte>, s: seq<byte>, r: nat, k: nat, a: nat)
    requires c.Fits() && s == Signature(c, m, sk, pk) && r == Hint(c, c.hash(sk)[32..64] + m)
    requires k == Hint(c, s[..32] + pk + m) && a == SecretScalar(c.hash(sk))
    ensures FromBytes(s[32..64]) == Response(c, r, k, a)
  {
    SignatureParts(c, m, sk, pk, r);
    ToThenFrom(Response(c, r, k, a), 32);
  }

  lemma SignatureCommitment(c: Curve, m: seq<byte>, sk: seq<byte>, pk: seq<byte>, r: nat)
    requires Facts(c) && r == Hint(c, c.hash(sk)[32..64] + m)
    ensures Signature(c, m, sk, pk)[..32] == EncodePoint(Sum(CurveGroup(c), c.base, r))
  {
    SignatureParts(c, m, sk, pk, r);
    MultipleOfBase(c, r);
  }

  /** Section 5.1.6: with r the value of H(second half of H(sk), m) and k that of H(R, pk, m), R is r*B
      and S is r + k times the secret, modulo l. */
  lemma SignatureIsRfc8032(c: Curve, m: seq<byte>, sk: seq<byte>, pk: seq<byte>, s: seq<byte>, a: nat, r: nat, k: nat)
    requires Facts(c) && s == Signature(c, m, sk, pk) && a == Clamped(c.hash(sk))
    requires r == FromBytes(c.hash(c.hash(sk)[32..64] + m)) && k == FromBytes(c.hash(s[..32] + pk + m))
    ensures s[..32] == EncodePoint(Sum(CurveGroup(c), c.base, r))
    ensures FromBytes(s[32..64]) == (r + k * a) % c.l
  {
    HintIsLittleEndian(c, c.hash(sk)[32..64] + m);
    HintIsLittleEndian(c, s[..32] + pk + m);
    SecretIsClamped(c.hash(sk));
    SignatureCommitment(c, m, sk, pk, r);
    SignatureResponse(c, m, sk, pk, s, r, k, a);
  }

  /** Section 5.1.7, for all bytes: the verifier accepts exactly when both points decode, S is below l
      and S*B = R + H(R, pk, m)*A. */
  lemma VerifyIsRfc8032(c: Curve, m: seq<byte>, s: seq<byte>, pk: seq<byte>)
    requires Facts(c)
    ensures Verify(c, m, s, pk) <==>
      && |s| == 64 && |pk| == 32
      && DecodePoint(c, s[..32]).Some? && DecodePoint(c, pk).Some? && FromBytes(s[32..64]) < c.l
      && var (g, h) := (CurveGroup(c), FromBytes(c.hash(s[..32] + pk + m)));
         Sum(g, c.base, FromBytes(s[32..64]))
           == g.add(DecodePoint(c, s[..32]).value, Sum(g, DecodePoint(c, pk).value, h))
  {
    if |s| == 64 && |pk| == 32 && DecodePoint(c, s[..32]).Some? && DecodePoint(c, pk).Some? {
      var g, r, a := CurveGroup(c), DecodePoint(c, s[..32]).value, DecodePoint(c, pk).value;
      DecodeThenEncode(c, s[..32]);
      DecodeThenEncode(c, pk);
      VerifyMeans(c, m, s, pk, r, a, g);
      HintIsLittleEndian(c, s[..32] + pk + m);
      assert g.on(c.base);
      ScalarMultIsSum(c, g, c.base, FromBytes(s[32..64]));
      ScalarMultIsSum(c, g, a, Hint(c, s[..32] + pk + m));
    }
  }
}
