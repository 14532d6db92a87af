/** Point encoding and decoding undo each other (sections 5.1.2 and 5.1.3 of RFC 8032). */
module Ed25519Codec {
  import opened Common
  import opened Modular
  import opened LittleEndian
  import opened Ed25519
  import opened Ed25519Roots

  lemma TopBitWeight()
    ensures Pow(2, 255) > 0 && Pow(256, 32) == 2 * Pow(2, 255)
  {
    PowPositive(2, 255);
    PowersAgree(32);
    assert Pow(2, 256) == 2 * Pow(2, 255);
  }

  lemma SplitTopBit(n: nat, half: nat, y: nat, sign: int)
    requires half > 0 && n == y + half * sign && y < half && 0 <= sign <= 1
    ensures n < 2 * half && n % half == y && (n / half) % 2 == sign
  {
    assert half * sign == sign * half;
    QuotientIsUnique(n, sign, y, half);
  }

  lemma JoinTopBit(n: nat, half: nat)
    requires 0 < half && n < 2 * half
    ensures n == n % half + half * ((n / half) % 2)
  {
    DivisionLaw(n, half);
    if n < half {
      QuotientIsUnique(n, 0, n, half);
    } else {
      QuotientIsUnique(n, 1, n - half, half);
    }
  }

  /** What a decoder reads back from 32 bytes that hold y and a sign bit. */
  lemma ReadsYAndSign(y: nat, sign: int)
    requires y < Pow(2, 255) && 0 <= sign <= 1
    ensures Pow(2, 255) > 0 && y + Pow(2, 255) * sign >= 0
    ensures var s := ToBytes(y + Pow(2, 255) * sign, 32); FromBytes(s) % Pow(2, 255) == y && Bit(s, 255) == sign
  {
    TopBitWeight();
    var half := Pow(2, 255);
    assert half * sign >= 0;
    SplitTopBit(y + half * sign, half, y, sign);
    ToThenFrom(y + half * sign, 32);
    BitOfValue(ToBytes(y + half * sign, 32), 255);
  }

  lemma EncodedParts(p: Point)
    requires 0 <= p.y < Pow(2, 255)
    ensures FromBytes(EncodePoint(p)) % Pow(2, 255) == p.y && Bit(EncodePoint(p), 255) == p.x % 2
  {
    ReadsYAndSign(p.y, p.x % 2);
  }

  /** Any 32 bytes are what the y and sign bit read from them write again. */
  lemma WritesTheSameBytes(s: seq<byte>, p: Point)
    requires |s| == 32 && Pow(2, 255) > 0 && p.y == FromBytes(s) % Pow(2, 255) && p.x % 2 == Bit(s, 255)
    ensures EncodePoint(p) == s
  {
    TopBitWeight();
    FromBytesBound(s);
    BitOfValue(s, 255);
    JoinTopBit(FromBytes(s), Pow(2, 255));
    FromThenTo(s);
  }

  lemma DecodedParts(c: Curve, s: seq<byte>, p: Point)
    requires c.Fits() && |s| == 32 && DecodePoint(c, s) == Some(p)
    ensures Pow(2, 255) > 0 && p.y == FromBytes(s) % Pow(2, 255) && p.y < c.q && IsOnCurve(c, p)
    ensures var x := XRecover(c, p.y);
            !(x == 0 && Bit(s, 255) == 1) && p.x == if x % 2 != Bit(s, 255) then c.q - x else x
  {
    PowPositive(2, 255);
  }

  lemma SignFixesParity(z: int, x: int, q: int, sign: int)
    requires q % 8 == 5 && 0 <= x < q && x % 2 == 0 && 0 <= sign <= 1 && !(x == 0 && sign == 1)
    requires z == if x % 2 != sign then q - x else x
    ensures 0 <= z < q && z % 2 == sign
  {
  }

  /** Accepted bytes decode to a curve point that encodes to the same bytes, so decoding is injective. */
  lemma DecodeThenEncode(c: Curve, s: seq<byte>)
    requires FieldFacts(c) && c.Fits() && |s| == 32 && DecodePoint(c, s).Some?
    ensures var p := DecodePoint(c, s).value; OnCurve(c, p) && EncodePoint(p) == s
  {
    var p := DecodePoint(c, s).value;
    DecodedParts(c, s, p);
    XRecoverIsEvenRoot(c, 0, p.y);
    SignFixesParity(p.x, XRecover(c, p.y), c.q, Bit(s, 255));
    WritesTheSameBytes(s, p);
  }

  lemma SignRecovers(x: int, even: int, q: int)
    requires q % 8 == 5 && 0 <= x < q && even % 2 == 0 && x == if x % 2 == 0 then even else q - even
    ensures !(even == 0 && x % 2 == 1) && x == if even % 2 != x % 2 then q - even else even
  {
  }

  lemma DecodesTo(c: Curve, s: seq<byte>, p: Point)
    requires c.Fits() && |s| == 32 && Pow(2, 255) > 0 && p.y == FromBytes(s) % Pow(2, 255) && p.y < c.q
    requires Bit(s, 255) == p.x % 2 && IsOnCurve(c, p)
    requires var x := XRecover(c, p.y);
             !(x == 0 && p.x % 2 == 1) && p.x == if x % 2 != p.x % 2 then c.q - x else x
    ensures DecodePoint(c, s) == Some(p)
  {
    assert p == Point(p.x, p.y);
  }

  /** Every point of the curve survives encoding and decoding. */
  lemma EncodeThenDecode(c: Curve, p: Point)
    requires FieldFacts(c) && c.Fits() && OnCurve(c, p)
    ensures DecodePoint(c, EncodePoint(p)) == Some(p)
  {
    EncodedParts(p);
    XRecoverIsEvenRoot(c, p.x, p.y);
    EvenXIsRecovered(c, p);
    SignRecovers(p.x, XRecover(c, p.y), c.q);
    DecodesTo(c, EncodePoint(p), p);
  }

  /** The decoder accepts exactly the encodings of curve points. */
  lemma AcceptsExactlyEncodings(c: Curve, s: seq<byte>)
    requires FieldFacts(c) && c.Fits() && |s| == 32
    ensures DecodePoint(c, s).Some? <==> exists p :: OnCurve(c, p) && EncodePoint(p) == s
  {
    if DecodePoint(c, s).Some? {
      DecodeThenEncode(c, s);
    }
    forall p | OnCurve(c, p) && EncodePoint(p) == s
      ensures DecodePoint(c, s).Some?
    {
      EncodeThenDecode(c, p);
    }
  }
}
