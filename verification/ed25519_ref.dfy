/** The Ed25519 reference, function by function, over a parameter record. */
module Ed25519 {
  import opened Common
  import opened Modular
  import opened LittleEndian
  import opened ScalarGroups

  type Digest = s: seq<byte> | |s| == 64 witness seq(64, _ => 0)

  datatype Point = Point(x: int, y: int)

  type Modulus = n: nat | 2 < n witness 3

  /** `i` is the recorded square root of -1, `base` the base point; `hash` is SHA-512, uninterpreted. */
  datatype Curve = Curve(q: Modulus, l: Modulus, d: int, i: int, base: Point, hash: seq<byte> -> Digest) {
    /** Field elements fit 255 bits and scalars 32 bytes. */
    predicate Fits() {
      q < Pow(2, 255) && l < Pow(256, 32)
    }
  }

  const ORDER_OFFSET: nat := 27742317777372353535851937790883648493

  lemma FieldFits(q: int)
    requires q == Pow(2, 255) - 19
    ensures 2 < q < Pow(2, 255) && q % 8 == 5
  {
    SmallPowers();
    PowAdd(2, 3, 252);
    PowersGrow(5, 255);
  }

  lemma SquaredPower(n: nat, p: nat)
    requires Pow(2, n) == p
    ensures Pow(2, n + n) == p * p
  {
    PowAdd(2, n, n);
  }

  lemma OffsetBound()
    ensures ORDER_OFFSET < Pow(2, 128)
  {
    SmallPowers();
    SquaredPower(8, 256);
    SquaredPower(16, 0x1_0000);
    SquaredPower(32, 0x1_0000_0000);
    SquaredPower(64, 0x1_0000_0000_0000_0000);
  }

  lemma RoomAbove(p: nat, offset: nat, top: nat)
    requires 2 < offset < p && top == p * 16
    ensures 2 < p + offset < top
  {
  }

  lemma OrderFits(l: int)
    requires l == Pow(2, 252) + ORDER_OFFSET
    ensures 2 < l < Pow(256, 32)
  {
    OffsetBound();
    PowersGrow(128, 252);
    PowAdd(2, 252, 4);
    SmallPowers();
    PowersAgree(32);
    RoomAbove(Pow(2, 252), ORDER_OFFSET, Pow(256, 32));
  }

  const IDENTITY := Point(0, 1)

  function PowMod(a: int, e: nat, m: nat): (r: nat)
    requires m > 0
    ensures r < m
  {
    Pow(a, e) % m
  }

  function Inv(c: Curve, x: int): (r: nat)
    ensures r < c.q
  {
    PowMod(x, c.q - 2, c.q)
  }

  /** The ratio whose square root is x. */
  function XSquared(c: Curve, y: int): int {
    (y * y - 1) * Inv(c, c.d * y * y + 1)
  }

  function XRecover(c: Curve, y: int): int {
    var xx := XSquared(c, y);
    var x0 := PowMod(xx, (c.q + 3) / 8, c.q);
    var x1 := if (x0 * x0 - xx) % c.q != 0 then (x0 * c.i) % c.q else x0;
    if x1 % 2 != 0 then c.q - x1 else x1
  }

  /** The base point's coordinates, from y = 4/5. */
  function BasePoint(c: Curve): Point {
    var y := 4 * Inv(c, 5) % c.q;
    Point(XRecover(c, y) % c.q, y % c.q)
  }

  function FromField(q: Modulus, l: Modulus, hash: seq<byte> -> Digest): Curve {
    var d := (-121665 * PowMod(121666, q - 2, q)) % q;
    var c := Curve(q, l, d, PowMod(2, (q - 1) / 4, q), IDENTITY, hash);
    c.(base := BasePoint(c))
  }

  /** The parameters of section 5.1 of RFC 8032. */
  function Rfc8032(hash: seq<byte> -> Digest): (c: Curve)
    ensures c.Fits() && c.q % 8 == 5
  {
    FieldFits(Pow(2, 255) - 19);
    OrderFits(Pow(2, 252) + ORDER_OFFSET);
    FromField(Pow(2, 255) - 19, Pow(2, 252) + ORDER_OFFSET, hash)
  }

  function Edwards(c: Curve, p: Point, r: Point): (s: Point)
    ensures 0 <= s.x < c.q && 0 <= s.y < c.q
  {
    var x3 := (p.x * r.y + r.x * p.y) * Inv(c, 1 + c.d * p.x * r.x * p.y * r.y);
    var y3 := (p.y * r.y + p.x * r.x) * Inv(c, 1 - c.d * p.x * r.x * p.y * r.y);
    Point(x3 % c.q, y3 % c.q)
  }

  /** Double and add. */
  function ScalarMult(c: Curve, p: Point, e: nat): (s: Point)
    ensures 0 <= s.x < c.q && 0 <= s.y < c.q
  {
    if e == 0 then IDENTITY
    else
      var half := ScalarMult(c, p, e / 2);
      var doubled := Edwards(c, half, half);
      if e % 2 == 1 then Edwards(c, doubled, p) else doubled
  }

  function EncodeInt(y: nat): (s: seq<byte>)
    ensures |s| == 32
  {
    ToBytes(y, 32)
  }

  /** The low 255 bits hold y and the top bit the parity of x. */
  function EncodePoint(p: Point): (s: seq<byte>)
    requires 0 <= p.y < Pow(2, 255)
    ensures |s| == 32
  {
    ToBytes(p.y + Pow(2, 255) * (p.x % 2), 32)
  }

  /** The clamped secret scalar of section 5.1.5 of RFC 8032. */
  function SecretScalar(h: Digest): nat {
    PowPositive(2, 254);
    Pow(2, 254) + BitSum(h, 3, 254)
  }

  function PublicKey(c: Curve, sk: seq<byte>): (pk: seq<byte>)
    requires c.Fits()
    ensures |pk| == 32
  {
    EncodePoint(ScalarMult(c, c.base, SecretScalar(c.hash(sk))))
  }

  function Hint(c: Curve, m: seq<byte>): nat {
    BitSum(c.hash(m), 0, 512)
  }

  /** The signer's S. */
  function Response(c: Curve, r: nat, h: nat, a: nat): (s: nat)
    ensures s < c.l
  {
    (r + h * a) % c.l
  }

  function Signature(c: Curve, m: seq<byte>, sk: seq<byte>, pk: seq<byte>): (s: seq<byte>)
    requires c.Fits()
    ensures |s| == 64
  {
    var h := c.hash(sk);
    var a := SecretScalar(h);
    var r := Hint(c, h[32..64] + m);
    var point := ScalarMult(c, c.base, r);
    var s := Response(c, r, Hint(c, EncodePoint(point) + pk + m), a);
    EncodePoint(point) + EncodeInt(s)
  }

  predicate IsOnCurve(c: Curve, p: Point) {
    (-p.x * p.x + p.y * p.y - 1 - c.d * p.x * p.x * p.y * p.y) % c.q == 0
  }

  /** Rejects y >= q, a negative zero x, and a point off the curve. */
  function DecodePoint(c: Curve, s: seq<byte>): Option<Point>
    requires c.Fits() && |s| == 32
  {
    PowPositive(2, 255);
    var y := FromBytes(s) % Pow(2, 255);
    if y >= c.q then None
    else
      var x := XRecover(c, y);
      var sign := Bit(s, 255);
      if x == 0 && sign == 1 then None
      else
        var p := Point(if x % 2 != sign then c.q - x else x, y);
        if IsOnCurve(c, p) then Some(p) else None
  }

  predicate Verify(c: Curve, m: seq<byte>, s: seq<byte>, pk: seq<byte>)
    requires c.Fits()
  {
    && |s| == 64 && |pk| == 32
    && DecodePoint(c, s[..32]).Some? && DecodePoint(c, pk).Some?
    && var r := DecodePoint(c, s[..32]).value;
       var a := DecodePoint(c, pk).value;
       var n := FromBytes(s[32..64]);
       && n < c.l
       && ScalarMult(c, c.base, n)
          == Edwards(c, r, ScalarMult(c, a, Hint(c, EncodePoint(r) + pk + m)))
  }

  // ---- The number-theoretic facts taken as given ----

  predicate FermatAt(c: Curve, a: int) {
    a % c.q != 0 ==> PowMod(a, c.q - 1, c.q) == 1
  }

  predicate NotRootOfD(c: Curve, x: int) {
    (x * x - c.d) % c.q != 0
  }

  /** q = 5 mod 8 with Fermat's little theorem, i a square root of -1, d not a square. */
  ghost predicate FieldFacts(c: Curve) {
    && c.q % 8 == 5
    && (forall a :: FermatAt(c, a))
    && (c.i * c.i + 1) % c.q == 0
    && (forall x :: NotRootOfD(c, x))
  }

  predicate OnCurve(c: Curve, p: Point) {
    0 <= p.x < c.q && 0 <= p.y < c.q && IsOnCurve(c, p)
  }

  function CurveGroup(c: Curve): Group<Point> {
    Group((p, r) => Edwards(c, p, r), IDENTITY, p => OnCurve(c, p))
  }

  /** Edwards addition makes the curve points a commutative group. */
  ghost predicate GroupFacts(c: Curve) {
    Lawful(CurveGroup(c))
  }

  /** The base point is on the curve and has order exactly l. */
  ghost predicate BaseFacts(c: Curve) {
    HasOrder(CurveGroup(c), c.base, c.l)
  }
}
