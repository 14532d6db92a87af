/** Scalar multiples in a commutative group given by its addition, as double-and-add computes them. */
module ScalarGroups {
  import opened Modular

  datatype Group<!T(!new)> = Group(add: (T, T) -> T, zero: T, on: T -> bool)

  predicate ClosedAt<T(!new)>(g: Group<T>, p: T, r: T) {
    g.on(p) && g.on(r) ==> g.on(g.add(p, r))
  }

  predicate CommutesAt<T(!new, ==)>(g: Group<T>, p: T, r: T) {
    g.on(p) && g.on(r) ==> g.add(p, r) == g.add(r, p)
  }

  predicate AssociatesAt<T(!new, ==)>(g: Group<T>, p: T, r: T, s: T) {
    g.on(p) && g.on(r) && g.on(s) ==> g.add(g.add(p, r), s) == g.add(p, g.add(r, s))
  }

  predicate ZeroAt<T(!new, ==)>(g: Group<T>, p: T) {
    g.on(p) ==> g.add(g.zero, p) == p
  }

  ghost predicate Lawful<T(!new)>(g: Group<T>) {
    && g.on(g.zero)
    && (forall p, r :: ClosedAt(g, p, r))
    && (forall p, r :: CommutesAt(g, p, r))
    && (forall p, r, s :: AssociatesAt(g, p, r, s))
    && (forall p :: ZeroAt(g, p))
  }

  /** p added to itself n times. */
  function Sum<T(!new)>(g: Group<T>, p: T, n: nat): T {
    if n == 0 then g.zero else g.add(Sum(g, p, n - 1), p)
  }

  function DoubleAndAdd<T(!new)>(g: Group<T>, p: T, e: nat): T {
    if e == 0 then g.zero
    else
      var half := DoubleAndAdd(g, p, e / 2);
      var doubled := g.add(half, half);
      if e % 2 == 1 then g.add(doubled, p) else doubled
  }

  predicate PeriodAt<T(!new, ==)>(g: Group<T>, b: T, l: nat, n: nat)
    requires l > 0
  {
    Sum(g, b, n) == g.zero <==> n % l == 0
  }

  /** The multiples of b repeat with period l and no sooner. */
  ghost predicate HasOrder<T(!new)>(g: Group<T>, b: T, l: nat) {
    && l > 0 && g.on(b)
    && (forall n: nat :: PeriodAt(g, b, l, n))
  }

  lemma {:induction false} SumOn<T(!new)>(g: Group<T>, p: T, n: nat)
    requires Lawful(g) && g.on(p)
    ensures g.on(Sum(g, p, n))
  {
    if n > 0 {
      SumOn(g, p, n - 1);
      assert ClosedAt(g, Sum(g, p, n - 1), p);
    }
  }

  /** Repeated addition is a homomorphism in the scalar. */
  lemma {:induction false} SumAdd<T(!new)>(g: Group<T>, p: T, m: nat, n: nat)
    requires Lawful(g) && g.on(p)
    ensures Sum(g, p, m + n) == g.add(Sum(g, p, m), Sum(g, p, n))
  {
    SumOn(g, p, m);
    if n == 0 {
      assert CommutesAt(g, Sum(g, p, m), g.zero) && ZeroAt(g, Sum(g, p, m));
    } else {
      SumAdd(g, p, m, n - 1);
      SumOn(g, p, n - 1);
      assert AssociatesAt(g, Sum(g, p, m), Sum(g, p, n - 1), p);
      assert Sum(g, p, m + n) == g.add(Sum(g, p, m + (n - 1)), p);
    }
  }

  /** Multiples of a multiple. */
  lemma {:induction false} SumMul<T(!new)>(g: Group<T>, p: T, m: nat, n: nat)
    requires Lawful(g) && g.on(p)
    ensures m * n >= 0 && Sum(g, Sum(g, p, m), n) == Sum(g, p, m * n)
  {
    if n > 0 {
      SumMul(g, p, m, n - 1);
      SumAdd(g, p, m * (n - 1), m);
      assert m * (n - 1) + m == m * n;
    }
  }

  /** Double-and-add computes repeated addition. */
  lemma {:induction false} DoubleAndAddIsSum<T(!new)>(g: Group<T>, p: T, e: nat)
    requires Lawful(g) && g.on(p)
    ensures DoubleAndAdd(g, p, e) == Sum(g, p, e)
  {
    if e > 0 {
      DoubleAndAddIsSum(g, p, e / 2);
      SumAdd(g, p, e / 2, e / 2);
      assert e == e / 2 + e / 2 + e % 2;
      assert e % 2 == 1 ==> Sum(g, p, e) == g.add(Sum(g, p, e / 2 + e / 2), p);
    }
  }

  /** Scalars of b only matter modulo its order. */
  lemma SumMod<T(!new)>(g: Group<T>, b: T, l: nat, n: nat)
    requires Lawful(g) && HasOrder(g, b, l)
    ensures Sum(g, b, n) == Sum(g, b, n % l)
  {
    var whole := (n / l) * l;
    DivisionLaw(n, l);
    MultipleIsZero(n / l, l);
    SumAdd(g, b, whole, n % l);
    SumOn(g, b, n % l);
    assert PeriodAt(g, b, l, whole);
    assert ZeroAt(g, Sum(g, b, n % l));
  }

  lemma PaddedBack(m: nat, n: nat, l: nat)
    requires m <= n < l && (n + (l - m)) % l == 0
    ensures m == n
  {
    if m < n {
      QuotientIsUnique(n + (l - m), 1, n - m, l);
    }
  }

  lemma OrderedScalarsAgree<T(!new)>(g: Group<T>, b: T, l: nat, m: nat, n: nat)
    requires Lawful(g) && HasOrder(g, b, l) && m <= n < l && Sum(g, b, m) == Sum(g, b, n)
    ensures m == n
  {
    SumAdd(g, b, n, l - m);
    SumAdd(g, b, m, l - m);
    assert m + (l - m) == l;
    assert PeriodAt(g, b, l, l) && PeriodAt(g, b, l, n + (l - m));
    MultipleIsZero(1, l);
    PaddedBack(m, n, l);
  }

  /** Below the order, a multiple of b has one scalar. */
  lemma ScalarIsUnique<T(!new)>(g: Group<T>, b: T, l: nat, m: nat, n: nat)
    requires Lawful(g) && HasOrder(g, b, l) && m < l && n < l && Sum(g, b, m) == Sum(g, b, n)
    ensures m == n
  {
    if m <= n {
      OrderedScalarsAgree(g, b, l, m, n);
    } else {
      OrderedScalarsAgree(g, b, l, n, m);
    }
  }

  lemma AddMod<T(!new)>(g: Group<T>, b: T, l: nat, r: nat, k: nat)
    requires Lawful(g) && HasOrder(g, b, l)
    ensures g.add(Sum(g, b, r), Sum(g, b, k)) == Sum(g, b, (r + k) % l)
  {
    SumAdd(g, b, r, k);
    SumMod(g, b, l, r + k);
  }

  /** r*b plus h times a*b is the multiple of b by r + h*a, reduced. */
  lemma ChallengeEquation<T(!new)>(g: Group<T>, b: T, l: nat, r: nat, a: nat, h: nat, k: nat)
    requires Lawful(g) && HasOrder(g, b, l) && k == h * a
    ensures g.add(Sum(g, b, r), Sum(g, Sum(g, b, a), h)) == Sum(g, b, (r + k) % l)
  {
    SumMul(g, b, a, h);
    AddMod(g, b, l, r, k);
  }

  /** With both scalars known, exactly one reduced scalar satisfies the verifier's equation. */
  lemma OneResponse<T(!new)>(g: Group<T>, b: T, l: nat, r: nat, a: nat, h: nat, n: nat, s: nat)
    requires Lawful(g) && HasOrder(g, b, l) && s == (r + h * a) % l
    ensures n < l && Sum(g, b, n) == g.add(Sum(g, b, r), Sum(g, Sum(g, b, a), h)) <==> n == s
  {
    ChallengeEquation(g, b, l, r, a, h, h * a);
    if n < l && Sum(g, b, n) == Sum(g, b, s) {
      ScalarIsUnique(g, b, l, n, s);
    }
  }
}
