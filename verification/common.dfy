/** Small vocabulary shared by every module: options and stable filtering of sequences. */
module Common {

  type byte = x: int | 0 <= x < 256

  datatype Option<+T> = None | Some(value: T)

  predicate NoDup<T(==)>(s: seq<T>) {
    forall i, j :: 0 <= i < j < |s| ==> s[i] != s[j]
  }

  function Elements<T>(s: seq<T>): set<T> {
    set x | x in s
  }

  function Last<T>(s: seq<T>): T
    requires s != []
  {
    s[|s| - 1]
  }

  function Init<T>(s: seq<T>): seq<T>
    requires s != []
  {
    s[..|s| - 1]
  }

  predicate IsSuffix<T(==)>(a: seq<T>, b: seq<T>) {
    |a| <= |b| && a == b[|b| - |a|..]
  }

  /** The elements of `s` outside `xs`, in order. */
  function Without<T(==)>(s: seq<T>, xs: set<T>): seq<T> {
    if s == [] then [] else (if s[0] in xs then [] else [s[0]]) + Without(s[1..], xs)
  }

  lemma {:induction false} WithoutConcat<T>(a: seq<T>, b: seq<T>, xs: set<T>)
    ensures Without(a + b, xs) == Without(a, xs) + Without(b, xs)
  {
    if a == [] {
      assert a + b == b;
    } else {
      assert (a + b)[1..] == a[1..] + b;
      WithoutConcat(a[1..], b, xs);
    }
  }

  lemma {:induction false} WithoutTwice<T>(s: seq<T>, xs: set<T>, ys: set<T>)
    ensures Without(Without(s, xs), ys) == Without(s, xs + ys)
  {
    if s != [] {
      WithoutTwice(s[1..], xs, ys);
      WithoutConcat(if s[0] in xs then [] else [s[0]], Without(s[1..], xs), ys);
      if s[0] !in xs {
        assert [s[0]][1..] == [];
      }
    }
  }

  lemma {:induction false} WithoutMembers<T>(s: seq<T>, xs: set<T>)
    ensures forall x :: x in Without(s, xs) <==> x in s && x !in xs
    ensures |Without(s, xs)| <= |s|
  {
    if s != [] {
      WithoutMembers(s[1..], xs);
      assert s == [s[0]] + s[1..];
    }
  }

  lemma {:induction false} WithoutIdentity<T>(s: seq<T>, xs: set<T>)
    requires forall x :: x in s ==> x !in xs
    ensures Without(s, xs) == s
  {
    if s != [] {
      assert s[0] in s && forall x :: x in s[1..] ==> x in s;
      WithoutIdentity(s[1..], xs);
    }
  }

  lemma {:induction false} WithoutNoDup<T>(s: seq<T>, xs: set<T>)
    requires NoDup(s)
    ensures NoDup(Without(s, xs))
  {
    if s != [] {
      WithoutNoDup(s[1..], xs);
      WithoutMembers(s[1..], xs);
      assert forall x :: x in s[1..] ==> x != s[0];
    }
  }

  lemma WithoutPrefix<T>(a: seq<T>, b: seq<T>, xs: set<T>)
    requires a <= b
    ensures Without(a, xs) <= Without(b, xs)
  {
    assert b == a + b[|a|..];
    WithoutConcat(a, b[|a|..], xs);
  }

  /** Two filters that drop the same elements of `s` agree on `s`. */
  lemma {:induction false} WithoutCongruent<T>(s: seq<T>, xs: set<T>, ys: set<T>)
    requires forall x :: x in s ==> (x in xs <==> x in ys)
    ensures Without(s, xs) == Without(s, ys)
  {
    if s != [] {
      assert s[0] in s && forall x :: x in s[1..] ==> x in s;
      WithoutCongruent(s[1..], xs, ys);
    }
  }

  lemma SameSize<T>(a: set<T>, b: set<T>)
    requires a <= b && |a| == |b|
    ensures a == b
  {
    assert b == a + (b - a);
  }
}
