/** Facts about sequences that hold the same elements in different orders. */
module Permutations {

  /** `s` with the element at `i` taken out. */
  function Without<T>(s: seq<T>, i: nat): (r: seq<T>)
    requires i < |s|
    ensures multiset(r) == multiset(s) - multiset{s[i]}
  {
    assert s == s[..i] + [s[i]] + s[i + 1..];
    s[..i] + s[i + 1..]
  }

  /** Concatenation of `f` over a list. */
  function Flat<A, B>(f: A -> seq<B>, s: seq<A>): seq<B> {
    if s == [] then [] else Flat(f, s[..|s| - 1]) + f(s[|s| - 1])
  }

  lemma FlatEmpty<A, B>(f: A -> seq<B>)
    ensures Flat(f, []) == []
  {
  }

  lemma FlatNext<A, B>(f: A -> seq<B>, s: seq<A>, i: nat)
    requires i < |s|
    ensures Flat(f, s[..i + 1]) == Flat(f, s[..i]) + f(s[i])
  {
    assert s[..i + 1][..i] == s[..i];
  }

  ghost predicate Pairwise<T>(p: (T, T) -> bool, s: seq<T>) {
    forall i, j :: 0 <= i < j < |s| ==> p(s[i], s[j])
  }

  ghost predicate Across<T>(p: (T, T) -> bool, s: seq<T>, t: seq<T>) {
    forall x, y :: x in s && y in t ==> p(x, y)
  }

  lemma PairwiseConcat<T>(p: (T, T) -> bool, s: seq<T>, t: seq<T>)
    ensures Pairwise(p, s + t) <==> Pairwise(p, s) && Pairwise(p, t) && Across(p, s, t)
  {
    var u := s + t;
    if Pairwise(p, u) {
      forall i, j | 0 <= i < j < |s| ensures p(s[i], s[j]) { assert p(u[i], u[j]); }
      forall i, j | 0 <= i < j < |t| ensures p(t[i], t[j]) { assert p(u[|s| + i], u[|s| + j]); }
      forall x, y | x in s && y in t ensures p(x, y) {
        var i :| 0 <= i < |s| && s[i] == x;
        var j :| 0 <= j < |t| && t[j] == y;
        assert p(u[i], u[|s| + j]);
      }
    }
    if Pairwise(p, s) && Pairwise(p, t) && Across(p, s, t) {
      forall i, j | 0 <= i < j < |u| ensures p(u[i], u[j]) {
        if i < |s| <= j { assert u[i] in s && u[j] in t; }
      }
    }
  }

  /** The first `n` parts of a flattened list are in order each by itself and all with each other. */
  ghost predicate PartsPairwise<A, B>(p: (B, B) -> bool, f: A -> seq<B>, s: seq<A>, n: nat)
    requires n <= |s|
  {
    && (forall i :: 0 <= i < n ==> Pairwise(p, f(s[i])))
    && (forall i, j :: 0 <= i < j < n ==> Across(p, f(s[i]), f(s[j])))
  }

  lemma {:induction false} FlatMember<A, B>(f: A -> seq<B>, s: seq<A>, x: B)
    ensures x in Flat(f, s) <==> exists i :: 0 <= i < |s| && x in f(s[i])
  {
    if s != [] { FlatMember(f, s[..|s| - 1], x); }
  }

  lemma {:induction false} FlatPairwise<A, B>(p: (B, B) -> bool, f: A -> seq<B>, s: seq<A>)
    ensures Pairwise(p, Flat(f, s)) <==> PartsPairwise(p, f, s, |s|)
  {
    if s != [] {
      var n := |s| - 1;
      FlatPairwise(p, f, s[..n]);
      PairwiseConcat(p, Flat(f, s[..n]), f(s[n]));
      assert PartsPairwise(p, f, s, n) <==> PartsPairwise(p, f, s[..n], n);
      AcrossFlat(p, f, s[..n], f(s[n]));
    }
  }

  lemma AcrossFlat<A, B>(p: (B, B) -> bool, f: A -> seq<B>, s: seq<A>, t: seq<B>)
    ensures Across(p, Flat(f, s), t) <==> forall i :: 0 <= i < |s| ==> Across(p, f(s[i]), t)
  {
    if Across(p, Flat(f, s), t) {
      forall i, x | 0 <= i < |s| && x in f(s[i]) ensures x in Flat(f, s) { FlatMember(f, s, x); }
    } else {
      var x, y :| x in Flat(f, s) && y in t && !p(x, y);
      FlatMember(f, s, x);
    }
  }

  lemma WithoutAt<T>(s: seq<T>, i: nat, c: nat)
    requires i < |s| && c < |s| - 1
    ensures |Without(s, i)| == |s| - 1 && Without(s, i)[c] == s[if c < i then c else c + 1]
  {
  }

  /** Two places of a sequence have two places in any permutation of it. */
  lemma TwoPlaces<T>(s: seq<T>, t: seq<T>, i: nat, j: nat) returns (a: nat, b: nat)
    requires multiset(s) == multiset(t) && i < j < |t|
    ensures a < |s| && b < |s| && a != b && s[a] == t[i] && s[b] == t[j]
  {
    hide Without;
    assert t[i] in multiset(s);
    a :| a < |s| && s[a] == t[i];
    WithoutAt(t, i, j - 1);
    assert Without(t, i)[j - 1] in multiset(Without(t, i));
    assert multiset(Without(s, a)) == multiset(Without(t, i));
    var c :| 0 <= c < |Without(s, a)| && Without(s, a)[c] == t[j];
    assert |multiset(s)| == |s| && |multiset(Without(s, a))| == |Without(s, a)|;
    WithoutAt(s, a, c);
    b := if c < a then c else c + 1;
  }

  lemma PairwisePermutes<T(!new)>(p: (T, T) -> bool, s: seq<T>, t: seq<T>)
    requires multiset(s) == multiset(t) && Pairwise(p, s)
    requires forall x, y :: p(x, y) ==> p(y, x)
    ensures Pairwise(p, t)
  {
    forall i, j | 0 <= i < j < |t| ensures p(t[i], t[j]) {
      var a, b := TwoPlaces(s, t, i, j);
      if a < b { assert p(s[a], s[b]); } else { assert p(s[b], s[a]); }
    }
  }

  lemma {:induction false} FlatConcat<A, B>(f: A -> seq<B>, s: seq<A>, t: seq<A>)
    ensures Flat(f, s + t) == Flat(f, s) + Flat(f, t)
  {
    if t == [] {
      assert s + t == s;
    } else {
      var u := s + t;
      assert u[..|u| - 1] == s + t[..|t| - 1];
      FlatConcat(f, s, t[..|t| - 1]);
    }
  }

  lemma {:induction false} FlatPermutes<A, B>(f: A -> seq<B>, s: seq<A>, t: seq<A>)
    requires multiset(s) == multiset(t)
    ensures multiset(Flat(f, s)) == multiset(Flat(f, t))
  {
    if s == [] {
      assert |multiset(t)| == 0;
    } else {
      var n := |s| - 1;
      assert s[n] in multiset(t);
      var i :| 0 <= i < |t| && t[i] == s[n];
      assert Without(s, n) == s[..n];
      FlatPermutes(f, s[..n], Without(t, i));
      FlatWithout(f, t, i);
    }
  }

  lemma {:induction false} FlatWithout<A, B>(f: A -> seq<B>, t: seq<A>, i: nat)
    requires i < |t|
    ensures multiset(Flat(f, t)) == multiset(Flat(f, Without(t, i))) + multiset(f(t[i]))
  {
    FlatAround(f, t[..i], t[i], t[i + 1..]);
    assert t == t[..i] + [t[i]] + t[i + 1..];
  }

  lemma {:induction false} FlatAround<A, B>(f: A -> seq<B>, s: seq<A>, x: A, t: seq<A>)
    ensures multiset(Flat(f, s + [x] + t)) == multiset(Flat(f, s + t)) + multiset(f(x))
  {
    FlatConcat(f, s, t);
    FlatConcat(f, s + [x], t);
    FlatConcat(f, s, [x]);
    FlatSingleton(f, x);
  }

  lemma FlatSingleton<A, B>(f: A -> seq<B>, x: A)
    ensures Flat(f, [x]) == f(x)
  {
    assert [x][..0] == [];
  }

  lemma {:induction false} FlatAgrees<A, B>(f: A -> seq<B>, g: A -> seq<B>, s: seq<A>)
    requires forall x :: x in s ==> f(x) == g(x)
    ensures Flat(f, s) == Flat(g, s)
  {
    if s != [] { FlatAgrees(f, g, s[..|s| - 1]); }
  }
}
