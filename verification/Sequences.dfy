/** Sequences without repetition and the sets of their elements. */
module Sequences {

  ghost predicate NoDup<T>(s: seq<T>) {
    forall i, j :: 0 <= i < j < |s| ==> s[i] != s[j]
  }

  lemma Distinct<T>(s: seq<T>, i: nat, j: nat)
    requires NoDup(s) && i < |s| && j < |s| && i != j
    ensures s[i] != s[j]
  {
  }

  lemma NoDupTail<T>(s: seq<T>)
    requires NoDup(s) && s != []
    ensures NoDup(s[1..]) && forall x :: x in s[1..] <==> x in s && x != s[0]
  {
  }

  lemma NoDupPush<T>(s: seq<T>, x: T)
    requires NoDup(s) && x !in s
    ensures NoDup([x] + s) && forall y :: y in [x] + s <==> y == x || y in s
  {
  }

  /** Taking out the element at position i. */
  lemma SplitOut<T>(s: seq<T>, i: nat)
    requires i < |s| && NoDup(s)
    ensures NoDup(s[..i] + s[i + 1..]) && s[i] !in s[..i] + s[i + 1..]
    ensures forall x :: x in s <==> x == s[i] || x in s[..i] + s[i + 1..]
  {
  }

  /** The sequence without the first occurrence of a. */
  function Without(s: seq<nat>, a: nat): seq<nat> {
    if s == [] then []
    else if s[0] == a then s[1..]
    else [s[0]] + Without(s[1..], a)
  }

  lemma {:induction false} WithoutIsRemoval(s: seq<nat>, a: nat)
    requires NoDup(s)
    ensures NoDup(Without(s, a))
    ensures forall x :: x in Without(s, a) <==> x in s && x != a
  {
    if s != [] && s[0] != a {
      WithoutIsRemoval(s[1..], a);
      assert s == [s[0]] + s[1..];
      assert s[0] !in s[1..];
    } else if s != [] {
      assert s == [s[0]] + s[1..];
    }
  }

  lemma {:induction false} WithoutAbsent(s: seq<nat>, a: nat)
    requires a !in s
    ensures Without(s, a) == s
  {
    if s != [] {
      WithoutAbsent(s[1..], a);
    }
  }

  lemma {:induction false} WithoutAt(s: seq<nat>, i: nat)
    requires i < |s| && s[i] !in s[..i]
    ensures Without(s, s[i]) == s[..i] + s[i + 1..]
  {
    if i > 0 {
      assert s[1..][..i - 1] == s[..i][1..];
      WithoutAt(s[1..], i - 1);
      assert s[i] == s[1..][i - 1];
    }
  }

  function Indices(count: nat): (r: set<nat>)
    ensures forall i: nat :: i in r <==> i < count
    ensures |r| == count
  {
    if count == 0 then {} else Indices(count - 1) + {count - 1}
  }

  function Elems<T(==, !new)>(s: seq<T>): (r: set<T>)
    ensures forall x :: x in r <==> x in s
    ensures NoDup(s) ==> |r| == |s|
  {
    if s == [] then {}
    else
      assert s == [s[0]] + s[1..];
      {s[0]} + Elems(s[1..])
  }

  lemma {:induction false} SmallerSet<T>(a: set<T>, b: set<T>)
    requires a <= b
    ensures |a| <= |b| && |b - a| == |b| - |a|
    ensures |a| == |b| ==> a == b
  {
  }

  /** A sequence of n distinct numbers below n holds them all. */
  lemma AllListed(s: seq<nat>, n: nat)
    requires NoDup(s) && |s| == n && forall i :: 0 <= i < |s| ==> s[i] < n
    ensures forall x: nat :: x < n ==> x in s
  {
    assert Elems(s) <= Indices(n);
    SmallerSet(Elems(s), Indices(n));
  }
}
