/** Singly linked lists threaded through an array of link words; `nil` ends a list. */
module Chains {
  import opened Sequences

  function After(nil: int, l: seq<nat>, i: nat): int {
    if i + 1 < |l| then l[i + 1] else nil
  }

  /** Starting from `head` the link words visit exactly the pages of `l`, in order. */
  ghost predicate Chain(nil: int, head: int, link: seq<int>, l: seq<nat>) {
    && head == (if l == [] then nil else l[0])
    && forall i :: 0 <= i < |l| ==> l[i] < |link| && link[l[i]] == After(nil, l, i)
  }

  lemma ChainUntouched(nil: int, head: int, link: seq<int>, l: seq<nat>, a: nat, v: int)
    requires Chain(nil, head, link, l) && a < |link| && a !in l
    ensures Chain(nil, head, link[a := v], l)
  {
  }

  lemma ChainAt(nil: int, head: int, link: seq<int>, l: seq<nat>, i: nat)
    requires Chain(nil, head, link, l) && i < |l|
    ensures l[i] < |link| && link[l[i]] == if i + 1 < |l| then l[i + 1] else nil
  {
  }

  lemma ChainPush(nil: int, head: int, link: seq<int>, l: seq<nat>, a: nat)
    requires Chain(nil, head, link, l) && a < |link| && a !in l && NoDup(l)
    ensures Chain(nil, a, link[a := head], [a] + l) && NoDup([a] + l)
  {
  }

  lemma ChainTail(nil: int, link: seq<int>, l: seq<nat>)
    requires l != [] && Chain(nil, l[0], link, l) && NoDup(l)
    ensures l[0] < |link| && Chain(nil, link[l[0]], link, l[1..]) && NoDup(l[1..]) && l[0] !in l[1..]
    ensures forall a :: a in l <==> a == l[0] || a in l[1..]
  {
  }

  /** Relinking around position i > 0 leaves the list well linked. */
  lemma ChainUnlink(nil: int, head: int, link: seq<int>, l: seq<nat>, i: nat)
    requires 0 < i < |l| && Chain(nil, head, link, l) && NoDup(l)
    ensures l[i - 1] < |link| && l[i] < |link|
    ensures Chain(nil, head, link[l[i - 1] := link[l[i]]], l[..i] + l[i + 1..])
  {
    var l' := l[..i] + l[i + 1..];
    var link' := link[l[i - 1] := link[l[i]]];
    forall j | 0 <= j < |l'|
      ensures l'[j] < |link'| && link'[l'[j]] == After(nil, l', j)
    {
      ChainUnlinkAt(nil, head, link, l, i, j);
    }
  }

  lemma ChainUnlinkAt(nil: int, head: int, link: seq<int>, l: seq<nat>, i: nat, j: nat)
    requires 0 < i < |l| && j < |l| - 1 && Chain(nil, head, link, l) && NoDup(l)
    ensures l[i - 1] < |link| && l[i] < |link|
    ensures var l' := l[..i] + l[i + 1..];
            l'[j] < |link| && link[l[i - 1] := link[l[i]]][l'[j]] == After(nil, l', j)
  {
  }
}
