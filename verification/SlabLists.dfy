/** Doubly linked slab lists: the next and prev fields of the slab headers, by the header's page. */
module SlabLists {
  import opened Sequences

  const NIL: int := -1

  datatype Links = Links(next: map<nat, int>, prev: map<nat, int>)

  function Succ(l: seq<nat>, i: int): int {
    if 0 <= i + 1 < |l| then l[i + 1] else NIL
  }

  function Pred(l: seq<nat>, i: int): int {
    if 0 <= i - 1 < |l| then l[i - 1] else NIL
  }

  ghost predicate NodeOk(k: Links, l: seq<nat>, i: int)
    requires 0 <= i < |l|
  {
    l[i] in k.next && k.next[l[i]] == Succ(l, i) && l[i] in k.prev && k.prev[l[i]] == Pred(l, i)
  }

  /** From the head forwards the slabs are `l`, and each leads back to the one before it. */
  ghost predicate ListOk(head: int, k: Links, l: seq<nat>) {
    NoDup(l) && head == Succ(l, -1) && forall i :: 0 <= i < |l| ==> NodeOk(k, l, i)
  }

  /** `if (p) p->next = v;` */
  function SetNext(k: Links, p: int, v: int): Links {
    if p < 0 then k else k.(next := k.next[p := v])
  }

  /** `if (p) p->prev = v;` */
  function SetPrev(k: Links, p: int, v: int): Links {
    if p < 0 then k else k.(prev := k.prev[p := v])
  }

  /** slab_list_push_front. */
  function Pushed(k: Links, head: int, s: nat): Links {
    SetPrev(SetNext(SetPrev(k, s, NIL), s, head), head, s)
  }

  /** slab_list_pop_front, and remove_from_slab_list. */
  function Popped(k: Links, s: nat): Links
    requires s in k.next
  {
    SetPrev(SetNext(SetPrev(k, k.next[s], NIL), s, NIL), s, NIL)
  }

  /** slab_list_remove_node. */
  function Removed(k: Links, s: nat): Links
    requires s in k.next && s in k.prev
  {
    SetPrev(SetNext(SetPrev(SetNext(k, k.prev[s], k.next[s]), k.next[s], k.prev[s]), s, NIL), s, NIL)
  }

  /** A list whose slabs' fields are as they were is still linked. */
  lemma ListFrame(head: int, k: Links, k': Links, l: seq<nat>)
    requires ListOk(head, k, l)
    requires forall s :: s in l ==>
      s in k'.next && s in k'.prev && (s in k.next ==> k'.next[s] == k.next[s]) &&
      (s in k.prev ==> k'.prev[s] == k.prev[s])
    ensures ListOk(head, k', l)
  {
    forall i | 0 <= i < |l|
      ensures NodeOk(k', l, i)
    {
      assert NodeOk(k, l, i);
    }
  }

  lemma ListHead(head: int, k: Links, l: seq<nat>)
    requires ListOk(head, k, l)
    ensures (head < 0 <==> l == []) && head == Succ(l, -1)
    ensures l != [] ==> head == l[0] && l[0] in k.next && l[0] in k.prev && k.next[l[0]] == Succ(l, 0)
  {
    if l != [] {
      assert NodeOk(k, l, 0);
    }
  }

  lemma PushOk(head: int, k: Links, l: seq<nat>, s: nat)
    requires ListOk(head, k, l) && s !in l
    ensures ListOk(s, Pushed(k, head, s), [s] + l)
  {
    ListHead(head, k, l);
    var k', l' := Pushed(k, head, s), [s] + l;
    forall i | 0 <= i < |l'|
      ensures NodeOk(k', l', i)
    {
      if i > 0 {
        assert NodeOk(k, l, i - 1) && l'[i] == l[i - 1];
        if i > 1 {
          Distinct(l, 0, i - 1);
        }
      }
    }
  }

  lemma PopOk(head: int, k: Links, l: seq<nat>)
    requires ListOk(head, k, l) && l != []
    ensures l[0] in k.next && ListOk(k.next[l[0]], Popped(k, l[0]), l[1..])
  {
    ListHead(head, k, l);
    var k', l' := Popped(k, l[0]), l[1..];
    NoDupTail(l);
    forall i | 0 <= i < |l'|
      ensures NodeOk(k', l', i)
    {
      assert NodeOk(k, l, i + 1) && l'[i] == l[i + 1];
      if i > 0 {
        Distinct(l, 1, i + 1);
      }
    }
  }

  lemma RemoveOk(head: int, k: Links, l: seq<nat>, j: nat)
    requires ListOk(head, k, l) && j < |l|
    ensures l[j] in k.next && l[j] in k.prev && k.prev[l[j]] == Pred(l, j)
    ensures ListOk(if j == 0 then k.next[l[j]] else head, Removed(k, l[j]), l[..j] + l[j + 1..])
  {
    hide NoDup;
    assert NodeOk(k, l, j);
    var l' := l[..j] + l[j + 1..];
    SplitOut(l, j);
    forall i | 0 <= i < |l'|
      ensures NodeOk(Removed(k, l[j]), l', i)
    {
      RemovedNode(head, k, l, j, i);
    }
  }

  lemma RemovedNode(head: int, k: Links, l: seq<nat>, j: nat, i: nat)
    requires ListOk(head, k, l) && j < |l| && i < |l| - 1 && l[j] in k.next && l[j] in k.prev
    ensures NodeOk(Removed(k, l[j]), l[..j] + l[j + 1..], i)
  {
    hide NoDup;
    var l' := l[..j] + l[j + 1..];
    var o := if i < j then i else i + 1;
    assert l'[i] == l[o];
    assert NodeOk(k, l, o) && NodeOk(k, l, j);
    Distinct(l, o, j);
    if o != j - 1 && j > 0 {
      Distinct(l, o, j - 1);
    }
    if o != j + 1 && j + 1 < |l| {
      Distinct(l, o, j + 1);
    }
    assert i + 1 < |l'| ==> l'[i + 1] == l[if i + 1 < j then i + 1 else i + 2];
    assert i > 0 ==> l'[i - 1] == l[if i - 1 < j then i - 1 else i];
  }

  /** Where a slab is on its list. */
  lemma Position(l: seq<nat>, s: nat) returns (j: nat)
    requires NoDup(l) && s in l
    ensures j < |l| && l[j] == s && l[..j] + l[j + 1..] == Without(l, s)
  {
    j :| 0 <= j < |l| && l[j] == s;
    WithoutAt(l, j);
  }

  // ----------------------------------------------------------------------- three lists

  ghost predicate Disjoint(l: seq<nat>, m: seq<nat>) {
    forall s :: s in l ==> s !in m
  }

  /** The three lists of a cache, linked and without a slab in common. */
  ghost predicate Lists(heads: (int, int, int), k: Links, full: seq<nat>, partial: seq<nat>, empty: seq<nat>) {
    && ListOk(heads.0, k, full) && ListOk(heads.1, k, partial) && ListOk(heads.2, k, empty)
    && Disjoint(full, partial) && Disjoint(full, empty) && Disjoint(partial, empty)
  }

  lemma OtherPushed(head: int, k: Links, m: seq<nat>, top: int, l: seq<nat>, s: nat)
    requires ListOk(head, k, m) && ListOk(top, k, l) && Disjoint(l, m) && s !in m
    ensures ListOk(head, Pushed(k, top, s), m)
  {
    ListHead(top, k, l);
    Fields(head, k, m);
    ListFrame(head, k, Pushed(k, top, s), m);
  }

  lemma OtherPopped(head: int, k: Links, m: seq<nat>, top: int, l: seq<nat>)
    requires ListOk(head, k, m) && ListOk(top, k, l) && Disjoint(l, m) && l != []
    ensures l[0] in k.next && ListOk(head, Popped(k, l[0]), m)
  {
    ListHead(top, k, l);
    Fields(head, k, m);
    ListFrame(head, k, Popped(k, l[0]), m);
  }

  lemma OtherRemoved(head: int, k: Links, m: seq<nat>, top: int, l: seq<nat>, j: nat)
    requires ListOk(head, k, m) && ListOk(top, k, l) && Disjoint(l, m) && j < |l|
    ensures l[j] in k.next && l[j] in k.prev && ListOk(head, Removed(k, l[j]), m)
  {
    assert NodeOk(k, l, j);
    Fields(head, k, m);
    ListFrame(head, k, Removed(k, l[j]), m);
  }

  lemma Fields(head: int, k: Links, l: seq<nat>)
    requires ListOk(head, k, l)
    ensures forall s :: s in l ==> s in k.next && s in k.prev
  {
    forall s | s in l
      ensures s in k.next && s in k.prev
    {
      var i :| 0 <= i < |l| && l[i] == s;
      assert NodeOk(k, l, i);
    }
  }

  /** The head of a list after slab_list_remove_node. */
  function HeadWithout(head: int, k: Links, s: nat): int
    requires s in k.next && s in k.prev
  {
    if k.prev[s] < 0 then k.next[s] else head
  }

  lemma RemoveAt(head: int, k: Links, l: seq<nat>, s: nat)
    requires ListOk(head, k, l) && s in l
    ensures s in k.next && s in k.prev && ListOk(HeadWithout(head, k, s), Removed(k, s), Without(l, s))
  {
    hide ListOk, Removed, NoDup, Without;
    NoRepeats(head, k, l);
    var j := Position(l, s);
    RemoveOk(head, k, l, j);
  }

  /** slab_list_remove_node on one list and slab_list_push_front on another; the third stays. */
  lemma MoveOk(hf: int, ht: int, ho: int, k: Links, from: seq<nat>, to: seq<nat>, other: seq<nat>, s: nat)
    requires ListOk(hf, k, from) && ListOk(ht, k, to) && ListOk(ho, k, other) && s in from
    requires Disjoint(from, to) && Disjoint(from, other) && Disjoint(to, other)
    ensures s in k.next && s in k.prev
    ensures var k' := Pushed(Removed(k, s), ht, s);
            && ListOk(HeadWithout(hf, k, s), k', Without(from, s)) && ListOk(s, k', [s] + to) && ListOk(ho, k', other)
            && Disjoint(Without(from, s), [s] + to) && Disjoint(Without(from, s), other) && Disjoint([s] + to, other)
  {
    hide ListOk, Pushed, Removed, NoDup, Without;
    NoRepeats(hf, k, from);
    var j := Position(from, s);
    RemoveOk(hf, k, from, j);
    OtherRemoved(ht, k, to, hf, from, j);
    OtherRemoved(ho, k, other, hf, from, j);
    WithoutIsRemoval(from, s);
    var k1 := Removed(k, s);
    PushOk(ht, k1, to, s);
    OtherPushed(HeadWithout(hf, k, s), k1, Without(from, s), ht, to, s);
    OtherPushed(ho, k1, other, ht, to, s);
  }

  /** slab_list_pop_front on one list and slab_list_push_front on another; the third stays. */
  lemma PopMoveOk(hf: int, ht: int, ho: int, k: Links, from: seq<nat>, to: seq<nat>, other: seq<nat>)
    requires ListOk(hf, k, from) && ListOk(ht, k, to) && ListOk(ho, k, other) && from != []
    requires Disjoint(from, to) && Disjoint(from, other) && Disjoint(to, other)
    ensures from[0] in k.next
    ensures var k' := Pushed(Popped(k, from[0]), ht, from[0]);
            && ListOk(k.next[from[0]], k', from[1..]) && ListOk(from[0], k', [from[0]] + to) && ListOk(ho, k', other)
            && Disjoint(from[1..], [from[0]] + to) && Disjoint(from[1..], other) && Disjoint([from[0]] + to, other)
  {
    hide ListOk, Pushed, Popped, NoDup;
    NoRepeats(hf, k, from);
    NoDupTail(from);
    PopOk(hf, k, from);
    OtherPopped(ht, k, to, hf, from);
    OtherPopped(ho, k, other, hf, from);
    var k1, s := Popped(k, from[0]), from[0];
    PushOk(ht, k1, to, s);
    OtherPushed(k.next[s], k1, from[1..], ht, to, s);
    OtherPushed(ho, k1, other, ht, to, s);
  }

  lemma NoRepeats(head: int, k: Links, l: seq<nat>)
    requires ListOk(head, k, l)
    ensures NoDup(l)
  {
  }
}
