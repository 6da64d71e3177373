/**
 The user heap's blocks and its free list.  A block is named by the address of its header
 and holds a number of header-sized units.  The free list runs through the headers in
 `free`, of which the smallest, `base`, is no block.
 */
module HeapModel {
  const UNIT: nat := 16

  function End(size: map<nat, nat>, a: nat): nat
    requires a in size
  {
    a + UNIT * size[a]
  }

  /** b follows a on the circle of the addresses in `free`. */
  ghost predicate IsNext(base: nat, free: set<nat>, a: nat, b: nat) {
    b in free && if a < b then NoneBetween(free, a, b) else b == base && NoneAbove(free, a)
  }

  ghost predicate NoneBetween(free: set<nat>, a: nat, b: nat) {
    forall c :: c in free ==> c <= a || b <= c
  }

  ghost predicate NoneAbove(free: set<nat>, a: nat) {
    forall c :: c in free ==> c <= a
  }

  /** The links form one circle through all of `free` in the order of addresses. */
  ghost predicate Circle(base: nat, free: set<nat>, ptr: map<nat, nat>) {
    && base in free && (forall c :: c in free ==> base <= c)
    && forall a {:trigger LinkOk(base, free, ptr, a)} :: a in free ==> LinkOk(base, free, ptr, a)
  }

  ghost predicate LinkOk(base: nat, free: set<nat>, ptr: map<nat, nat>, a: nat) {
    a in ptr && IsNext(base, free, a, ptr[a])
  }

  ghost predicate Sized(base: nat, heads: set<nat>, size: map<nat, nat>) {
    forall a :: a in heads ==> base < a && a in size && size[a] >= 1
  }

  /** No two blocks overlap. */
  ghost predicate Apart(heads: set<nat>, size: map<nat, nat>)
    requires forall a :: a in heads ==> a in size
  {
    forall a, b :: a in heads && b in heads && a < b ==> End(size, a) <= b
  }

  /** No two free blocks touch. */
  ghost predicate Gaps(heads: set<nat>, size: map<nat, nat>)
    requires forall a :: a in heads ==> a in size
  {
    forall a, b :: a in heads && b in heads && a < b ==> End(size, a) < b
  }

  ghost predicate Inside(heads: set<nat>, size: map<nat, nat>, x: nat) {
    exists a :: a in heads && a in size && a <= x < End(size, a)
  }

  /** The blocks make up exactly the memory obtained so far. */
  ghost predicate Covers(heads: set<nat>, size: map<nat, nat>, arena: set<nat>) {
    forall x: nat :: x in arena <==> Inside(heads, size, x)
  }

  ghost predicate Memory(base: nat, heads: set<nat>, size: map<nat, nat>, arena: set<nat>) {
    Sized(base, heads, size) && Apart(heads, size) && Covers(heads, size, arena)
  }

  // ----------------------------------------------------------------------- the circle

  /** c is passed on the way round from s, which is left, to p, which is reached. */
  predicate Between(s: nat, p: nat, c: nat) {
    if s < p then s < c <= p else c > s || c <= p
  }

  ghost function Ahead(free: set<nat>, s: nat, p: nat): set<nat> {
    set c | c in free && Between(s, p, c)
  }

  /** One step on the circle leaves less of it ahead. */
  lemma StepAhead(base: nat, free: set<nat>, ptr: map<nat, nat>, p: nat, t: nat)
    requires Circle(base, free, ptr) && p in free && t in free && p != t
    ensures p in ptr && ptr[p] in free
    ensures Ahead(free, ptr[p], t) < Ahead(free, p, t) || ptr[p] == t
  {
    assert LinkOk(base, free, ptr, p);
    var n := ptr[p];
    if n != t {
      assert n in Ahead(free, p, t) && n !in Ahead(free, n, t);
    }
  }

  /** What a search from s round the circle has not looked at when it stands behind prev. */
  ghost function Unseen(free: set<nat>, s: nat, prev: nat): set<nat> {
    set c | c in free && (prev == s || !Between(s, prev, c))
  }

  /** One step of the search looks at exactly the next header. */
  lemma StepSees(base: nat, free: set<nat>, ptr: map<nat, nat>, s: nat, prev: nat)
    requires Circle(base, free, ptr) && s in free && prev in free
    ensures prev in ptr && ptr[prev] in free
    ensures forall c :: c in free && Between(s, ptr[prev], c) ==> c == ptr[prev] || c !in Unseen(free, s, prev)
    ensures ptr[prev] != s ==> Unseen(free, s, ptr[prev]) < Unseen(free, s, prev)
  {
    assert LinkOk(base, free, ptr, prev);
    var p := ptr[prev];
    if p != s {
      assert p in Unseen(free, s, prev) && p !in Unseen(free, s, p);
    }
  }

  ghost function Above(free: set<nat>, a: nat): set<nat> {
    set c | c in free && a < c
  }

  lemma AboveLess(free: set<nat>, a: nat, b: nat)
    requires a < b && b in free
    ensures Above(free, b) < Above(free, a)
  {
    assert b in Above(free, a) && b !in Above(free, b);
  }

  /** The header after which a new one belongs. */
  lemma PlaceExists(free: set<nat>, p: nat, b: nat) returns (t: nat)
    requires p in free && p < b && b !in free
    ensures t in free && t < b && NoneBetween(free, t, b)
    decreases Above(free, p)
  {
    if c :| c in free && p < c < b {
      AboveLess(free, p, c);
      t := PlaceExists(free, c, b);
    } else {
      t := p;
    }
  }

  lemma InsertCircle(base: nat, free: set<nat>, ptr: map<nat, nat>, t: nat, b: nat)
    requires Circle(base, free, ptr) && t in free && t < b && b !in free && NoneBetween(free, t, b)
    ensures t in ptr && Circle(base, free + {b}, ptr[b := ptr[t]][t := b])
  {
    assert LinkOk(base, free, ptr, t);
    var free', ptr' := free + {b}, ptr[b := ptr[t]][t := b];
    forall a | a in free'
      ensures LinkOk(base, free', ptr', a)
    {
      if a in free {
        assert LinkOk(base, free, ptr, a);
      }
    }
  }

  lemma RemoveCircle(base: nat, free: set<nat>, ptr: map<nat, nat>, p: nat, b: nat)
    requires Circle(base, free, ptr) && p in free && p in ptr && b == ptr[p] && b != base
    ensures b in free && p < b && b in ptr && Circle(base, free - {b}, ptr[p := ptr[b]])
  {
    assert LinkOk(base, free, ptr, p) && LinkOk(base, free, ptr, b);
    var free', ptr' := free - {b}, ptr[p := ptr[b]];
    forall a | a in free'
      ensures LinkOk(base, free', ptr', a)
    {
      assert LinkOk(base, free, ptr, a);
    }
  }

  /** What comes after the i-th header of a list that ends by going back to base. */
  function Following(base: nat, l: seq<nat>, i: nat): nat {
    if i + 1 < |l| then l[i + 1] else base
  }

  lemma NextFacts(base: nat, free: set<nat>, ptr: map<nat, nat>, a: nat)
    requires Circle(base, free, ptr) && a in free
    ensures a in ptr && ptr[a] in free
    ensures forall c :: c in free && a < c ==> a < ptr[a] <= c
    ensures ptr[a] <= a ==> ptr[a] == base
  {
    assert LinkOk(base, free, ptr, a);
  }

  /** Read off from `a`, the list is the headers from a upwards in ascending order, each once. */
  lemma {:induction false} OneCircle(base: nat, free: set<nat>, ptr: map<nat, nat>, a: nat) returns (l: seq<nat>)
    requires Circle(base, free, ptr) && a in free
    ensures l != [] && l[0] == a && forall i, j :: 0 <= i < j < |l| ==> l[i] < l[j]
    ensures forall c :: c in l <==> c in free && a <= c
    ensures forall i :: 0 <= i < |l| ==> l[i] in ptr && ptr[l[i]] == Following(base, l, i)
    decreases Above(free, a)
  {
    hide Circle;
    NextFacts(base, free, ptr, a);
    var n := ptr[a];
    if n > a {
      AboveLess(free, a, n);
      var m := OneCircle(base, free, ptr, n);
      l := [a] + m;
      Prepended(base, free, ptr, a, m);
    } else {
      l := [a];
    }
  }

  lemma Prepended(base: nat, free: set<nat>, ptr: map<nat, nat>, a: nat, m: seq<nat>)
    requires m != [] && a < m[0] && a in free && a in ptr && ptr[a] == m[0]
    requires forall i, j :: 0 <= i < j < |m| ==> m[i] < m[j]
    requires forall c :: c in m <==> c in free && m[0] <= c
    requires forall c :: c in free && a < c ==> m[0] <= c
    requires forall i :: 0 <= i < |m| ==> m[i] in ptr && ptr[m[i]] == Following(base, m, i)
    ensures var l := [a] + m;
            && (forall i, j :: 0 <= i < j < |l| ==> l[i] < l[j])
            && (forall c :: c in l <==> c in free && a <= c)
            && (forall i :: 0 <= i < |l| ==> l[i] in ptr && ptr[l[i]] == Following(base, l, i))
  {
  }

  // ----------------------------------------------------------------------- the blocks

  /** Two touching blocks become one. */
  lemma MergeBlocks(base: nat, heads: set<nat>, size: map<nat, nat>, arena: set<nat>, a: nat, b: nat)
    requires Memory(base, heads, size, arena) && a in heads && b in heads && End(size, a) == b
    ensures Memory(base, heads - {b}, size[a := size[a] + size[b]], arena)
  {
    var heads', size' := heads - {b}, size[a := size[a] + size[b]];
    assert End(size', a) == End(size, b);
    forall x: nat
      ensures Inside(heads', size', x) <==> Inside(heads, size, x)
    {
      if c :| c in heads && c <= x < End(size, c) {
        var d := if c == b then a else c;
        assert d in heads' && d <= x < End(size', d);
      }
      if c :| c in heads' && c <= x < End(size', c) {
        var d := if c == a && x >= b then b else c;
        assert d in heads && d <= x < End(size, d);
      }
    }
  }

  /** The last n units of a block become a block of their own. */
  lemma SplitBlock(base: nat, heads: set<nat>, size: map<nat, nat>, arena: set<nat>, a: nat, n: nat)
    requires Memory(base, heads, size, arena) && a in heads && 0 < n < size[a]
    ensures var q := a + UNIT * (size[a] - n);
            q !in heads && Memory(base, heads + {q}, size[a := size[a] - n][q := n], arena)
  {
  }

  ghost function Region(h: nat, n: nat): set<nat> {
    set x: nat | x < h + UNIT * n && AtLeast(h, x)
  }

  predicate AtLeast(h: nat, x: nat) {
    h <= x
  }

  /** New memory is one block more. */
  lemma AddBlock(base: nat, heads: set<nat>, size: map<nat, nat>, arena: set<nat>, h: nat, n: nat)
    requires Memory(base, heads, size, arena) && base < h && n >= 1 && Region(h, n) !! arena
    ensures h !in heads && Memory(base, heads + {h}, size[h := n], arena + Region(h, n))
  {
    var heads', size' := heads + {h}, size[h := n];
    forall c | c in heads
      ensures End(size, c) <= h || h + UNIT * n <= c
    {
      assert Inside(heads, size, c);
      if c < h {
        assert Inside(heads, size, h) || End(size, c) <= h;
        assert h in Region(h, n);
      }
    }
    forall x: nat
      ensures Inside(heads', size', x) <==> x in arena + Region(h, n)
    {
      if c :| c in heads && c <= x < End(size, c) {
        assert c in heads' && c <= x < End(size', c);
      }
      if x in Region(h, n) {
        assert h in heads' && h <= x < End(size', h);
      }
      if c :| c in heads' && c <= x < End(size', c) {
        assert c == h || (c in heads && c <= x < End(size, c));
      }
    }
  }
}
