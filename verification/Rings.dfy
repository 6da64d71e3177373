/** Doubly linked rings with a sentinel node, threaded through two arrays of node numbers. */
module Rings {
  import opened Sequences

  function Succ(s: seq<nat>, i: int, h: nat): nat {
    if 0 <= i + 1 < |s| then s[i + 1] else h
  }

  function Pred(s: seq<nat>, i: int, h: nat): nat {
    if 0 <= i - 1 < |s| then s[i - 1] else h
  }

  ghost predicate NodeOk(next: seq<nat>, prev: seq<nat>, h: nat, s: seq<nat>, i: int)
    requires 0 <= i < |s| && |next| == |prev|
  {
    s[i] < h < |next| && next[s[i]] == Succ(s, i, h) && prev[s[i]] == Pred(s, i, h)
  }

  /** From the sentinel h forwards the nodes are `s`, backwards the same in reverse. */
  ghost predicate Ring(next: seq<nat>, prev: seq<nat>, h: nat, s: seq<nat>) {
    && |next| == |prev| == h + 1 && NoDup(s)
    && next[h] == Succ(s, -1, h) && prev[h] == Pred(s, |s|, h)
    && forall i :: 0 <= i < |s| ==> NodeOk(next, prev, h, s, i)
  }

  lemma RingEmpty(next: seq<nat>, prev: seq<nat>, h: nat)
    requires |next| == |prev| == h + 1 && next[h] == h && prev[h] == h
    ensures Ring(next, prev, h, [])
  {
  }

  /** The four assignments that link a node right after the sentinel. */
  lemma RingPush(next: seq<nat>, prev: seq<nat>, h: nat, s: seq<nat>, b: nat)
    requires Ring(next, prev, h, s) && b < h && b !in s
    ensures next[h] <= h
    ensures Ring(next[b := next[h]][h := b], prev[b := h][next[h] := b], h, [b] + s)
  {
    var f := next[h];
    assert |s| > 0 ==> NodeOk(next, prev, h, s, 0);
    var next', prev', s' := next[b := f][h := b], prev[b := h][f := b], [b] + s;
    forall i | 0 <= i < |s'|
      ensures NodeOk(next', prev', h, s', i)
    {
      if i > 0 {
        assert NodeOk(next, prev, h, s, i - 1);
        assert s'[i] == s[i - 1];
        if i > 1 {
          assert s[0] != s[i - 1];
        }
      }
    }
    assert prev'[h] == Pred(s', |s'|, h);
  }

  /** The two assignments that unlink the node at position k. */
  lemma RingUnlink(next: seq<nat>, prev: seq<nat>, h: nat, s: seq<nat>, k: nat)
    requires Ring(next, prev, h, s) && k < |s|
    ensures s[k] < h && next[s[k]] <= h && prev[s[k]] <= h
    ensures Ring(next[prev[s[k]] := next[s[k]]], prev[next[s[k]] := prev[s[k]]], h, s[..k] + s[k + 1..])
  {
    var b := s[k];
    assert NodeOk(next, prev, h, s, k);
    if k > 0 {
      assert NodeOk(next, prev, h, s, k - 1);
    }
    if k + 1 < |s| {
      assert NodeOk(next, prev, h, s, k + 1);
    }
    var next', prev', s' := next[prev[b] := next[b]], prev[next[b] := prev[b]], s[..k] + s[k + 1..];
    SplitOut(s, k);
    forall i | 0 <= i < |s'|
      ensures NodeOk(next', prev', h, s', i)
    {
      UnlinkedNode(next, prev, h, s, k, i);
    }
  }

  lemma UnlinkedNode(next: seq<nat>, prev: seq<nat>, h: nat, s: seq<nat>, k: nat, i: nat)
    requires Ring(next, prev, h, s) && k < |s| && i < |s| - 1
    requires s[k] < h && next[s[k]] <= h && prev[s[k]] <= h
    ensures NodeOk(next[prev[s[k]] := next[s[k]]], prev[next[s[k]] := prev[s[k]]], h, s[..k] + s[k + 1..], i)
  {
    hide NoDup;
    var s' := s[..k] + s[k + 1..];
    var o := if i < k then i else i + 1;
    assert s'[i] == s[o];
    assert NodeOk(next, prev, h, s, o) && NodeOk(next, prev, h, s, k);
    if o != k - 1 && k > 0 {
      Distinct(s, o, k - 1);
    }
    if o != k + 1 && k + 1 < |s| {
      Distinct(s, o, k + 1);
    }
    assert i + 1 < |s'| ==> s'[i + 1] == s[if i + 1 < k then i + 1 else i + 2];
    assert i > 0 ==> s'[i - 1] == s[if i - 1 < k then i - 1 else i];
  }
}
