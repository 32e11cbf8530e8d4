/**
 The two list macros of the allocator on intrusive, NULL-terminated, doubly linked lists. The
 `next` and `prev` fields of all nodes are given as maps from the node's address.
 */
module Tlist {
  import opened Seqs

  /** The nodes of `s` are linked in this order. */
  ghost predicate Linked(next: map<Addr, Addr>, prev: map<Addr, Addr>, s: seq<Addr>) {
    && NoDup(s)
    && (forall i :: 0 <= i < |s| ==> s[i] != NULL && s[i] in next && s[i] in prev)
    && (forall i :: 0 <= i < |s| ==> next[s[i]] == At(s, i + 1))
    && (forall i :: 0 <= i < |s| ==> prev[s[i]] == At(s, i - 1))
  }

  /** Nothing but the fields of the nodes in `w` differs. */
  ghost predicate SameOutside(m: map<Addr, Addr>, m': map<Addr, Addr>, w: seq<Addr>) {
    m'.Keys == m.Keys && forall x :: x in m && x !in w ==> m'[x] == m[x]
  }

  function Cut(s: seq<Addr>, k: nat): seq<Addr>
    requires k < |s|
  {
    s[..k] + s[k + 1..]
  }

  lemma LinkedFrame(next: map<Addr, Addr>, prev: map<Addr, Addr>, next': map<Addr, Addr>, prev': map<Addr, Addr>, s: seq<Addr>, w: seq<Addr>)
    requires Linked(next, prev, s) && SameOutside(next, next', w) && SameOutside(prev, prev', w)
    requires forall i :: 0 <= i < |s| ==> s[i] !in w
    ensures Linked(next', prev', s)
  {
  }

  lemma CutLinked(next: map<Addr, Addr>, prev: map<Addr, Addr>, next': map<Addr, Addr>, prev': map<Addr, Addr>, s: seq<Addr>, k: nat)
    requires Linked(next, prev, s) && k < |s|
    requires next'.Keys == next.Keys && prev'.Keys == prev.Keys
    requires forall i :: 0 <= i < |s| && i != k ==> next'[s[i]] == if i + 1 == k then At(s, k + 1) else next[s[i]]
    requires forall i :: 0 <= i < |s| && i != k ==> prev'[s[i]] == if i == k + 1 then At(s, k - 1) else prev[s[i]]
    ensures Linked(next', prev', Cut(s, k))
  {
    var r := Cut(s, k);
    forall i | 0 <= i < |r|
      ensures r[i] == if i < k then s[i] else s[i + 1]
    {
    }
  }

  lemma CutHead(s: seq<Addr>, k: nat)
    requires k < |s|
    ensures At(Cut(s, k), 0) == if k == 0 then At(s, 1) else s[0]
  {
  }

  /** Where the neighbours of `s[k]` stand. */
  lemma Others(s: seq<Addr>, k: nat)
    requires NoDup(s) && k < |s|
    ensures forall i :: 0 <= i < |s| ==>
      && (s[i] == s[k] <==> i == k) && (s[i] == s[0] <==> i == 0)
      && (k > 0 ==> (s[i] == s[k - 1] <==> i == k - 1)) && (k + 1 < |s| ==> (s[i] == s[k + 1] <==> i == k + 1))
  {
  }

  /** The macro that takes `p` out of the list that starts at `list`. */
  method TlistRemove(next: map<Addr, Addr>, prev: map<Addr, Addr>, list: Addr, p: Addr, ghost s: seq<Addr>, ghost k: nat)
    returns (next': map<Addr, Addr>, prev': map<Addr, Addr>, list': Addr)
    requires Linked(next, prev, s) && list == At(s, 0) && k < |s| && p == s[k]
    ensures Linked(next', prev', Cut(s, k)) && list' == At(Cut(s, k), 0)
    ensures SameOutside(next, next', s) && SameOutside(prev, prev', s)
    ensures p in next' && next'[p] == NULL && p in prev' && prev'[p] == NULL
  {
    hide NoDup, Cut;
    Others(s, k);
    CutHead(s, k);
    next', prev', list' := next, prev, list;
    if p == list' {
      list' := next'[p];
      if list' != NULL {
        prev' := prev'[list' := NULL];
      }
    } else {
      if prev'[p] != NULL {
        next' := next'[prev'[p] := next'[p]];
      }
      if next'[p] != NULL {
        prev' := prev'[next'[p] := prev'[p]];
      }
    }
    if p != NULL && p != list' {
      next', prev' := next'[p := NULL], prev'[p := NULL];
    }
    CutLinked(next, prev, next', prev', s, k);
  }

  /** The macro that puts `p` in front of the list that starts at `list`. */
  method TlistAdd(next: map<Addr, Addr>, prev: map<Addr, Addr>, list: Addr, p: Addr, ghost s: seq<Addr>)
    returns (next': map<Addr, Addr>, prev': map<Addr, Addr>, list': Addr)
    requires Linked(next, prev, s) && list == At(s, 0) && p !in s && p != NULL && p in next && p in prev
    ensures Linked(next', prev', [p] + s) && list' == p
    ensures SameOutside(next, next', [p] + s) && SameOutside(prev, prev', [p] + s)
  {
    next', prev', list' := next, prev, list;
    if list' == NULL {
      list' := p;
      next', prev' := next'[p := NULL], prev'[p := NULL];
    } else {
      prev' := prev'[list' := p];
      next' := next'[p := list'];
      prev' := prev'[p := NULL];
      list' := p;
    }
    NoDupCons(p, s);
  }
}
