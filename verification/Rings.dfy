/** The intrusive doubly linked ring list: nodes that are changed in place. */
module Rings {

  class ListNode {
    var next: ListNode?
    var prev: ListNode?

    constructor ()
    {
      next, prev := null, null;
    }
  }

  ghost predicate Distinct(s: seq<ListNode>) {
    forall i, j :: 0 <= i < j < |s| ==> s[i] != s[j]
  }

  function After(s: seq<ListNode>, i: int): ListNode
    requires 0 <= i < |s|
  {
    if i + 1 < |s| then s[i + 1] else s[0]
  }

  function Before(s: seq<ListNode>, i: int): ListNode
    requires 0 <= i < |s|
  {
    if i > 0 then s[i - 1] else s[|s| - 1]
  }

  /** The nodes of `s` form a ring in this order; the list headed by `s[0]` has the entries `s[1..]`. */
  ghost predicate Ring(s: seq<ListNode>)
    reads s
  {
    && s != [] && Distinct(s)
    && forall i :: 0 <= i < |s| ==> s[i].next == After(s, i) && s[i].prev == Before(s, i)
  }

  /** Any node of a ring may serve as its head. */
  lemma RingFrom(s: seq<ListNode>, k: nat)
    requires Ring(s) && k < |s|
    ensures Ring(s[k..] + s[..k])
  {
    var r := s[k..] + s[..k];
    forall i | 0 <= i < |s| ensures r[i] == if k + i < |s| then s[k + i] else s[k + i - |s|] {
    }
  }

  /** An empty list. */
  method Init(h: ListNode)
    modifies h
    ensures Ring([h])
  {
    h.prev := h;
    h.next := h;
  }

  /** The four writes that put `n` in front. */
  method Insert(h: ListNode, n: ListNode, ghost s: seq<ListNode>)
    requires Ring([h] + s) && n !in [h] + s
    modifies h, n, h.next
    ensures Ring([h] + [n] + s)
  {
    ghost var o, r := [h] + s, [h] + [n] + s;
    assert o[0] == h && (s != [] ==> o[1] == s[0]);
    n.next := h.next;
    n.prev := h;
    h.next.prev := n;
    h.next := n;
    forall i | 0 <= i < |r| ensures r[i] == if i == 0 then h else if i == 1 then n else o[i - 1] {
    }
    forall i | 0 <= i < |r| ensures r[i].next == After(r, i) && r[i].prev == Before(r, i) {
      if i > 1 {
        assert r[i] == o[i - 1];
      }
    }
  }

  /** Put `n` in front of the entries `s` of `h`. No node but `h`, `n` and the old first one changes. */
  method Add(h: ListNode, n: ListNode, debug: bool, ghost s: seq<ListNode>)
    requires Ring([h] + s) && n !in [h] + s
    modifies h, n, h.next
    ensures Ring([h] + [n] + s)
  {
    Insert(h, n, s);
    if debug {
      DebugCheck(h, [h] + [n] + s, 0);
    }
  }

  lemma DistinctSnoc(s: seq<ListNode>, n: ListNode)
    requires Distinct(s) && n !in s
    ensures Distinct(s + [n])
  {
  }

  /** The ring `o` opened behind its last node, with `n` in the gap. */
  lemma ClosedWith(o: seq<ListNode>, n: ListNode)
    requires o != [] && Distinct(o) && n !in o && n.next == o[0] && n.prev == o[|o| - 1]
    requires forall i :: 0 <= i < |o| ==> o[i].next == if i + 1 < |o| then o[i + 1] else n
    requires forall i :: 0 <= i < |o| ==> o[i].prev == if i > 0 then o[i - 1] else n
    ensures Ring(o + [n])
  {
    hide Distinct;
    DistinctSnoc(o, n);
    var r := o + [n];
    forall i | 0 <= i < |r| ensures r[i].next == After(r, i) && r[i].prev == Before(r, i) {
      assert r[0] == o[0] && r[|o|] == n;
      if i < |o| {
        var x := o[i];
        assert r[i] == x && x.next == (if i + 1 < |o| then o[i + 1] else n) && x.prev == (if i > 0 then o[i - 1] else n);
        assert r[i + 1] == if i + 1 < |o| then o[i + 1] else n;
        assert i > 0 ==> r[i - 1] == o[i - 1];
      } else {
        assert r[i - 1] == o[i - 1];
      }
    }
  }

  /** The four writes that put `n` at the end. */
  method AppendLast(h: ListNode, n: ListNode, ghost s: seq<ListNode>)
    requires Ring([h] + s) && n !in [h] + s
    modifies h, n, h.prev
    ensures Ring([h] + s + [n])
  {
    hide Distinct;
    ghost var o := [h] + s;
    assert o[0] == h && h.prev == o[|s|];
    n.next := h;
    n.prev := h.prev;
    h.prev.next := n;
    h.prev := n;
    forall i | 0 <= i < |o|
      ensures o[i].next == if i + 1 < |o| then o[i + 1] else n
      ensures o[i].prev == if i > 0 then o[i - 1] else n
    {
      ApartIn(o, i, |s|);
      ApartIn(o, 0, i);
    }
    ClosedWith(o, n);
  }

  lemma ApartIn(s: seq<ListNode>, i: nat, j: nat)
    requires Distinct(s) && i <= j < |s|
    ensures i < j ==> s[i] != s[j]
  {
  }

  /** Put `n` behind the entries `s` of `h`. */
  method AddTail(h: ListNode, n: ListNode, debug: bool, ghost s: seq<ListNode>)
    requires Ring([h] + s) && n !in [h] + s
    modifies h, n, h.prev
    ensures Ring([h] + s + [n])
  {
    AppendLast(h, n, s);
    if debug {
      DebugCheck(h, [h] + s + [n], 0);
    }
  }

  /** Whether the list has no entries. */
  method IsEmpty(h: ListNode, debug: bool, ghost s: seq<ListNode>) returns (b: bool)
    requires Ring([h] + s)
    ensures b <==> s == []
  {
    assert ([h] + s)[0] == h;
    assert s != [] ==> ([h] + s)[1] == s[0];
    if debug {
      DebugCheck(h, [h] + s, 0);
    }
    b := h.next == h;
  }

  // ------------------------------------------------------------------ checking a list

  /** A finite set of nodes that no `next` field leaves. */
  ghost predicate ClosedGraph(g: set<ListNode>)
    reads g
  {
    forall n :: n in g ==> n.next != null && n.next in g
  }

  /** The node `i` steps from `h`. */
  ghost function Hop(g: set<ListNode>, h: ListNode, i: nat): (n: ListNode)
    requires ClosedGraph(g) && h in g
    reads g
    ensures n in g
  {
    if i == 0 then h else Hop(g, h, i - 1).next
  }

  /** The nodes 1 to `n` - 1 steps from `h` are not `h` and point back to their predecessors. */
  ghost predicate PointBack(g: set<ListNode>, h: ListNode, n: nat)
    requires ClosedGraph(g) && h in g
    reads g
  {
    forall i :: 0 < i < n ==> Hop(g, h, i) != h && Hop(g, h, i).prev == Hop(g, h, i - 1)
  }

  /** The chain of `next` fields returns to `h` after `n` steps, for the first time, and each node on the
      way points back to its predecessor. Without such nodes `h` points back to itself. */
  ghost predicate Intact(g: set<ListNode>, h: ListNode, n: nat)
    requires ClosedGraph(g) && h in g
    reads g
  {
    n > 0 && Hop(g, h, n) == h && PointBack(g, h, n) && (n == 1 ==> h.prev == h)
  }

  /** No node is met twice as long as each points back to its predecessor. */
  lemma {:induction false} NotMetTwice(g: set<ListNode>, h: ListNode, i: nat, j: nat)
    requires ClosedGraph(g) && h in g && 0 < i < j && PointBack(g, h, j)
    ensures Hop(g, h, i) != Hop(g, h, j) || Hop(g, h, j).prev != Hop(g, h, j - 1)
    decreases i
  {
    if Hop(g, h, i) == Hop(g, h, j) && Hop(g, h, j).prev == Hop(g, h, j - 1) {
      assert Hop(g, h, i - 1) == Hop(g, h, j - 1);
      if i > 1 {
        NotMetTwice(g, h, i - 1, j - 1);
      }
    }
  }

  lemma NotIntact(g: set<ListNode>, h: ListNode, i: nat)
    requires ClosedGraph(g) && h in g && 0 < i && PointBack(g, h, i)
    requires if Hop(g, h, i) == h then i == 1 && h.prev != h else Hop(g, h, i).prev != Hop(g, h, i - 1)
    ensures forall n: nat :: !Intact(g, h, n)
  {
    hide Hop;
    forall n: nat ensures !Intact(g, h, n) {
      if PointBack(g, h, n) {
        PointsBackAt(g, h, n, i);
        PointsBackAt(g, h, i, n);
      }
    }
  }

  lemma PointsBackAt(g: set<ListNode>, h: ListNode, n: nat, i: nat)
    requires ClosedGraph(g) && h in g && PointBack(g, h, n)
    ensures 0 < i < n ==> Hop(g, h, i) != h && Hop(g, h, i).prev == Hop(g, h, i - 1)
  {
    hide Hop;
  }

  /** The nodes met so far. */
  ghost predicate Met(g: set<ListNode>, h: ListNode, i: nat, met: set<ListNode>)
    requires ClosedGraph(g) && h in g
    reads g
  {
    met <= g && forall x :: x in met ==> exists k :: 0 < k < i && x == Hop(g, h, k)
  }

  lemma NewNode(g: set<ListNode>, h: ListNode, i: nat, met: set<ListNode>)
    requires ClosedGraph(g) && h in g && 0 < i && PointBack(g, h, i) && Met(g, h, i, met)
    requires Hop(g, h, i) != h && Hop(g, h, i).prev == Hop(g, h, i - 1)
    ensures PointBack(g, h, i + 1) && Met(g, h, i + 1, met + {Hop(g, h, i)}) && |g - (met + {Hop(g, h, i)})| < |g - met|
  {
    hide Hop;
    var n := Hop(g, h, i);
    forall x | x in met ensures x != n {
      var k :| 0 < k < i && x == Hop(g, h, k);
      NotMetTwice(g, h, k, i);
    }
    assert g - (met + {n}) == (g - met) - {n};
  }

  /** Walk the list and compare the `prev` fields; null when one is wrong. The `prev` field of the head of a
      list with entries is not looked at. */
  method Check(h: ListNode, ghost g: set<ListNode>) returns (r: ListNode?)
    requires ClosedGraph(g) && h in g
    ensures r == null || r == h
    ensures r == h <==> exists n: nat :: Intact(g, h, n)
  {
    hide Intact, PointBack, Met;
    assert Hop(g, h, 0) == h && Hop(g, h, 1) == h.next;
    Start(g, h);
    if h.next == h {
      if h.prev != h {
        NotIntact(g, h, 1);
        return null;
      }
      Complete(g, h, 1);
      return h;
    }
    var p: ListNode, n: ListNode := h, h.next;
    ghost var i, met: set<ListNode> := 1, {};
    while n != h
      invariant 0 < i && n in g && n == Hop(g, h, i) && p == Hop(g, h, i - 1) && PointBack(g, h, i) && Met(g, h, i, met)
      invariant i == 1 ==> n != h
      decreases |g - met|
    {
      if n.prev != p {
        NotIntact(g, h, i);
        return null;
      }
      NewNode(g, h, i, met);
      met := met + {n};
      p, n, i := n, n.next, i + 1;
    }
    Complete(g, h, i);
    return h;
  }

  lemma Start(g: set<ListNode>, h: ListNode)
    requires ClosedGraph(g) && h in g
    ensures PointBack(g, h, 1) && Met(g, h, 1, {})
  {
  }

  lemma Complete(g: set<ListNode>, h: ListNode, n: nat)
    requires ClosedGraph(g) && h in g && n > 0 && Hop(g, h, n) == h && PointBack(g, h, n) && (n == 1 ==> h.prev == h)
    ensures Intact(g, h, n)
  {
  }

  // ------------------------------------------------------------------ rings and the check

  lemma RingClosed(s: seq<ListNode>)
    requires Ring(s)
    ensures ClosedGraph(Nodes(s)) && s[0] in Nodes(s)
  {
    var g := Nodes(s);
    forall n | n in g ensures n.next != null && n.next in g {
      var i :| 0 <= i < |s| && s[i] == n;
      assert After(s, i) in s;
    }
  }

  lemma {:induction false} RingHop(s: seq<ListNode>, g: set<ListNode>, i: nat)
    requires Ring(s) && ClosedGraph(g) && s[0] in g && i <= |s|
    ensures Hop(g, s[0], i) == if i < |s| then s[i] else s[0]
  {
    if i > 0 {
      RingHop(s, g, i - 1);
    }
  }

  /** A ring passes the check from its first node on. */
  lemma RingIntact(s: seq<ListNode>, g: set<ListNode>)
    requires Ring(s) && ClosedGraph(g) && s[0] in g
    ensures Intact(g, s[0], |s|)
  {
    hide Hop;
    forall i: nat | i <= |s| ensures Hop(g, s[0], i) == if i < |s| then s[i] else s[0] {
      RingHop(s, g, i);
    }
  }

  /** The nodes up to `n` steps from `h`. */
  ghost function Hops(g: set<ListNode>, h: ListNode, n: nat): (s: seq<ListNode>)
    requires ClosedGraph(g) && h in g
    reads g
    ensures |s| == n && forall i :: 0 <= i < n ==> s[i] == Hop(g, h, i)
  {
    if n == 0 then [] else Hops(g, h, n - 1) + [Hop(g, h, n - 1)]
  }

  /** What passes the check is a ring exactly when the head points back to the last node. */
  lemma IntactRing(g: set<ListNode>, h: ListNode, n: nat)
    requires ClosedGraph(g) && h in g && Intact(g, h, n)
    ensures Ring(Hops(g, h, n)) <==> h.prev == Hop(g, h, n - 1)
  {
    var s := Hops(g, h, n);
    assert Hop(g, h, 0) == h;
    hide Hop, Hops;
    forall i, j | 0 <= i < j < |s| ensures s[i] != s[j] {
      if i > 0 {
        NotMetTwice(g, h, i, j);
      }
    }
    forall i: nat | i < n ensures Hop(g, h, i).next == Hop(g, h, i + 1) {
      HopNext(g, h, i);
    }
  }

  /** A list of one entry whose head does not point back to that entry: it is no ring, and passes the check. */
  method WrongHeadPasses() returns (h: ListNode, n: ListNode, r: ListNode?)
    ensures h.next == n && n.prev == h && n.next == h && h.prev == h != n && !Ring([h, n]) && r == h
  {
    h := new ListNode();
    n := new ListNode();
    h.next, h.prev := n, h;
    n.next, n.prev := h, h;
    ghost var g := {h, n};
    r := Check(h, g);
    TwoNodes(h, n);
  }

  lemma TwoNodes(h: ListNode, n: ListNode)
    requires h != n && h.next == n && n.prev == h && n.next == h && h.prev == h
    ensures var g := {h, n}; ClosedGraph(g) && Intact(g, h, 2) && !Ring([h, n])
  {
    var g := {h, n};
    assert Hop(g, h, 0) == h;
    assert Hop(g, h, 1) == n;
    assert Hop(g, h, 2) == h;
    var s := [h, n];
    assert s[0] == h && Before(s, 0) == n;
  }

  lemma HopNext(g: set<ListNode>, h: ListNode, i: nat)
    requires ClosedGraph(g) && h in g
    ensures Hop(g, h, i).next == Hop(g, h, i + 1)
  {
  }

  function Nodes(s: seq<ListNode>): set<ListNode> {
    set x | x in s
  }

  /** The two writes that take `n` out of the ring. */
  method Bypass(n: ListNode, ghost s: seq<ListNode>, ghost k: nat)
    requires Ring(s) && k < |s| && s[k] == n && |s| > 1
    modifies n.next, n.prev
    ensures Ring(s[..k] + s[k + 1..]) && n.next == old(n.next) && n.prev == old(n.prev)
  {
    hide Distinct;
    NeighboursApart(s, k);
    n.next.prev := n.prev;
    n.prev.next := n.next;
    forall i | 0 <= i < |s| && i != k
      ensures s[i].next == if After(s, i) == n then After(s, k) else After(s, i)
      ensures s[i].prev == if Before(s, i) == n then Before(s, k) else Before(s, i)
    {
      OnlyNeighbours(s, i, k);
    }
    Closed(s, k);
  }

  lemma NeighboursApart(s: seq<ListNode>, k: nat)
    requires Distinct(s) && k < |s| && |s| > 1
    ensures After(s, k) != s[k] && Before(s, k) != s[k]
  {
  }

  /** The successor of `s[i]` is `s[k]` exactly when `s[i]` is the predecessor of `s[k]`, and likewise backwards. */
  lemma OnlyNeighbours(s: seq<ListNode>, i: nat, k: nat)
    requires Distinct(s) && i < |s| && k < |s| && i != k
    ensures s[i] != s[k] && (After(s, i) == s[k] <==> s[i] == Before(s, k)) && (Before(s, i) == s[k] <==> s[i] == After(s, k))
  {
  }

  /** The ring without its node `k`, whose neighbours point past it. */
  lemma Closed(s: seq<ListNode>, k: nat)
    requires Distinct(s) && k < |s| && |s| > 1
    requires forall i :: 0 <= i < |s| && i != k ==> s[i].next == if After(s, i) == s[k] then After(s, k) else After(s, i)
    requires forall i :: 0 <= i < |s| && i != k ==> s[i].prev == if Before(s, i) == s[k] then Before(s, k) else Before(s, i)
    ensures Ring(s[..k] + s[k + 1..])
  {
    var r := s[..k] + s[k + 1..];
    DistinctWithout(s, k);
    hide Distinct, After, Before;
    forall i | 0 <= i < |r| ensures r[i].next == After(r, i) && r[i].prev == Before(r, i) {
      var j := if i < k then i else i + 1;
      NextWithout(s, k, i);
    }
  }

  lemma DistinctWithout(s: seq<ListNode>, k: nat)
    requires Distinct(s) && k < |s|
    ensures Distinct(s[..k] + s[k + 1..])
  {
    var r := s[..k] + s[k + 1..];
    forall i | 0 <= i < |r| ensures r[i] == s[if i < k then i else i + 1] {
    }
  }

  lemma NextWithout(s: seq<ListNode>, k: nat, i: nat)
    requires Distinct(s) && k < |s| && i < |s| - 1
    ensures var r, j := s[..k] + s[k + 1..], if i < k then i else i + 1;
      && r[i] == s[j]
      && After(r, i) == (if After(s, j) == s[k] then After(s, k) else After(s, j))
      && Before(r, i) == (if Before(s, j) == s[k] then Before(s, k) else Before(s, j))
  {
  }

  /** Take `n`, the node at position `k` of the ring `s`, out of it. The debugging form also checks the list
      from the next node on and clears the fields of `n`. */
  method Del(n: ListNode, debug: bool, ghost s: seq<ListNode>, ghost k: nat)
    requires Ring(s) && k < |s| && s[k] == n && |s| > 1
    modifies n, n.next, n.prev
    ensures Ring(s[..k] + s[k + 1..])
    ensures if debug then n.next == null && n.prev == null else n.next == old(n.next) && n.prev == old(n.prev)
  {
    hide Ring, Distinct;
    Linked(s, k);
    Bypass(n, s, k);
    if debug {
      DebugCheck(n.next, s[..k] + s[k + 1..], if k + 1 < |s| then k else 0);
      n.next, n.prev := null, null;
    }
  }

  /** The check that every operation makes in the debugging form: it succeeds on a ring. */
  method DebugCheck(h: ListNode, ghost r: seq<ListNode>, ghost k: nat)
    requires Ring(r) && k < |r| && r[k] == h
  {
    RingClosed(r);
    var c := Check(h, Nodes(r));
    AnyHead(r, k);
    assert c == h;
  }

  lemma Linked(s: seq<ListNode>, k: nat)
    requires Ring(s) && k < |s| && |s| > 1
    ensures var r := s[..k] + s[k + 1..];
      s[k].next == r[if k + 1 < |s| then k else 0] && s[k].prev != null && s[k] !in r
  {
  }

  /** The check passes from every node of a ring. */
  lemma AnyHead(s: seq<ListNode>, k: nat)
    requires Ring(s) && k < |s|
    ensures ClosedGraph(Nodes(s)) && s[k] in Nodes(s) && Intact(Nodes(s), s[k], |s|)
  {
    hide Intact;
    RingClosed(s);
    RingFrom(s, k);
    var r := s[k..] + s[..k];
    assert r[0] == s[k] && |r| == |s|;
    hide Ring;
    RingIntact(r, Nodes(s));
  }

  // ------------------------------------------------------------------ iterating

  /** `s` without the nodes in `w`, in the old order. */
  function Kept(s: seq<ListNode>, w: set<ListNode>): (r: seq<ListNode>)
    ensures forall i :: 0 <= i < |r| ==> r[i] in s && r[i] !in w
    ensures forall i :: 0 <= i < |s| && s[i] !in w ==> s[i] in r
  {
    if s == [] then []
    else if s[0] in w then Kept(s[1..], w)
    else [s[0]] + Kept(s[1..], w)
  }

  lemma {:induction false} KeptDistinct(s: seq<ListNode>, w: set<ListNode>)
    requires Distinct(s)
    ensures Distinct(Kept(s, w))
  {
    if s != [] {
      assert Distinct(s[1..]) && s[0] !in s[1..] by { Tail(s); }
      KeptDistinct(s[1..], w);
    }
  }

  lemma Tail(s: seq<ListNode>)
    requires Distinct(s) && s != []
    ensures Distinct(s[1..]) && s[0] !in s[1..]
  {
    forall i, j | 0 <= i < j < |s[1..]| ensures s[1..][i] != s[1..][j] {
      assert s[1..][i] == s[i + 1] && s[1..][j] == s[j + 1];
    }
  }

  lemma {:induction false} KeptConcat(a: seq<ListNode>, b: seq<ListNode>, w: set<ListNode>)
    ensures Kept(a + b, w) == Kept(a, w) + Kept(b, w)
  {
    if a == [] {
      assert a + b == b;
    } else {
      assert (a + b)[1..] == a[1..] + b;
      KeptConcat(a[1..], b, w);
    }
  }

  lemma {:induction false} KeptAll(s: seq<ListNode>, w: set<ListNode>)
    requires forall i :: 0 <= i < |s| ==> s[i] !in w
    ensures Kept(s, w) == s
  {
    if s != [] {
      KeptAll(s[1..], w);
      assert s == [s[0]] + s[1..];
    }
  }

  /** Cutting one more node out of what is kept. */
  lemma {:induction false} KeptCut(s: seq<ListNode>, w: set<ListNode>, k: nat)
    requires Distinct(s) && k < |Kept(s, w)|
    ensures var r := Kept(s, w); Kept(s, w + {r[k]}) == r[..k] + r[k + 1..]
  {
    hide Distinct, Kept;
    var r, rest := Kept(s, w), Kept(s[1..], w);
    KeptStep(s, w);
    KeptStep(s, w + {r[k]});
    Tail(s);
    if s[0] in w {
      KeptCut(s[1..], w, k);
    } else if k == 0 {
      KeptMore(s[1..], w, s[0]);
    } else {
      KeptCut(s[1..], w, k - 1);
      CutCons(s[0], rest, k);
    }
  }

  lemma CutCons(x: ListNode, rest: seq<ListNode>, k: nat)
    requires 0 < k <= |rest|
    ensures var r := [x] + rest; r[k] == rest[k - 1] && r[..k] + r[k + 1..] == [x] + (rest[..k - 1] + rest[k..])
  {
  }

  lemma KeptStep(s: seq<ListNode>, w: set<ListNode>)
    ensures s == [] ==> Kept(s, w) == []
    ensures s != [] ==> Kept(s, w) == (if s[0] in w then [] else [s[0]]) + Kept(s[1..], w)
  {
  }

  lemma {:induction false} KeptMore(s: seq<ListNode>, w: set<ListNode>, x: ListNode)
    requires x !in s
    ensures Kept(s, w + {x}) == Kept(s, w)
  {
    if s != [] {
      KeptMore(s[1..], w, x);
    }
  }

  function Flat(plan: seq<seq<ListNode>>): seq<ListNode> {
    if plan == [] then [] else Flat(plan[..|plan| - 1]) + plan[|plan| - 1]
  }

  /** The body of round `i` may delete entries that were visited by then and are still there. */
  ghost predicate PlanOk(s: seq<ListNode>, plan: seq<seq<ListNode>>) {
    && |plan| == |s| && Distinct(Flat(plan))
    && forall i, j :: 0 <= i < |plan| && 0 <= j < |plan[i]| ==> plan[i][j] in s[..i + 1]
  }

  lemma KeptSplit(t: seq<ListNode>, gone: set<ListNode>, k: nat)
    requires t != [] && k < |t| && t[0] !in gone && forall i :: k <= i < |t| ==> t[i] !in gone
    ensures Kept(t, gone) == Kept(t[..k], gone) + t[k..] && Kept(t, gone) != [] && Kept(t, gone)[0] == t[0]
  {
    var a, b := t[..k], t[k..];
    assert t == a + b;
    KeptStep(t, gone);
    hide Kept;
    KeptConcat(a, b, gone);
    KeptAll(b, gone);
  }

  lemma RingAt(r: seq<ListNode>, m: nat)
    requires Ring(r) && m < |r|
    ensures r[m].next == After(r, m)
  {
  }

  /** In a ring from which only nodes before position `k` are gone, node `k` leads to the one behind it. */
  lemma NextKept(t: seq<ListNode>, gone: set<ListNode>, k: nat)
    requires t != [] && Ring(Kept(t, gone)) && k < |t| && t[0] !in gone && forall i :: k <= i < |t| ==> t[i] !in gone
    ensures t[k].next == After(t, k)
  {
    hide Ring, Kept;
    KeptSplit(t, gone, k);
    var a, r := Kept(t[..k], gone), Kept(t, gone);
    RingAt(r, |a|);
    assert r[|a|] == t[k];
    assert k + 1 < |t| ==> r[|a| + 1] == t[k..][1];
  }

  /** Delete the nodes `ds` one after the other. */
  method DeleteAll(ds: seq<ListNode>, ghost t: seq<ListNode>, ghost gone: set<ListNode>)
    requires Distinct(t) && t != [] && t[0] !in gone && Ring(Kept(t, gone)) && Distinct(ds)
    requires forall i :: 0 <= i < |ds| ==> ds[i] in t[1..] && ds[i] !in gone
    modifies t
    ensures Ring(Kept(t, gone + Nodes(ds)))
  {
    hide Ring, Distinct, Kept;
    ghost var w := gone;
    assert gone + Nodes(ds[..0]) == gone;
    for j := 0 to |ds|
      invariant w == gone + Nodes(ds[..j]) && Ring(Kept(t, w))
    {
      ghost var k := StillThere(t, ds, gone, w, j);
      DeleteOne(ds[j], t, w, k);
      assert Nodes(ds[..j + 1]) == Nodes(ds[..j]) + {ds[j]};
      w := w + {ds[j]};
    }
    assert ds[..|ds|] == ds;
  }

  lemma StillThere(t: seq<ListNode>, ds: seq<ListNode>, gone: set<ListNode>, w: set<ListNode>, j: nat) returns (k: nat)
    requires Distinct(t) && t != [] && t[0] !in gone && Distinct(ds) && j < |ds| && w == gone + Nodes(ds[..j])
    requires forall i :: 0 <= i < |ds| ==> ds[i] in t[1..] && ds[i] !in gone
    ensures var r := Kept(t, w); 0 < k < |r| && r[k] == ds[j]
  {
    Tail(t);
    assert ds[j] !in w && ds[j] in t && ds[j] != t[0];
    assert t[0] !in w;
    KeptStep(t, w);
    k :| 0 <= k < |Kept(t, w)| && Kept(t, w)[k] == ds[j];
  }

  method DeleteOne(n: ListNode, ghost t: seq<ListNode>, ghost w: set<ListNode>, ghost k: nat)
    requires Distinct(t) && Ring(Kept(t, w)) && 0 < k < |Kept(t, w)| && Kept(t, w)[k] == n
    modifies t
    ensures Ring(Kept(t, w + {n}))
  {
    KeptCut(t, w, k);
    ghost var r := Kept(t, w);
    assert n.next == After(r, k) && n.prev == Before(r, k);
    Del(n, false, r, k);
  }

  lemma {:induction false} FlatVisited(s: seq<ListNode>, plan: seq<seq<ListNode>>, k: nat)
    requires PlanOk(s, plan) && k <= |plan|
    ensures forall i :: 0 <= i < |Flat(plan[..k])| ==> Flat(plan[..k])[i] in s[..k]
  {
    if k > 0 {
      FlatVisited(s, plan, k - 1);
      FlatStep(plan, k - 1);
      var f := Flat(plan[..k - 1]);
      forall i | 0 <= i < |Flat(plan[..k])| ensures Flat(plan[..k])[i] in s[..k] {
        if i < |f| {
          assert f[i] in s[..k - 1];
        } else {
          assert Flat(plan[..k])[i] == plan[k - 1][i - |f|];
        }
      }
    }
  }

  lemma FlatStep(plan: seq<seq<ListNode>>, k: nat)
    requires k < |plan|
    ensures Flat(plan[..k + 1]) == Flat(plan[..k]) + plan[k]
  {
    assert plan[..k + 1][..k] == plan[..k];
  }

  lemma {:induction false} FlatPrefix(plan: seq<seq<ListNode>>, k: nat, n: nat)
    requires k <= n <= |plan| && Distinct(Flat(plan[..n]))
    ensures Distinct(Flat(plan[..k]))
    decreases n - k
  {
    if k < n {
      FlatStep(plan, n - 1);
      var a := Flat(plan[..n - 1]);
      assert forall i :: 0 <= i < |a| ==> a[i] == Flat(plan[..n])[i];
      FlatPrefix(plan, k, n - 1);
    }
  }

  /** After `k` rounds only visited entries are gone. */
  lemma GoneBefore(h: ListNode, s: seq<ListNode>, plan: seq<seq<ListNode>>, k: nat)
    requires PlanOk(s, plan) && Distinct([h] + s) && k <= |s|
    ensures var t := [h] + s; t[0] !in Nodes(Flat(plan[..k])) && forall i :: k < i < |t| ==> t[i] !in Nodes(Flat(plan[..k]))
  {
    FlatVisited(s, plan, k);
    var t, f := [h] + s, Flat(plan[..k]);
    forall x, i | x in f && (i == 0 || k < i < |t|) ensures t[i] != x {
      var j :| 0 <= j < |f| && f[j] == x;
      assert f[j] in s[..k];
      var m :| 0 <= m < k && s[m] == x;
      assert t[m + 1] == x;
    }
  }

  lemma StartRound(h: ListNode, s: seq<ListNode>, plan: seq<seq<ListNode>>)
    requires Ring([h] + s) && PlanOk(s, plan)
    ensures var t := [h] + s;
      && Distinct(t) && Kept(t, {}) == t && Nodes(Flat(plan[..0])) == {} && |plan| == |s| && h.next == After(t, 0)
      && (After(t, 0) != h ==> |s| > 0 && After(t, 0).next == After(t, 1)) && After(t, 0).next != null
  {
    var t := [h] + s;
    KeptAll(t, {});
    assert t[0] == h;
    if |s| > 0 {
      assert t[1].next == After(t, 1);
    }
  }

  lemma PlanRound(h: ListNode, s: seq<ListNode>, plan: seq<seq<ListNode>>, k: nat)
    requires PlanOk(s, plan) && Distinct([h] + s) && k < |s|
    ensures Distinct(plan[k]) && ([h] + s)[0] !in Nodes(Flat(plan[..k]))
    ensures forall i :: 0 <= i < |plan[k]| ==> plan[k][i] in ([h] + s)[1..] && plan[k][i] !in Nodes(Flat(plan[..k]))
    ensures Nodes(Flat(plan[..k + 1])) == Nodes(Flat(plan[..k])) + Nodes(plan[k]) && s[..k + 1] == s[..k] + [s[k]]
  {
    hide Distinct;
    GoneBefore(h, s, plan, k);
    assert plan[..|plan|] == plan;
    FlatPrefix(plan, k + 1, |plan|);
    FlatStep(plan, k);
    assert ([h] + s)[1..] == s;
    DistinctParts(Flat(plan[..k]), plan[k]);
  }

  lemma DistinctParts(a: seq<ListNode>, b: seq<ListNode>)
    requires Distinct(a + b)
    ensures Distinct(b) && Nodes(a + b) == Nodes(a) + Nodes(b)
    ensures forall i :: 0 <= i < |b| ==> b[i] !in a
  {
    var f := a + b;
    assert forall i :: 0 <= i < |b| ==> f[|a| + i] == b[i];
    forall i | 0 <= i < |b| ensures b[i] !in a {
      assert forall j :: 0 <= j < |a| ==> f[j] == a[j];
    }
  }

  /** The node reached after `k` rounds leads to the entry behind it. */
  lemma NextRound(h: ListNode, s: seq<ListNode>, plan: seq<seq<ListNode>>, k: nat)
    requires PlanOk(s, plan) && Distinct([h] + s) && k <= |s| && Ring(Kept([h] + s, Nodes(Flat(plan[..k]))))
    ensures k < |s| ==> After([h] + s, k).next == After([h] + s, k + 1)
  {
    if k < |s| {
      GoneBefore(h, s, plan, k);
      NextKept([h] + s, Nodes(Flat(plan[..k])), k + 1);
    }
  }

  /** Visit the entries, deleting any of those visited on the way: each entry is visited once, in order, and
      what was not deleted is left in the old order. */
  method ForEachSafe(h: ListNode, plan: seq<seq<ListNode>>, ghost s: seq<ListNode>) returns (visited: seq<ListNode>)
    requires Ring([h] + s) && PlanOk(s, plan)
    modifies [h] + s
    ensures visited == s && Ring([h] + Kept(s, Nodes(Flat(plan))))
  {
    hide Ring, Kept, PlanOk, Flat, Distinct;
    ghost var t, gone: set<ListNode> := [h] + s, {};
    StartRound(h, s, plan);
    visited := [];
    var k := 0;
    var i: ListNode := h.next;
    var nxt := i.next;
    while i != h
      invariant k <= |s| && visited == s[..k] && i == After(t, k) && gone == Nodes(Flat(plan[..k])) && Ring(Kept(t, gone))
      invariant i != h ==> k < |s| && nxt == After(t, k + 1)
      decreases |s| - k
    {
      visited := visited + [i];
      PlanRound(h, s, plan, k);
      DeleteAll(plan[k], t, gone);
      gone := gone + Nodes(plan[k]);
      i := nxt;
      nxt := i.next;
      k := k + 1;
      NextRound(h, s, plan, k);
    }
    LastRound(h, s, plan, k);
  }

  lemma LastRound(h: ListNode, s: seq<ListNode>, plan: seq<seq<ListNode>>, k: nat)
    requires PlanOk(s, plan) && Distinct([h] + s) && k <= |s| && After([h] + s, k) == h
    ensures k == |s| && plan[..k] == plan && s[..k] == s
    ensures Kept([h] + s, Nodes(Flat(plan))) == [h] + Kept(s, Nodes(Flat(plan)))
  {
    GoneBefore(h, s, plan, |s|);
    assert plan[..|s|] == plan;
    KeptStep([h] + s, Nodes(Flat(plan)));
    assert ([h] + s)[1..] == s;
  }
}
