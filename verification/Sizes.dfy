/** Sums of chunk sizes, and what keeps them. */
module Sizes {
  import opened Seqs
  import opened ChildLists
  import opened Forests
  import opened Siblings
  import opened Walks
  import opened Traversal
  import opened Acyclicity

  function SizeOf(size: map<Addr, nat>, s: seq<Addr>): nat {
    if s == [] then 0 else (if s[0] in size then size[s[0]] else 0) + SizeOf(size, s[1..])
  }

  lemma {:induction false} SizeOfConcat(size: map<Addr, nat>, a: seq<Addr>, b: seq<Addr>)
    ensures SizeOf(size, a + b) == SizeOf(size, a) + SizeOf(size, b)
  {
    if a == [] {
      assert a + b == b;
    } else {
      assert (a + b)[1..] == a[1..] + b;
      SizeOfConcat(size, a[1..], b);
    }
  }

  lemma {:induction false} SizeWithout(size: map<Addr, nat>, s: seq<Addr>, x: Addr)
    requires NoDup(s) && x in s
    ensures SizeOf(size, s) == (if x in size then size[x] else 0) + SizeOf(size, Drop(s, {x}))
  {
    NoDupTail(s);
    if s[0] == x {
      DropHead(s);
    } else {
      SizeWithout(size, s[1..], x);
      assert ([s[0]] + Drop(s[1..], {x}))[1..] == Drop(s[1..], {x});
    }
  }

  /** The sum depends only on which chunks are counted. */
  lemma {:induction false} SameSum(size: map<Addr, nat>, s: seq<Addr>, r: seq<Addr>)
    requires NoDup(s) && NoDup(r) && forall x :: x in s <==> x in r
    ensures SizeOf(size, s) == SizeOf(size, r) && |s| == |r|
    decreases |s|
  {
    if s == [] {
      HeadIn(r);
    } else {
      var x := s[0];
      NoDupTail(s);
      SizeWithout(size, r, x);
      DropNoDup(r, {x});
      forall y ensures y in s[1..] <==> y in Drop(r, {x}) {
        if y in s {
          assert s == [x] + s[1..];
        }
      }
      SameSum(size, s[1..], Drop(r, {x}));
      var i :| 0 <= i < |r| && r[i] == x;
      DropAt(r, i);
    }
  }

  /** One child of `p` further. */
  lemma NextChild(l: Links, f: Forest, p: Addr, i: nat, w: set<Addr>, size: map<Addr, nat>)
    requires Inv(f) && SibRep(l, f.tree) && p in Live(f) && i < |f.tree.kids[p]|
    ensures var s := f.tree.kids[p];
      && s[i] in Live(f) && s[i] != NULL && s[i] in l.next && l.next[s[i]] == At(s, i + 1)
      && Visits(f.tree, s[i..], w) == Visit(f.tree, s[i], w) + Visits(f.tree, s[i + 1..], w)
      && SizeOf(size, Visits(f.tree, s[i..], w)) == SizeOf(size, Visit(f.tree, s[i], w)) + SizeOf(size, Visits(f.tree, s[i + 1..], w))
  {
    var s := f.tree.kids[p];
    ListOf(l, f.tree, p);
    KeysAgree(f);
    assert KidsOk(f.tree, p) && s[i] in s;
    assert s[i..][0] == s[i] && s[i..][1..] == s[i + 1..];
    hide Inv, SibRep, Visit;
    SizeOfConcat(size, Visit(f.tree, s[i], w), Visits(f.tree, s[i + 1..], w));
  }

  lemma VisitStep(t: Tree, p: Addr, w: set<Addr>, size: map<Addr, nat>)
    requires p in t.kids && p in size
    ensures p in w ==> Visit(t, p, w) == []
    ensures p !in w ==> SizeOf(size, Visit(t, p, w)) == size[p] + SizeOf(size, Visits(t, t.kids[p], w + {p}))
    ensures p !in w ==> |Visit(t, p, w)| == 1 + |Visits(t, t.kids[p], w + {p})|
  {
    assert t.kids.Keys - (w + {p}) == (t.kids.Keys - w) - {p};
    SizeOfConcat(size, [p], Visits(t, t.kids[p], w + {p}));
  }

  lemma NoMore(l: Links, f: Forest, p: Addr, i: nat, w: set<Addr>, size: map<Addr, nat>)
    requires Inv(f) && SibRep(l, f.tree) && p in Live(f) && i <= |f.tree.kids[p]| && At(f.tree.kids[p], i) == NULL
    ensures Visits(f.tree, f.tree.kids[p][i..], w) == []
  {
    if i < |f.tree.kids[p]| {
      NextChild(l, f, p, i, w, size);
    }
  }

  // ------------------------------------------------------------------ the whole forest

  /** `roots` lists the top-level chunks, each once. */
  ghost predicate Roots(f: Forest, roots: seq<Addr>) {
    NoDup(roots) && forall r :: r in roots <==> r in f.tree.up && f.tree.up[r] == NULL
  }

  lemma IsHung(f: Forest)
    requires Inv(f) && f.tree.out == {}
    ensures Hung(f.tree)
  {
    KeysAgree(f);
  }

  /** `rank` grows from parents to children. */
  ghost predicate Grows(t: Tree, rank: map<Addr, int>) {
    forall a :: a in t.up && t.up[a] != NULL ==> Rk(rank, t.up[a]) < Rk(rank, a)
  }

  /** No chunk is above its own parent. */
  ghost predicate TreeAcyclic(t: Tree) {
    exists rank :: Grows(t, rank)
  }

  lemma AcyclicTree(f: Forest)
    requires Acyclic(f)
    ensures TreeAcyclic(f.tree)
  {
    var rank :| Ranked(f, rank, NULL);
    assert Grows(f.tree, rank);
  }

  /** The way to the top ends at a top-level chunk. */
  lemma {:induction false} RootOf(f: Forest, x: Addr, rank: map<Addr, int>) returns (r: Addr, n: nat)
    requires Inv(f) && f.tree.out == {} && Grows(f.tree, rank) && x in Live(f)
    ensures r in f.tree.up && f.tree.up[r] == NULL && Under(f.tree, {}, r, x, n)
    decreases Rk(rank, x)
  {
    KeysAgree(f);
    UpLive(f, x);
    hide Inv, Grows;
    assert UpN(f.tree, x, 0) == x;
    if f.tree.up[x] == NULL {
      r, n := x, 0;
    } else {
      GrowsOnce(f.tree, x, rank);
      var m: nat;
      r, m := RootOf(f, f.tree.up[x], rank);
      n := m + 1;
      forall i | 0 <= i <= n ensures UpN(f.tree, x, i) in f.tree.kids {
        if i > 0 {
          UpShift(f.tree, x, i - 1);
        }
      }
      UpShift(f.tree, x, m);
    }
  }

  lemma GrowsOnce(t: Tree, x: Addr, rank: map<Addr, int>)
    requires Grows(t, rank) && x in t.up && t.up[x] != NULL
    ensures Rk(rank, t.up[x]) < Rk(rank, x)
  {
  }

  lemma RankFallsOnce(f: Forest, x: Addr, rank: map<Addr, int>)
    requires Ranked(f, rank, NULL) && x in f.tree.up && f.tree.up[x] != NULL
    ensures Rk(rank, f.tree.up[x]) < Rk(rank, x)
  {
  }

  /** Counting from all top-level chunks meets every chunk exactly once. */
  lemma RootsVisitAll(f: Forest, roots: seq<Addr>)
    requires Inv(f) && f.tree.out == {} && TreeAcyclic(f.tree) && Roots(f, roots)
    ensures NoDup(Visits(f.tree, roots, {})) && forall x :: x in Visits(f.tree, roots, {}) <==> x in Live(f)
  {
    hide Inv, Grows, Visit, Visits, Hung, Under;
    IsHung(f);
    KeysAgree(f);
    var t := f.tree;
    forall i | 0 <= i < |roots| ensures roots[i] in t.up && t.up[roots[i]] == NULL {
      assert roots[i] in roots;
    }
    VisitsOnce(t, NULL, roots, {});
    var rank :| Grows(t, rank);
    forall x ensures x in Visits(t, roots, {}) <==> x in Live(f) {
      if x in Visits(t, roots, {}) {
        var i := VisitsFrom(t, roots, {}, x);
        var n := VisitedUnder(t, roots[i], {}, x);
        UnderLive(t, {}, roots[i], x, n);
      }
      if x in Live(f) {
        var r, n := RootOf(f, x, rank);
        UnderVisited(t, r, {}, x, n);
        var i :| 0 <= i < |roots| && roots[i] == r;
        VisitsAll(t, roots, {}, i, x);
      }
    }
  }

  lemma UnderLive(t: Tree, w: set<Addr>, p: Addr, x: Addr, n: nat)
    requires Under(t, w, p, x, n)
    ensures x in t.kids
  {
    assert UpN(t, x, 0) == x;
  }

  /** Moving chunks about keeps the total size over all top-level chunks. */
  lemma TotalConserved(f: Forest, g: Forest, roots: seq<Addr>, roots': seq<Addr>, size: map<Addr, nat>)
    requires Inv(f) && f.tree.out == {} && TreeAcyclic(f.tree) && Roots(f, roots)
    requires Inv(g) && g.tree.out == {} && TreeAcyclic(g.tree) && Roots(g, roots') && Live(g) == Live(f)
    ensures SizeOf(size, Visits(f.tree, roots, {})) == SizeOf(size, Visits(g.tree, roots', {}))
    ensures |Visits(f.tree, roots, {})| == |Visits(g.tree, roots', {})|
  {
    hide Inv, TreeAcyclic, Visits;
    RootsVisitAll(f, roots);
    RootsVisitAll(g, roots');
    SameSum(size, Visits(f.tree, roots, {}), Visits(g.tree, roots', {}));
  }

  /** The sum over all top-level chunks is the sum of what is counted below each of them. */
  lemma {:induction false} SumOfRoots(size: map<Addr, nat>, t: Tree, roots: seq<Addr>)
    ensures SizeOf(size, Visits(t, roots, {})) == SumBelow(size, t, roots)
  {
    if roots != [] {
      SumOfRoots(size, t, roots[1..]);
      SizeOfConcat(size, Visit(t, roots[0], {}), Visits(t, roots[1..], {}));
    }
  }

  function SumBelow(size: map<Addr, nat>, t: Tree, roots: seq<Addr>): nat {
    if roots == [] then 0 else SizeOf(size, Visit(t, roots[0], {})) + SumBelow(size, t, roots[1..])
  }
}
