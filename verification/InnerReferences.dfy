/**
 Freeing a chunk all of whose references come from below it: one call releases the whole subtree.
 */
module InnerReferences {
  import opened Seqs
  import opened ChildLists
  import opened RefLists
  import opened Forests
  import opened FreeRounds
  import opened FreeTheorem
  import opened FreeResults
  import opened Acyclicity
  import opened StaleReads
  import opened SafeFrees
  import opened TallocCalls

  /** Nothing below `p` is referenced, refuses or is being emptied. */
  ghost predicate Bare(f: Forest, p: Addr) {
    && (forall x :: x in Live(f) && x != p && Above(f.tree, p, x) ==>
          x in f.refs.list && f.refs.list[x] == [] && x in f.dtor && f.dtor[x] != Refuses)
    && (forall x :: x in f.tree.out && x != p ==> !Above(f.tree, p, x))
  }

  /** Exactly the chunks in `w` are gone. */
  ghost predicate JustGone(f: Forest, g: Forest, w: set<Addr>) {
    g.tree.up == f.tree.up - w && Live(g) == Live(f) - w
  }

  /** A way up that avoids the gone chunks is still there. */
  lemma {:induction false} AboveStill(f: Forest, g: Forest, c: Addr, p: Addr, x: Addr, n: nat)
    requires JustGone(f, g, Subtree(f, c)) && f.tree.up.Keys == Live(f) && NULL !in f.tree.up && c != NULL
    requires UpN(f.tree, x, n) == p && p != NULL && !Above(f.tree, c, x)
    ensures Above(g.tree, p, x) && UpN(g.tree, x, n) == p
    decreases n
  {
    if n == 0 {
      assert UpN(g.tree, x, 0) == x == UpN(f.tree, x, 0);
    } else {
      var y := UpN(f.tree, x, n - 1);
      assert y in f.tree.up;
      AboveStill(f, g, c, y, x, n - 1);
      if Above(f.tree, c, y) {
        assert Above(f.tree, y, x);
        AboveTransitive(f.tree, c, y, x);
      }
      assert y in g.tree.up && UpN(g.tree, x, n) == g.tree.up[y];
    }
  }

  /** After child `c` and all below it went, the rest of the subtree of `p` is as it was. */
  lemma RestOfSubtree(f: Forest, g: Forest, p: Addr, c: Addr)
    requires Inv(f) && Inv(g) && Shrinks(f, g) && JustGone(f, g, Subtree(f, c)) && Bare(f, p)
    requires p in Live(f) && c in f.tree.up && f.tree.up[c] == p && !Above(f.tree, c, p)
    ensures Bare(g, p) && Subtree(f, p) == Subtree(f, c) + Subtree(g, p)
  {
    hide Inv, Above, Shrinks;
    KeysAgree(f);
    forall x | Above(g.tree, p, x) ensures Above(f.tree, p, x) {
      AboveLess(f.tree, g.tree, Subtree(f, c), p, x);
    }
    forall x | x in Live(f) && Above(f.tree, c, x) ensures Above(f.tree, p, x) {
      ChildBelow(f.tree, p, c, x);
    }
    forall x | x in Live(f) && Above(f.tree, p, x) && !Above(f.tree, c, x) ensures Above(g.tree, p, x) {
      StillBelow(f, g, c, p, x);
    }
    StillBare(f, g, p);
  }

  lemma StillBare(f: Forest, g: Forest, p: Addr)
    requires Inv(g) && Shrinks(f, g) && Bare(f, p) && forall x :: Above(g.tree, p, x) ==> Above(f.tree, p, x)
    ensures Bare(g, p)
  {
    KeysAgree(g);
    hide Inv, Above;
  }

  lemma ChildBelow(t: Tree, p: Addr, c: Addr, x: Addr)
    requires c in t.up && t.up[c] == p && Above(t, c, x)
    ensures Above(t, p, x)
  {
    var n: nat :| UpN(t, x, n) == c;
    assert UpN(t, x, n + 1) == p;
  }

  lemma StillBelow(f: Forest, g: Forest, c: Addr, p: Addr, x: Addr)
    requires JustGone(f, g, Subtree(f, c)) && f.tree.up.Keys == Live(f) && NULL !in f.tree.up && c != NULL
    requires Above(f.tree, p, x) && p != NULL && !Above(f.tree, c, x)
    ensures Above(g.tree, p, x)
  {
    var n: nat :| UpN(f.tree, x, n) == p;
    AboveStill(f, g, c, p, x, n);
  }

  // ------------------------------------------------------------------ without references

  lemma {:induction false} SameUp(t: Tree, t': Tree, x: Addr, n: nat)
    requires t'.up == t.up
    ensures UpN(t', x, n) == UpN(t, x, n)
  {
    if n > 0 {
      SameUp(t, t', x, n - 1);
    } else {
      assert UpN(t', x, 0) == x == UpN(t, x, 0);
    }
  }

  lemma SameAbove(t: Tree, t': Tree)
    requires t'.up == t.up
    ensures forall p, x :: Above(t', p, x) <==> Above(t, p, x)
  {
    forall x, n: nat ensures UpN(t', x, n) == UpN(t, x, n) {
      SameUp(t, t', x, n);
    }
  }

  lemma EmptyingBare(f: Forest, p: Addr)
    requires Inv(f) && p in Live(f) && Bare(f, p)
    ensures p in f.tree.up && p in f.dtor && (p in f.refs.target ==> f.refs.target[p] in f.refs.list)
    ensures Bare(Emptying(f, p), p) && Subtree(Emptying(f, p), p) == Subtree(f, p)
  {
    EmptyingFacts(f, p);
    SameAbove(f.tree, Emptying(f, p).tree);
    hide Inv, Above, Emptying;
  }

  lemma AtChild(f: Forest, p: Addr, c: Addr, rank: map<Addr, int>)
    requires Emptied(f, p, rank) && Bare(f, p) && HeadChild(f, p, c)
    ensures c in Live(f) && c in f.tree.up && f.tree.up[c] == p && c !in f.tree.out && c != f.nullCtx && c in f.refs.list && c in f.dtor
    ensures Bare(f, c) && !Above(f.tree, c, p) && f.refs.list[c] == [] && f.dtor[c] != Refuses && Ranked(f, rank, c)
  {
    HolderOk(f, p, c, rank);
    ChildRank(f, p, c, rank);
    RankedAny(f, rank, c);
    KeysAgree(f);
    AboveEnds(f.tree, c);
    if Above(f.tree, c, p) {
      StrictlyAbove(f, c, p, rank);
    }
    hide Inv, Ranked, Above;
    forall x | Above(f.tree, c, x) ensures Above(f.tree, p, x) {
      ChildBelow(f.tree, p, c, x);
    }
  }

  /** `p` has no children, not even one that is being emptied. */
  ghost predicate Childless(f: Forest, p: Addr) {
    p in f.tree.kids && f.tree.kids[p] == [] && forall y :: y in f.tree.out && y in f.tree.up && y != p ==> f.tree.up[y] != p
  }

  lemma NothingBelow(f: Forest, p: Addr)
    requires Inv(f) && p in Live(f) && Childless(f, p)
    ensures Subtree(f, p) == {p}
  {
    KeysAgree(f);
    AboveEnds(f.tree, p);
    hide Inv, TreeInv;
    forall x | x in Live(f) && Above(f.tree, p, x) ensures x == p {
      var n: nat :| UpN(f.tree, x, n) == p;
      if x != p {
        NeverUp(f, p, x, n);
      }
    }
  }

  lemma {:induction false} NeverUp(f: Forest, p: Addr, x: Addr, n: nat)
    requires Inv(f) && Childless(f, p) && p != NULL && x != p
    ensures UpN(f.tree, x, n) != p
    decreases n
  {
    if n > 0 {
      NeverUp(f, p, x, n - 1);
      var y := UpN(f.tree, x, n - 1);
      if y in f.tree.up {
        assert UpOk(f.tree, y);
      }
    } else {
      assert UpN(f.tree, x, 0) == x;
    }
  }

  lemma BareChildless(f: Forest, p: Addr)
    requires Bare(f, p) && p in f.tree.kids && f.tree.kids[p] == []
    ensures Childless(f, p)
  {
    forall y | y in f.tree.out && y in f.tree.up && y != p ensures f.tree.up[y] != p {
      ParentAbove(f.tree, y);
    }
  }

  lemma ParentAbove(t: Tree, y: Addr)
    requires y in t.up
    ensures Above(t, t.up[y], y)
  {
    assert UpN(t, y, 0) == y;
    assert UpN(t, y, 1) == t.up[y];
  }

  lemma {:induction false} WholeDrain(f: Forest, p: Addr, rank: map<Addr, int>)
    requires Emptied(f, p, rank) && Bare(f, p)
    ensures JustGone(f, Drain(f, p, rank), Subtree(f, p) - {p})
    decreases Mobile(f), 1, |f.tree.kids[p]|
  {
    hide Inv, Ranked, Above, Drain, Free, Shrinks, DrainRound, Bare, Subtree;
    if f.tree.kids[p] == [] {
      EmptiedParts(f, p, rank);
      DrainNothing(f, p, rank);
      BareChildless(f, p);
      NothingBelow(f, p);
      assert f.tree.up - {} == f.tree.up;
    } else {
      var c := f.tree.kids[p][0];
      AtChild(f, p, c, rank);
      RoundAccepted(f, p, c, rank);
      WholeFree(f, c, rank);
      DrainStep(f, p, rank);
      var g := NextRound(f, p, rank);
      RestOfSubtree(f, g, p, c);
      WholeDrain(g, p, rank);
      assert p !in Subtree(f, c) by { NotBelow(f, c, p); }
      GoneTwice(f, g, Drain(g, p, rank), Subtree(f, c), Subtree(g, p) - {p});
      assert Subtree(f, p) - {p} == Subtree(f, c) + (Subtree(g, p) - {p});
    }
  }

  lemma NotBelow(f: Forest, c: Addr, p: Addr)
    requires !Above(f.tree, c, p)
    ensures p !in Subtree(f, c)
  {
  }

  lemma EmptiedParts(f: Forest, p: Addr, rank: map<Addr, int>)
    requires Emptied(f, p, rank)
    ensures Inv(f) && p in Live(f) && p in f.tree.out
  {
  }

  lemma GoneTwice(f: Forest, g: Forest, h: Forest, v: set<Addr>, w: set<Addr>)
    requires JustGone(f, g, v) && JustGone(g, h, w)
    ensures JustGone(f, h, v + w)
  {
  }

  lemma {:induction false} WholeFree(f: Forest, p: Addr, rank: map<Addr, int>)
    requires Inv(f) && p in Live(f) && p != f.nullCtx && p !in f.tree.out && Ranked(f, rank, NULL) && Ranked(f, rank, p)
    requires Bare(f, p) && p in f.refs.list && f.refs.list[p] == [] && p in f.dtor && f.dtor[p] != Refuses
    ensures Free(f, p, rank).1 == 0 && JustGone(f, Free(f, p, rank).0, Subtree(f, p))
    decreases Mobile(f), 0, 0
  {
    hide Inv, Ranked, Above, Drain, Free, Shrinks, Bare, Emptying, Subtree;
    EmptyingBare(f, p);
    EmptyingFacts(f, p);
    FreeStep(f, p, rank);
    var e := Emptying(f, p);
    WholeDrain(e, p, rank);
    assert p in Subtree(f, p) by { SubtreeClosed(f, p); }
    GoneToo(e, Drain(e, p, rank), p, Subtree(f, p));
  }

  lemma GoneToo(f: Forest, g: Forest, p: Addr, w: set<Addr>)
    requires JustGone(f, g, w - {p}) && p in w
    ensures JustGone(f, Released(g, p), w)
  {
  }

  // ------------------------------------------------------------------ with references from below

  /** Every reference to `p` hangs below `p`. */
  ghost predicate OnlyInner(f: Forest, p: Addr)
    requires p in f.refs.list
  {
    forall h :: h in f.refs.list[p] ==> Above(f.tree, p, h)
  }

  /** The newest of these references goes: the rest is as it was. */
  lemma OneInnerLess(f: Forest, p: Addr, h: Addr)
    requires Inv(f) && f.tree.out == {} && p in Live(f) && p in f.refs.list && f.refs.list[p] != [] && h == f.refs.list[p][0]
    requires p !in f.refs.target && Bare(f, p) && OnlyInner(f, p)
    ensures h in f.refs.target && h in f.dtor && h in f.tree.up && f.refs.target[h] in f.refs.list
    ensures var g := HandleFreed(f, h);
      && Inv(g) && g.tree.out == {} && p in Live(g) && p !in g.refs.target && p in g.refs.list && g.refs.list[p] == f.refs.list[p][1..]
      && Bare(g, p) && OnlyInner(g, p) && Shrinks(f, g) && JustGone(f, g, {h}) && Subtree(f, p) == Subtree(g, p) + {h}
  {
    hide Inv, Above, HandleFreed, Shrinks;
    InnerHandle(f, p, h);
    KeysAgree(f);
    var g := HandleFreed(f, h);
    forall x | Above(g.tree, p, x) ensures Above(f.tree, p, x) {
      AboveLess(f.tree, g.tree, {h}, p, x);
    }
    forall x | x in Live(f) && x != h && Above(f.tree, p, x) ensures Above(g.tree, p, x) {
      NotUnder(f, h, x);
      StillBelow(f, g, h, p, x);
    }
    StillBare(f, g, p);
    InnerLeft(f, g, p, h);
  }

  lemma InnerLeft(f: Forest, g: Forest, p: Addr, h: Addr)
    requires Inv(f) && p in f.refs.list && f.refs.list[p] != [] && h == f.refs.list[p][0] && OnlyInner(f, p)
    requires p in g.refs.list && g.refs.list[p] == f.refs.list[p][1..]
    requires forall x :: x in Live(f) && x != h && Above(f.tree, p, x) ==> Above(g.tree, p, x)
    ensures OnlyInner(g, p)
  {
    assert ListOk(f.refs, p);
    NoDupTail(f.refs.list[p]);
    forall k | k in f.refs.list[p] ensures k in Live(f) {
      HandleFacts(f, k);
    }
    hide Inv, Above;
  }

  lemma NotUnder(f: Forest, h: Addr, x: Addr)
    requires Subtree(f, h) == {h} && x in Live(f) && x != h
    ensures !Above(f.tree, h, x)
  {
    assert x !in Subtree(f, h);
  }

  lemma InnerHandle(f: Forest, p: Addr, h: Addr)
    requires Inv(f) && f.tree.out == {} && p in Live(f) && p in f.refs.list && f.refs.list[p] != [] && h == f.refs.list[p][0]
    requires p !in f.refs.target
    ensures h in f.refs.target && h in f.dtor && h in f.tree.up && f.refs.target[h] in f.refs.list && h in f.refs.list[p] && h in Live(f)
    ensures Subtree(f, h) == {h}
    ensures var g := HandleFreed(f, h);
      && Inv(g) && Shrinks(f, g) && g.tree.out == {} && p in Live(g) && p !in g.refs.target && p in g.refs.list
      && g.refs.list[p] == f.refs.list[p][1..] && JustGone(f, g, {h})
  {
    assert ListOk(f.refs, p) && h in f.refs.list[p];
    HandleFacts(f, h);
    DropHead(f.refs.list[p]);
    HandleFreedOk(f, h);
    NothingBelow(f, h);
    assert HandleOk(f, h);
    hide TreeInv, RefsInv;
  }

  /** When every reference to `p` comes from below `p` and nothing else there is referenced or refuses, one
      free succeeds and releases the whole subtree of `p`, and nothing else. */
  lemma {:induction false} FreesWholeSubtree(f: Forest, p: Addr, rank: map<Addr, int>)
    requires Inv(f) && f.tree.out == {} && p in Live(f) && p != f.nullCtx && p !in f.refs.target && Ranked(f, rank, p)
    requires p in f.refs.list && OnlyInner(f, p) && Bare(f, p) && p in f.dtor && f.dtor[p] != Refuses
    ensures Free(f, p, rank).1 == 0 && JustGone(f, Free(f, p, rank).0, Subtree(f, p))
    decreases |f.refs.list[p]|
  {
    hide Inv, Ranked, Above, Drain, Shrinks, Bare, Subtree, HandleFreed, OnlyInner, Free;
    if f.refs.list[p] == [] {
      UnreferencedRanked(f, p, rank);
      WholeFree(f, p, rank);
    } else {
      var h := f.refs.list[p][0];
      OneInnerLess(f, p, h);
      IsInner(f, p, h);
      FreeLosesHandle(f, p, rank);
      FreeRetriedIs(f, p, h, rank);
      DtorStays(f, HandleFreed(f, h), p);
      FreesWholeSubtree(HandleFreed(f, h), p, rank);
      GoneTwice(f, HandleFreed(f, h), Free(HandleFreed(f, h), p, rank).0, {h}, Subtree(HandleFreed(f, h), p));
      assert {h} + Subtree(HandleFreed(f, h), p) == Subtree(f, p);
    }
  }

  lemma IsInner(f: Forest, p: Addr, h: Addr)
    requires p in f.refs.list && OnlyInner(f, p) && f.refs.list[p] != [] && h == f.refs.list[p][0]
    ensures Above(f.tree, p, h)
  {
  }

  lemma DtorStays(f: Forest, g: Forest, p: Addr)
    requires Inv(g) && Shrinks(f, g) && p in Live(g) && p in f.dtor
    ensures p in g.dtor && g.dtor[p] == f.dtor[p] && g.nullCtx == f.nullCtx
  {
  }

  lemma UnreferencedRanked(f: Forest, p: Addr, rank: map<Addr, int>)
    requires Inv(f) && Ranked(f, rank, p) && p in f.refs.list && f.refs.list[p] == []
    ensures Ranked(f, rank, NULL)
  {
    forall h | h in f.refs.target ensures f.refs.target[h] != p {
      assert h in f.refs.list[f.refs.target[h]];
    }
    hide TreeInv, HandleOk;
  }

  /** A free that starts by dropping a reference from below goes on with the rest. */
  lemma FreeRetriedIs(f: Forest, p: Addr, h: Addr, rank: map<Addr, int>)
    requires Inv(f) && p in Live(f) && p != f.nullCtx && Ranked(f, rank, p) && f.refs.list[p] != [] && h == f.refs.list[p][0]
    requires Above(f.tree, p, h)
    ensures h in f.refs.target && f.refs.target[h] in f.refs.list && h in f.dtor && h in f.tree.up
    ensures var g := HandleFreed(f, h);
      && Inv(g) && p in Live(g) && p != g.nullCtx && Ranked(g, rank, p) && Free(f, p, rank) == Free(g, p, rank)
  {
    hide Ranked, Above, HandleFreed, Drain;
    FreeLosesHandle(f, p, rank);
  }

  /** Such a free walks through live chunks only. */
  lemma WholeSubtreeIsSafe(f: Forest, p: Addr, rank: map<Addr, int>)
    requires Inv(f) && f.tree.out == {} && p in Live(f) && p != f.nullCtx && p !in f.refs.target && Ranked(f, rank, p) && Bare(f, p)
    ensures SafeToFree(f, p)
  {
    hide Inv, Ranked, Above, SafeToFree, Predecessor;
    var y := Predecessor(f.tree, p);
    if y in f.refs.target {
      TargetReferenced(f, y);
    }
    ShelteredIsSafe(f, p, rank);
  }

  lemma TargetReferenced(f: Forest, h: Addr)
    requires Inv(f) && h in f.refs.target
    ensures f.refs.target[h] in Live(f) && f.refs.target[h] in f.refs.list && f.refs.list[f.refs.target[h]] != []
  {
    HandleFacts(f, h);
    assert h in f.refs.list[f.refs.target[h]];
  }
}
