/**
 What a free does to the order of the children of a survivor: the children that survive keep
 their order, and adopted chunks are put in front.
 */
module ChildOrder {
  import opened Seqs
  import opened ChildLists
  import opened RefLists
  import opened Forests
  import opened FreeRounds

  ghost predicate GrownBy(f: Forest, g: Forest, a: Addr, pre: seq<Addr>)
    requires a in f.tree.kids && a in g.tree.kids
  {
    && g.tree.kids[a] == pre + Drop(f.tree.kids[a], Live(f) - Live(g))
    && forall c :: c in pre ==> c in f.tree.up && f.tree.up[c] != a
  }

  /** The children of `a`: those that survived, in the old order, behind the adopted ones. */
  ghost predicate Grown(f: Forest, g: Forest, a: Addr) {
    a in f.tree.kids && a in g.tree.kids && exists pre :: GrownBy(f, g, a, pre)
  }

  lemma GrownTransitive(f: Forest, g: Forest, h: Forest, a: Addr)
    requires Inv(f) && Inv(g) && Inv(h) && Shrinks(f, g) && Shrinks(g, h) && Grown(f, g, a) && Grown(g, h, a)
    ensures Grown(f, h, a)
  {
    hide Inv, Shrinks, Drop;
    LiveShrinks(f, g);
    LiveShrinks(g, h);
    var p1 :| GrownBy(f, g, a, p1);
    var p2 :| GrownBy(g, h, a, p2);
    var d1, d2 := Live(f) - Live(g), Live(g) - Live(h);
    assert d1 + d2 == Live(f) - Live(h);
    DropBehind(f.tree.kids[a], p1, p2, d1, d2);
    AllNew(f, g, h, a, p1, p2, d2);
    assert GrownBy(f, h, a, p2 + Drop(p1, d2));
  }

  lemma DropBehind(s: seq<Addr>, p1: seq<Addr>, p2: seq<Addr>, d1: set<Addr>, d2: set<Addr>)
    ensures p2 + Drop(p1 + Drop(s, d1), d2) == (p2 + Drop(p1, d2)) + Drop(s, d1 + d2)
  {
    DropConcat(p1, Drop(s, d1), d2);
    DropUnion(s, d1, d2);
  }

  lemma AllNew(f: Forest, g: Forest, h: Forest, a: Addr, p1: seq<Addr>, p2: seq<Addr>, d2: set<Addr>)
    requires Inv(f) && Inv(g) && Inv(h) && Shrinks(f, g) && Shrinks(g, h)
    requires a in f.tree.kids && a in g.tree.kids && a in h.tree.kids && GrownBy(f, g, a, p1) && GrownBy(g, h, a, p2)
    ensures forall c :: c in p2 + Drop(p1, d2) ==> c in f.tree.up && f.tree.up[c] != a
  {
    hide Inv, Shrinks;
    forall c | c in p2 + Drop(p1, d2) ensures c in f.tree.up && f.tree.up[c] != a {
      if c in p2 {
        NotTakenAway(f, g, h, a, p1, p2, c);
      }
    }
  }

  /** A child of `a` in `f` that survives is still one in `g`. */
  lemma NotTakenAway(f: Forest, g: Forest, h: Forest, a: Addr, p1: seq<Addr>, p2: seq<Addr>, c: Addr)
    requires Inv(f) && Inv(g) && Inv(h) && Shrinks(f, g) && Shrinks(g, h)
    requires a in f.tree.kids && a in g.tree.kids && a in h.tree.kids && GrownBy(f, g, a, p1) && GrownBy(g, h, a, p2) && c in p2
    ensures c in f.tree.up && f.tree.up[c] != a
  {
    assert c in h.tree.kids[a] && KidsOk(h.tree, a) && c !in h.tree.out;
    KeysAgree(f);
    KeysAgree(g);
    KeysAgree(h);
    assert c in f.tree.up && UpOk(f.tree, c) && KidsOk(g.tree, a) && a != NULL;
  }

  lemma SameGrown(f: Forest, g: Forest, a: Addr)
    requires a in f.tree.kids && a in g.tree.kids && Inv(f)
    requires g.tree.kids[a] == Drop(f.tree.kids[a], Live(f) - Live(g))
    ensures Grown(f, g, a)
  {
    assert g.tree.kids[a] == [] + Drop(f.tree.kids[a], Live(f) - Live(g));
    hide Inv;
    assert GrownBy(f, g, a, []);
  }

  lemma KidsLive(f: Forest, g: Forest, a: Addr)
    requires Inv(f) && a in f.tree.kids && Live(g) == Live(f)
    ensures Drop(f.tree.kids[a], Live(f) - Live(g)) == f.tree.kids[a]
  {
    DropNone(f.tree.kids[a], Live(f) - Live(g));
  }

  lemma HandleFreedKids(f: Forest, h: Addr, a: Addr)
    requires Inv(f) && h in f.refs.target && a in Live(f) && a != h
    ensures h in f.tree.up && h in f.dtor && f.refs.target[h] in f.refs.list
    ensures a in HandleFreed(f, h).tree.kids && HandleFreed(f, h).tree.kids[a] == Drop(f.tree.kids[a], {h})
  {
    hide RefsInv;
    assert HandleOk(f, h);
    HandleTarget(f, h);
    EmptyingKids(f, h, a);
  }

  lemma HandleTarget(f: Forest, h: Addr)
    requires Inv(f) && h in f.refs.target
    ensures f.refs.target[h] in f.refs.list
  {
  }

  lemma HandleFreedGrown(f: Forest, h: Addr, a: Addr)
    requires Inv(f) && h in f.refs.target && a in Live(f) && a != h
    ensures Grown(f, HandleFreed(f, h), a)
  {
    hide Inv, HandleFreed, Shrinks, OnlyHandlesGone, Grown;
    HandleFreedKids(f, h, a);
    HandleFreedOk(f, h);
    HandleLive(f, h);
    assert Live(f) - Live(HandleFreed(f, h)) == {h};
    SameGrown(f, HandleFreed(f, h), a);
  }

  lemma HandleLive(f: Forest, h: Addr)
    requires Inv(f) && h in f.refs.target
    ensures h in Live(f)
  {
    assert HandleOk(f, h);
  }

  lemma StolenGrown(f: Forest, p: Addr, q: Addr, c: Addr, a: Addr)
    requires Inv(f) && c in Live(f) && c in f.tree.up && f.tree.up[c] == p && c !in f.tree.out && c != f.nullCtx
    requires (q == NULL || (q in Live(f) && q !in f.refs.target)) && a in Live(f) && a != p
    requires f.nullCtx == NULL || f.nullCtx in f.tree.kids
    ensures Grown(f, Stolen(f, q, c), a)
  {
    hide Inv, Drop, TreeInv;
    StolenInv(f, q, c);
    KeysAgree(f);
    var q1 := if q == NULL then f.nullCtx else q;
    var g := Stolen(f, q, c);
    KidsLive(f, g, a);
    assert a != NULL;
    if c == q1 || a != q1 {
      assert GrownBy(f, g, a, []);
    } else {
      assert GrownBy(f, g, a, [c]);
    }
  }

  /** Before the loop and after it: taking `p` out of its list and releasing it. */
  lemma FreedGrown(f: Forest, p: Addr, g: Forest, a: Addr)
    requires Inv(f) && p in Live(f) && p !in f.tree.out && p in f.tree.up && p in f.dtor
    requires p in f.refs.target ==> f.refs.target[p] in f.refs.list
    requires Shrinks(Emptying(f, p), g) && p in Live(g) && a != p && Grown(Emptying(f, p), g, a)
    ensures Grown(f, Released(g, p), a)
  {
    hide Inv, Emptying;
    var e, r := Emptying(f, p), Released(g, p);
    EmptyingFacts(f, p);
    EmptyingKids(f, p, a) by { LiveShrinks(e, g); }
    var pre :| GrownBy(e, g, a, pre);
    var d := Live(e) - Live(g);
    DropUnion(f.tree.kids[a], {p}, d);
    assert {p} + d == Live(f) - Live(r);
    assert GrownBy(f, r, a, pre);
  }

  lemma EmptyingKids(f: Forest, p: Addr, a: Addr)
    requires Inv(f) && p in Live(f) && p in f.tree.up && p in f.dtor && p !in f.tree.out && a in Live(f)
    requires p in f.refs.target ==> f.refs.target[p] in f.refs.list
    ensures a in Emptying(f, p).tree.kids && Emptying(f, p).tree.kids[a] == Drop(f.tree.kids[a], {p})
  {
    hide RefsInv;
    if a != f.tree.up[p] {
      assert KidsOk(f.tree, a);
      forall i | 0 <= i < |f.tree.kids[a]| ensures f.tree.kids[a][i] !in {p} {
        assert f.tree.kids[a][i] in f.tree.kids[a];
      }
      DropNone(f.tree.kids[a], {p});
    }
  }

  lemma {:induction false} DrainGrows(f: Forest, p: Addr, rank: map<Addr, int>, a: Addr)
    requires Emptied(f, p, rank) && a in Live(Drain(f, p, rank)) && a != p
    ensures Grown(f, Drain(f, p, rank), a)
    decreases Mobile(f), 1, |f.tree.kids[p]|
  {
    hide Inv, Shrinks, Ranked, Drain, Free, NextRound, Grown;
    if f.tree.kids[p] == [] {
      DrainNothing(f, p, rank);
      StaysGrown(f, a);
    } else {
      DrainStep(f, p, rank);
      var g := NextRound(f, p, rank);
      var h := Drain(g, p, rank);
      LiveShrinks(g, h);
      RoundGrows(f, p, rank, a);
      DrainGrows(g, p, rank, a);
      GrownTransitive(f, g, h, a);
    }
  }

  lemma StaysGrown(f: Forest, a: Addr)
    requires Inv(f) && a in Live(f)
    ensures Grown(f, f, a)
  {
    KidsLive(f, f, a);
    SameGrown(f, f, a);
  }

  lemma LiveShrinks(f: Forest, g: Forest)
    requires Shrinks(f, g)
    ensures Live(g) <= Live(f)
  {
  }

  lemma {:induction false} RoundGrows(f: Forest, p: Addr, rank: map<Addr, int>, a: Addr)
    requires Emptied(f, p, rank) && f.tree.kids[p] != [] && a in Live(NextRound(f, p, rank)) && a != p
    ensures Grown(f, NextRound(f, p, rank), a)
    decreases Mobile(f), 1, 0
  {
    var c := f.tree.kids[p][0];
    HolderOk(f, p, c, rank);
    KeysAgree(f);
    hide Inv, Ranked, Drain, Free, DrainRound, Grown, Shrinks, HandleFreed, Stolen, Adopter, Holder;
    if c in f.refs.target {
      RoundHandle(f, p, c, rank);
      HandleFreedOk(f, c);
      HandleFreedGrown(f, c, a);
    } else if f.refs.list[c] != [] {
      RoundReferencedGrows(f, p, rank, a);
    } else if f.dtor[c] == Refuses {
      RoundRefusedGrows(f, p, rank, a);
    } else {
      RoundAccepted(f, p, c, rank);
      FreeGrows(f, c, rank, a);
    }
  }

  lemma RoundReferencedGrows(f: Forest, p: Addr, rank: map<Addr, int>, a: Addr)
    requires Emptied(f, p, rank) && f.tree.kids[p] != [] && a in Live(NextRound(f, p, rank)) && a != p
    requires var c := f.tree.kids[p][0]; c in f.refs.list && f.refs.list[c] != []
    ensures Grown(f, NextRound(f, p, rank), a)
  {
    var c := f.tree.kids[p][0];
    hide Inv, Ranked, Drain, Free, DrainRound, Grown, Shrinks, HandleFreed, Stolen, Adopter, Holder, OnlyHandlesGone;
    HolderOk(f, p, c, rank);
    RoundReferenced(f, p, c, rank);
    var h := f.refs.list[c][0];
    var f1 := HandleFreed(f, h);
    FreeLosesHandle(f, c, rank);
    HandleFreedOk(f, h);
    AdopterOk(f, p, c, rank, f1);
    var q := Adopter(f1, p, Holder(f, c));
    StolenInv(f1, q, c);
    StolenShrinks(f1, q, c);
    HandleFreedGrown(f, h, a);
    StolenGrown(f1, p, q, c, a);
    GrownTransitive(f, f1, Stolen(f1, q, c), a);
  }

  lemma RoundRefusedGrows(f: Forest, p: Addr, rank: map<Addr, int>, a: Addr)
    requires Emptied(f, p, rank) && f.tree.kids[p] != [] && a in Live(NextRound(f, p, rank)) && a != p
    requires var c := f.tree.kids[p][0];
      c in f.refs.list && f.refs.list[c] == [] && c in f.dtor && f.dtor[c] == Refuses && c !in f.refs.target
    ensures Grown(f, NextRound(f, p, rank), a)
  {
    var c := f.tree.kids[p][0];
    hide Inv, Ranked, Drain, Free, DrainRound, Grown, Shrinks, Stolen, Adopter;
    HolderOk(f, p, c, rank);
    RoundRefused(f, p, c, rank);
    RankedAny(f, rank, c);
    RefusedChild(f, p, c, rank);
    AdopterOk(f, p, c, rank, f);
    var q := Adopter(f, p, f.nullCtx);
    StolenInv(f, q, c);
    StolenGrown(f, p, q, c, a);
  }

  lemma RefusedChild(f: Forest, p: Addr, c: Addr, rank: map<Addr, int>)
    requires Emptied(f, p, rank) && HeadChild(f, p, c) && c in f.refs.list && f.refs.list[c] == []
    requires c in f.dtor && f.dtor[c] == Refuses && c !in f.refs.target && Ranked(f, rank, c)
    ensures RefusedRound(f, p, c, rank, f) && Holder(f, c) == f.nullCtx
  {
    ShrinksItself(f);
    hide Inv, Ranked, Shrinks;
  }

  lemma {:induction false} FreeGrows(f: Forest, p: Addr, rank: map<Addr, int>, a: Addr)
    requires Inv(f) && p in Live(f) && p != f.nullCtx && Ranked(f, rank, p) && a in Live(Free(f, p, rank).0)
    requires p in f.refs.list && f.refs.list[p] == [] && p !in f.tree.out && p in f.dtor && f.dtor[p] != Refuses
    ensures a != p && Grown(f, Free(f, p, rank).0, a)
    decreases Mobile(f), 0, 0
  {
    FreeStep(f, p, rank);
    KeysAgree(f);
    hide Inv, Ranked, Drain, Free, Grown, Shrinks, Emptying;
    DrainGrows(Emptying(f, p), p, rank, a);
    FreedGrown(f, p, Drain(Emptying(f, p), p, rank), a);
  }
}
