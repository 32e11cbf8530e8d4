/**
 What the free of a child meets on its way down, and why freeing one child does not change that for another.
 */
module ChildReach {
  import opened Seqs
  import opened ChildLists
  import opened RefLists
  import opened Forests
  import opened Ownership
  import opened FreeRounds
  import opened FreeTheorem
  import opened DownSets
  import opened OuterReferences

  // ------------------------------------------------------------------ what the free reaches below a child

  /** `w` goes once its parent goes. */
  predicate GivesWay(f: Forest, w: Addr) {
    w in f.refs.list && f.refs.list[w] == [] && w in f.dtor && f.dtor[w] != Refuses
  }

  /** `w` is not referenced and refuses. */
  predicate Refusing(f: Forest, w: Addr) {
    w in f.refs.list && f.refs.list[w] == [] && w in f.dtor && f.dtor[w] == Refuses
  }

  /** From `c` down to `z` everything but perhaps `z` gives way. */
  ghost predicate Reached(f: Forest, c: Addr, z: Addr) {
    && Settled(f, z) && Above(f.tree, c, z)
    && forall w :: Settled(f, w) && w != z && Above(f.tree, c, w) && Above(f.tree, w, z) ==> GivesWay(f, w)
  }

  /** The free of `c` meets a chunk that refuses. */
  ghost predicate EndsInRefusal(f: Forest, c: Addr) {
    exists z :: Reached(f, c, z) && Refusing(f, z)
  }

  /** The free of `c` meets the chunk whose newest reference is `y`. */
  ghost predicate LosesHandle(f: Forest, c: Addr, y: Addr) {
    && y in f.refs.target
    && var x := f.refs.target[y]; x in f.refs.list && f.refs.list[x] != [] && f.refs.list[x][0] == y && Reached(f, c, x)
  }

  // ------------------------------------------------------------------ the loop over the children of `p`

  /** `p` is being emptied, and `b` holds what lies below it. */
  ghost predicate Looping(f: Forest, p: Addr, rank: map<Addr, int>, b: set<Addr>) {
    && Emptied(f, p, rank) && f.tree.out == {p} && Outer(f, b) && p in b && f.nullCtx !in b
    && p in f.tree.up && f.tree.up[p] !in b && ParentLives(f, p) && p in f.refs.list && f.refs.list[p] == []
  }

  /** The free of the child `c` of `p` leaves the other chunks in `b` alone, and moves what it leaves of `c` to `p`
      or out of `b`. */
  ghost predicate Apart(f: Forest, g: Forest, p: Addr, c: Addr, b: set<Addr>) {
    && (forall z :: z in b && Settled(f, z) && !Above(f.tree, c, z) ==>
          Settled(g, z) && g.tree.up[z] == f.tree.up[z] && g.refs.list[z] == f.refs.list[z] && g.dtor[z] == f.dtor[z])
    && (forall z :: z in b && Settled(g, z) ==>
          Settled(f, z) && (g.tree.up[z] == f.tree.up[z] || g.tree.up[z] == p || g.tree.up[z] !in b))
  }

  /** A way up that ends in `b` does not pass `p`. */
  lemma NotThrough(f: Forest, p: Addr, b: set<Addr>, d: Addr, n: nat)
    requires Down(f, b) && p in f.tree.up && f.tree.up[p] !in b && d in b && d != p
    ensures UpN(f.tree, p, n) != d
  {
    assert UpN(f.tree, p, 0) == p;
    if n > 0 && UpN(f.tree, p, n) == d {
      UpShift(f.tree, p, n - 1);
      DownBelow(f, b, d, f.tree.up[p], n - 1);
    }
  }

  lemma SettledUp(f: Forest, z: Addr, p: Addr)
    requires Inv(f) && f.tree.out == {p} && Settled(f, z) && f.tree.up[z] != NULL && f.tree.up[z] != p
    ensures Settled(f, f.tree.up[z])
  {
    KeysAgree(f);
    var u := f.tree.up[z];
    assert UpOk(f.tree, z);
    assert u in f.refs.target ==> HandleOk(f, u);
    hide Inv;
  }

  lemma Loop(f: Forest, p: Addr, rank: map<Addr, int>, b: set<Addr>)
    requires Looping(f, p, rank, b)
    ensures Inv(f) && f.tree.out == {p} && Down(f, b) && Outer(f, b) && p in b && p in f.tree.up && f.tree.up[p] !in b && NULL !in b
    ensures Emptied(f, p, rank) && p in Live(f)
  {
    hide Inv, Ranked;
  }

  lemma {:induction false} WayKept(f: Forest, g: Forest, p: Addr, rank: map<Addr, int>, c: Addr, b: set<Addr>, d: Addr, z: Addr, n: nat)
    requires Looping(f, p, rank, b) && Apart(f, g, p, c, b)
    requires d in b && d != p && z in b && Settled(f, z) && !Above(f.tree, c, z) && UpN(f.tree, z, n) == d
    ensures UpN(g.tree, z, n) == d
    decreases n
  {
    hide Inv, Looping, Above, Down, Outer;
    Loop(f, p, rank, b);
    if n == 0 {
      assert UpN(f.tree, z, 0) == z == UpN(g.tree, z, 0);
    } else {
      var u := f.tree.up[z];
      UpShift(f.tree, z, n - 1);
      UpShift(g.tree, z, n - 1);
      DownBelow(f, b, d, u, n - 1);
      NotThrough(f, p, b, d, n - 1);
      SettledUp(f, z, p);
      if Above(f.tree, c, u) {
        OneBelow(f.tree, c, z);
      }
      WayKept(f, g, p, rank, c, b, d, u, n - 1);
    }
  }

  lemma {:induction false} WayBack(f: Forest, g: Forest, p: Addr, rank: map<Addr, int>, c: Addr, b: set<Addr>, d: Addr, z: Addr, n: nat)
    requires Looping(f, p, rank, b) && Looping(g, p, rank, b) && Apart(f, g, p, c, b)
    requires d in b && d != p && z in b && Settled(g, z) && UpN(g.tree, z, n) == d
    ensures Settled(f, z) && UpN(f.tree, z, n) == d
    decreases n
  {
    hide Inv, Looping, Above, Down, Outer;
    Loop(f, p, rank, b);
    Loop(g, p, rank, b);
    if n == 0 {
      assert UpN(f.tree, z, 0) == z == UpN(g.tree, z, 0);
    } else {
      var u := g.tree.up[z];
      UpShift(g.tree, z, n - 1);
      UpShift(f.tree, z, n - 1);
      DownBelow(g, b, d, u, n - 1);
      NotThrough(g, p, b, d, n - 1);
      SettledUp(g, z, p);
      WayBack(f, g, p, rank, c, b, d, u, n - 1);
    }
  }

  /** What lies below another child of `p` does not lie below `c`. */
  lemma Disjoint(f: Forest, p: Addr, rank: map<Addr, int>, c: Addr, d: Addr, z: Addr)
    requires Inv(f) && Ranked(f, rank, NULL) && p in Live(f) && c in f.tree.up && d in f.tree.up && f.tree.up[c] == p == f.tree.up[d] && c != d
    requires Above(f.tree, d, z)
    ensures !Above(f.tree, c, z)
  {
    hide Inv, Ranked, Above;
    KeysAgree(f);
    if Above(f.tree, c, z) {
      Comparable(f.tree, c, d, z);
      if Above(f.tree, c, d) {
        NotAboveSibling(f, p, rank, c, d);
      } else {
        NotAboveSibling(f, p, rank, d, c);
      }
    }
  }

  lemma NotAboveSibling(f: Forest, p: Addr, rank: map<Addr, int>, c: Addr, d: Addr)
    requires Inv(f) && Ranked(f, rank, NULL) && p in Live(f) && c in f.tree.up && d in f.tree.up && f.tree.up[c] == p == f.tree.up[d] && c != d
    ensures !Above(f.tree, c, d)
  {
    hide Inv;
    KeysAgree(f);
    assert UpN(f.tree, p, 0) == p;
    if Above(f.tree, c, d) {
      AboveStep(f.tree, c, d);
      var n: nat :| UpN(f.tree, p, n) == c;
      if n > 0 {
        RankFalls(f, p, n - 1, rank);
      }
    }
  }

  lemma AboveKept(f: Forest, g: Forest, p: Addr, rank: map<Addr, int>, c: Addr, b: set<Addr>, d: Addr, z: Addr)
    requires Looping(f, p, rank, b) && Apart(f, g, p, c, b)
    requires d in b && d != p && Settled(f, z) && !Above(f.tree, c, z) && Above(f.tree, d, z)
    ensures Above(g.tree, d, z)
  {
    hide Inv, Looping, Down, Apart;
    Loop(f, p, rank, b);
    BelowIn(f, b, d, z);
    var n: nat :| UpN(f.tree, z, n) == d;
    WayKept(f, g, p, rank, c, b, d, z, n);
  }

  lemma AboveBack(f: Forest, g: Forest, p: Addr, rank: map<Addr, int>, c: Addr, b: set<Addr>, d: Addr, z: Addr)
    requires Looping(f, p, rank, b) && Looping(g, p, rank, b) && Apart(f, g, p, c, b)
    requires d in b && d != p && Settled(g, z) && Above(g.tree, d, z)
    ensures Settled(f, z) && Above(f.tree, d, z) && z in b
  {
    hide Inv, Looping, Down, Apart;
    Loop(g, p, rank, b);
    BelowIn(g, b, d, z);
    var n: nat :| UpN(g.tree, z, n) == d;
    WayBack(f, g, p, rank, c, b, d, z, n);
  }

  /** A child `d` of `p` other than `c`, while `c` is dealt with. */
  ghost predicate Other(f: Forest, p: Addr, c: Addr, d: Addr) {
    c in f.tree.up && d in f.tree.up && f.tree.up[c] == p == f.tree.up[d] && c != d && d != p
  }

  lemma ReachedKept(f: Forest, g: Forest, p: Addr, rank: map<Addr, int>, c: Addr, b: set<Addr>, d: Addr, z: Addr)
    requires Looping(f, p, rank, b) && Looping(g, p, rank, b) && Apart(f, g, p, c, b) && Other(f, p, c, d) && d in b && Reached(f, d, z)
    ensures Reached(g, d, z) && z in b && !Above(f.tree, c, z)
  {
    hide Inv, Looping, Above, Down, Apart, Ranked;
    Loop(f, p, rank, b);
    Loop(g, p, rank, b);
    BelowIn(f, b, d, z);
    Disjoint(f, p, rank, c, d, z);
    ApartAt(f, g, p, c, b, z);
    AboveKept(f, g, p, rank, c, b, d, z);
    forall w | Settled(g, w) && w != z && Above(g.tree, d, w) && Above(g.tree, w, z) ensures GivesWay(g, w) {
      AboveBack(f, g, p, rank, c, b, d, w);
      AboveBack(f, g, p, rank, c, b, w, z) by { assert w != p; }
      Disjoint(f, p, rank, c, d, w);
      ApartAt(f, g, p, c, b, w);
    }
  }

  lemma ApartAt(f: Forest, g: Forest, p: Addr, c: Addr, b: set<Addr>, z: Addr)
    requires Apart(f, g, p, c, b) && z in b && Settled(f, z) && !Above(f.tree, c, z)
    ensures Settled(g, z) && g.refs.list[z] == f.refs.list[z] && g.dtor[z] == f.dtor[z]
  {
  }

  lemma ReachedBack(f: Forest, g: Forest, p: Addr, rank: map<Addr, int>, c: Addr, b: set<Addr>, d: Addr, z: Addr)
    requires Looping(f, p, rank, b) && Looping(g, p, rank, b) && Apart(f, g, p, c, b) && Other(f, p, c, d) && d in b && Reached(g, d, z)
    ensures Reached(f, d, z) && z in b && !Above(f.tree, c, z)
  {
    hide Inv, Looping, Above, Down, Apart, Ranked;
    Loop(f, p, rank, b);
    Loop(g, p, rank, b);
    AboveBack(f, g, p, rank, c, b, d, z);
    Disjoint(f, p, rank, c, d, z);
    forall w | Settled(f, w) && w != z && Above(f.tree, d, w) && Above(f.tree, w, z) ensures GivesWay(f, w) {
      BelowIn(f, b, d, w);
      Disjoint(f, p, rank, c, d, w);
      ApartAt(f, g, p, c, b, w);
      AboveKept(f, g, p, rank, c, b, d, w);
      AboveKept(f, g, p, rank, c, b, w, z);
    }
  }

  /** What the free of another child will meet is the same before and after. */
  lemma OtherSame(f: Forest, g: Forest, p: Addr, rank: map<Addr, int>, c: Addr, b: set<Addr>, d: Addr, y: Addr)
    requires Looping(f, p, rank, b) && Looping(g, p, rank, b) && Apart(f, g, p, c, b) && Other(f, p, c, d) && d in b && HandlesStay(f, g)
    ensures EndsInRefusal(f, d) <==> EndsInRefusal(g, d)
    ensures LosesHandle(f, d, y) <==> LosesHandle(g, d, y)
  {
    hide Inv, Looping, Above, Apart, Reached;
    if EndsInRefusal(f, d) {
      var z :| Reached(f, d, z) && Refusing(f, z);
      ReachedKept(f, g, p, rank, c, b, d, z);
      StillRefusing(f, g, p, c, b, d, z);
    }
    if EndsInRefusal(g, d) {
      var z :| Reached(g, d, z) && Refusing(g, z);
      ReachedBack(f, g, p, rank, c, b, d, z);
      StillRefusing(f, g, p, c, b, d, z);
    }
    if LosesHandle(f, d, y) {
      var x := f.refs.target[y];
      ReachedKept(f, g, p, rank, c, b, d, x);
      StillRefusing(f, g, p, c, b, d, x);
      Loop(g, p, rank, b);
      ListTargets(g, x, y) by { HeadIn(g.refs.list[x]); }
    }
    if LosesHandle(g, d, y) {
      var x := g.refs.target[y];
      ReachedBack(f, g, p, rank, c, b, d, x);
      StillRefusing(f, g, p, c, b, d, x);
    }
  }

  lemma StillRefusing(f: Forest, g: Forest, p: Addr, c: Addr, b: set<Addr>, d: Addr, z: Addr)
    requires Apart(f, g, p, c, b) && z in b && Reached(f, d, z) && !Above(f.tree, c, z)
    ensures z in f.refs.list && z in g.refs.list && g.refs.list[z] == f.refs.list[z] && (Refusing(f, z) <==> Refusing(g, z))
  {
    hide Above;
    ApartAt(f, g, p, c, b, z);
  }

  lemma ListTargets(f: Forest, x: Addr, h: Addr)
    requires Inv(f) && x in f.refs.list && h in f.refs.list[x]
    ensures h in f.refs.target && f.refs.target[h] == x
  {
    assert ListOk(f.refs, x);
  }
}
