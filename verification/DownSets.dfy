/**
 Sets of chunks that are closed under children: a free that starts inside one stays inside, handles aside.
 */
module DownSets {
  import opened Seqs
  import opened ChildLists
  import opened RefLists
  import opened Forests
  import opened Ownership
  import opened FreeRounds

  /** Everything whose parent is in `b` is in `b`. */
  ghost predicate Down(f: Forest, b: set<Addr>) {
    NULL !in b && forall z :: z in f.tree.up && f.tree.up[z] in b ==> z in b
  }

  /** `y` is neither in `b` nor a handle onto something there. */
  ghost predicate Shielded(f: Forest, b: set<Addr>, y: Addr) {
    y in Live(f) && y !in b && (y in f.refs.target ==> f.refs.target[y] !in b)
  }

  /** From `f` to `g` nothing happened outside `b`, handles onto its chunks aside. */
  ghost predicate Inside(f: Forest, g: Forest, b: set<Addr>) {
    && Down(g, b)
    && (forall y :: Shielded(f, b, y) ==> Shielded(g, b, y))
    && (forall h :: h in g.refs.target ==>
          h in f.refs.target && g.refs.target[h] == f.refs.target[h] && Up(g.tree.up, h) == Up(f.tree.up, h))
  }

  lemma InsideTransitive(f: Forest, g: Forest, h: Forest, b: set<Addr>)
    requires Inside(f, g, b) && Inside(g, h, b)
    ensures Inside(f, h, b)
  {
  }

  lemma InsideItself(f: Forest, b: set<Addr>)
    requires Down(f, b)
    ensures Inside(f, f, b)
  {
  }

  lemma HandleFreedInside(f: Forest, h: Addr, b: set<Addr>)
    requires Inv(f) && Down(f, b) && h in f.refs.target && (h in b || f.refs.target[h] in b)
    ensures h in f.dtor && h in f.tree.up && f.refs.target[h] in f.refs.list && Inside(f, HandleFreed(f, h), b)
  {
    hide Inv, HandleFreed, Shrinks, Inside, Down, OnlyHandlesGone;
    IsHandle(f, h);
    HandleFreedOk(f, h);
    HandleFreedEdges(f, h);
    OneHandleLess(f, HandleFreed(f, h), h, b);
  }

  lemma OneHandleLess(f: Forest, g: Forest, h: Addr, b: set<Addr>)
    requires Down(f, b) && h in f.refs.target && (h in b || f.refs.target[h] in b)
    requires g.tree.up == f.tree.up - {h} && g.refs.target == f.refs.target - {h} && Live(g) == Live(f) - {h}
    ensures Inside(f, g, b)
  {
  }

  lemma HandleFreedEdges(f: Forest, h: Addr)
    requires Inv(f) && h in f.refs.target
    ensures h in f.dtor && h in f.tree.up && f.refs.target[h] in f.refs.list
    ensures var g := HandleFreed(f, h); g.tree.up == f.tree.up - {h} && g.refs.target == f.refs.target - {h}
  {
    IsHandle(f, h);
  }

  lemma EmptyingInside(f: Forest, p: Addr, b: set<Addr>)
    requires Inv(f) && Down(f, b) && p in Live(f) && p !in f.refs.target
    ensures p in f.dtor && p in f.tree.up && Inside(f, Emptying(f, p), b)
  {
    EmptyingFacts(f, p);
    hide Inv, Emptying;
  }

  lemma ReleasedInside(f: Forest, p: Addr, b: set<Addr>)
    requires Inv(f) && Down(f, b) && p in b && p !in f.refs.target
    ensures Inside(f, Released(f, p), b)
  {
    hide Inv;
  }

  lemma StolenInside(f: Forest, q: Addr, c: Addr, b: set<Addr>)
    requires Inv(f) && Down(f, b) && c in b && c in Live(f) && c !in f.refs.target && c in f.tree.up
    requires (q == NULL || q in Live(f)) && (f.nullCtx == NULL || f.nullCtx in f.tree.kids)
    ensures Inside(f, Stolen(f, q, c), b)
  {
    hide Move, TreeInv, RefsInv, HandleOk, NullCtxOk;
    var q1 := if q == NULL then f.nullCtx else q;
    if c != q1 {
      MoveInv(f.tree, q1, c);
    }
  }

  /** The free of a chunk in `b` stays inside `b`. */
  lemma {:induction false} ChunkInside(f: Forest, p: Addr, rank: map<Addr, int>, b: set<Addr>)
    requires Inv(f) && p in Live(f) && p != f.nullCtx && Ranked(f, rank, p) && Down(f, b) && p !in f.refs.target && p in b
    ensures Inside(f, Free(f, p, rank).0, b)
    decreases Mobile(f), 0, 0
  {
    hide Inv, Ranked, Down, Inside, Drain, Shrinks, Above, HandleFreed, Emptying;
    KeysAgree(f);
    if f.refs.list[p] != [] {
      FreeLosesHandle(f, p, rank);
      var h := f.refs.list[p][0];
      HandleFreedInside(f, h, b);
      StillFreeable(f, p, h, rank);
      var g := HandleFreed(f, h);
      InsideDown(f, g, b);
      if Above(f.tree, p, h) {
        NoTargetMore(f, g, p, b);
        ChunkInside(g, p, rank, b);
        InsideTransitive(f, g, Free(g, p, rank).0, b);
      }
    } else if p in f.tree.out || f.dtor[p] == Refuses {
      InsideItself(f, b);
    } else {
      FreeStep(f, p, rank);
      EmptyingInside(f, p, b);
      var e := Emptying(f, p);
      InsideDown(f, e, b);
      DrainInside(e, p, rank, b);
      var g := Drain(e, p, rank);
      NoTargetMore(f, e, p, b);
      NoTargetMore(e, g, p, b);
      InsideDown(e, g, b);
      ReleasedInside(g, p, b);
      InsideTransitive(f, e, g, b);
      InsideTransitive(f, g, Released(g, p), b);
    }
  }

  lemma InsideDown(f: Forest, g: Forest, b: set<Addr>)
    requires Inside(f, g, b)
    ensures Down(g, b)
  {
  }

  lemma NoTargetMore(f: Forest, g: Forest, p: Addr, b: set<Addr>)
    requires Inside(f, g, b) && p !in f.refs.target
    ensures p !in g.refs.target
  {
  }

  lemma {:induction false} DrainInside(f: Forest, p: Addr, rank: map<Addr, int>, b: set<Addr>)
    requires Emptied(f, p, rank) && Down(f, b) && p in b
    ensures Inside(f, Drain(f, p, rank), b)
    decreases Mobile(f), 1, |f.tree.kids[p]|
  {
    hide Inv, Ranked, Down, Inside, Drain, Shrinks, Free, NextRound;
    if f.tree.kids[p] == [] {
      DrainNothing(f, p, rank);
      InsideItself(f, b);
    } else {
      DrainStep(f, p, rank);
      RoundInside(f, p, rank, b);
      var g := NextRound(f, p, rank);
      InsideDown(f, g, b);
      DrainInside(g, p, rank, b);
      InsideTransitive(f, g, Drain(g, p, rank), b);
    }
  }

  lemma HeadInside(f: Forest, p: Addr, rank: map<Addr, int>, b: set<Addr>)
    requires Emptied(f, p, rank) && Down(f, b) && p in b && f.tree.kids[p] != []
    ensures f.tree.kids[p][0] in b
  {
    HolderOk(f, p, f.tree.kids[p][0], rank);
  }

  lemma {:induction false} RoundInside(f: Forest, p: Addr, rank: map<Addr, int>, b: set<Addr>)
    requires Emptied(f, p, rank) && Down(f, b) && p in b && f.tree.kids[p] != []
    ensures Inside(f, NextRound(f, p, rank), b)
    decreases Mobile(f), 1, 0
  {
    hide Inv, Ranked, Down, Inside, Drain, Shrinks, Free, Stolen, Holder, Adopter, HandleFreed;
    var c := f.tree.kids[p][0];
    HolderOk(f, p, c, rank);
    RankedAny(f, rank, c);
    HeadInside(f, p, rank, b);
    if c in f.refs.target {
      RoundHandle(f, p, c, rank);
      HandleFreedInside(f, c, b);
    } else {
      ChunkInside(f, c, rank, b);
      var r := Free(f, c, rank);
      InsideDown(f, r.0, b);
      NoTargetMore(f, r.0, c, b);
      if r.1 == -1 {
        RefusedRoundOk(f, p, c, rank, r.0);
        AdopterOk(f, p, c, rank, r.0);
        var a := Adopter(r.0, p, Holder(f, c));
        StolenInside(r.0, a, c, b);
        InsideTransitive(f, r.0, Stolen(r.0, a, c), b);
      }
    }
  }

  /** Whatever lies below a chunk of `b` is in `b`. */
  lemma {:induction false} DownBelow(f: Forest, b: set<Addr>, x: Addr, z: Addr, n: nat)
    requires Down(f, b) && x in b && UpN(f.tree, z, n) == x
    ensures z in b
    decreases n
  {
    if n > 0 {
      DownBelow(f, b, UpN(f.tree, z, n - 1), z, n - 1);
    } else {
      assert UpN(f.tree, z, 0) == z;
    }
  }

  lemma BelowIn(f: Forest, b: set<Addr>, d: Addr, z: Addr)
    requires Down(f, b) && d in b && Above(f.tree, d, z)
    ensures z in b
  {
    var n: nat :| UpN(f.tree, z, n) == d;
    DownBelow(f, b, d, z, n);
  }

  lemma OneBelow(t: Tree, p: Addr, z: Addr)
    requires z in t.up && Above(t, p, t.up[z])
    ensures Above(t, p, z)
  {
    var n: nat :| UpN(t, t.up[z], n) == p;
    UpShift(t, z, n);
  }

  lemma SubtreeDown(f: Forest, p: Addr)
    requires Inv(f) && p in Live(f)
    ensures Down(f, Subtree(f, p)) && p in Subtree(f, p)
  {
    hide Inv, Above;
    KeysAgree(f);
    AboveEnds(f.tree, p);
    forall z | z in f.tree.up && f.tree.up[z] in Subtree(f, p) ensures z in Subtree(f, p) {
      OneBelow(f.tree, p, z);
    }
  }
}
