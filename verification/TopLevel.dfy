/**
 With a null context nothing else is at the top of the tree, and no operation puts anything there.
 */
module TopLevel {
  import opened Seqs
  import opened ChildLists
  import opened RefLists
  import opened Forests
  import opened FreeRounds
  import opened Operations
  import opened Acyclicity

  ghost predicate Rooted(f: Forest) {
    f.nullCtx != NULL ==> forall x :: x in f.tree.up && x != f.nullCtx ==> f.tree.up[x] != NULL
  }

  lemma HandleFreedRooted(f: Forest, h: Addr)
    requires Inv(f) && Rooted(f) && h in f.refs.target
    ensures h in f.dtor && h in f.tree.up && f.refs.target[h] in f.refs.list
    ensures Rooted(HandleFreed(f, h)) && HandleFreed(f, h).nullCtx == f.nullCtx
  {
    HandleFacts(f, h);
    assert HandleFreed(f, h).tree.up == f.tree.up - {h};
    hide Inv;
  }

  lemma StolenRooted(f: Forest, q: Addr, c: Addr)
    requires Inv(f) && Rooted(f) && c in f.tree.up && (q == NULL || q in f.tree.kids) && (f.nullCtx == NULL || f.nullCtx in f.tree.kids)
    ensures Rooted(Stolen(f, q, c))
  {
    KeysAgree(f);
    var q1 := if q == NULL then f.nullCtx else q;
    if c != q1 {
      assert Stolen(f, q, c).tree.up == f.tree.up[c := q1];
    }
    hide Inv;
  }

  lemma ReleasedRooted(f: Forest, p: Addr)
    requires Rooted(f)
    ensures Rooted(Released(f, p))
  {
  }

  lemma EmptyingRooted(f: Forest, p: Addr)
    requires Inv(f) && Rooted(f) && p in Live(f)
    ensures p in f.dtor && p in f.tree.up && (p in f.refs.target ==> f.refs.target[p] in f.refs.list) && Rooted(Emptying(f, p))
  {
    KeysAgree(f);
    EmptyingFacts(f, p);
    hide Inv;
  }

  /** Freeing keeps it. */
  lemma {:induction false} FreeRooted(f: Forest, p: Addr, rank: map<Addr, int>)
    requires Inv(f) && p in Live(f) && p != f.nullCtx && Ranked(f, rank, p) && Rooted(f)
    ensures Rooted(Free(f, p, rank).0)
    decreases Mobile(f), 0, 0
  {
    hide Inv, Ranked, Rooted, Drain, Shrinks, Above, HandleFreed, Emptying;
    KeysAgree(f);
    if f.refs.list[p] != [] {
      FreeLosesHandle(f, p, rank);
      var h := f.refs.list[p][0];
      HandleFacts(f, h);
      HandleFreedRooted(f, h);
      if Above(f.tree, p, h) {
        FreeRooted(HandleFreed(f, h), p, rank);
      }
    } else if p !in f.tree.out && f.dtor[p] != Refuses {
      FreeStep(f, p, rank);
      EmptyingRooted(f, p);
      DrainRooted(Emptying(f, p), p, rank);
      ReleasedRooted(Drain(Emptying(f, p), p, rank), p);
    }
  }

  lemma {:induction false} DrainRooted(f: Forest, p: Addr, rank: map<Addr, int>)
    requires Emptied(f, p, rank) && Rooted(f)
    ensures Rooted(Drain(f, p, rank))
    decreases Mobile(f), 1, |f.tree.kids[p]|
  {
    hide Inv, Ranked, Rooted, Free, Drain, Shrinks, DrainRound;
    if f.tree.kids[p] == [] {
      DrainNothing(f, p, rank);
    } else {
      var c := f.tree.kids[p][0];
      HolderOk(f, p, c, rank);
      RankedAny(f, rank, c);
      FreeRooted(f, c, rank);
      DrainStep(f, p, rank);
      RoundRooted(f, p, c, rank, Free(f, c, rank));
      DrainRooted(NextRound(f, p, rank), p, rank);
    }
  }

  lemma RoundRooted(f: Forest, p: Addr, c: Addr, rank: map<Addr, int>, r: (Forest, int))
    requires Emptied(f, p, rank) && HeadChild(f, p, c) && FreePost(f, c, rank, r.0, r.1) && Rooted(r.0)
    ensures Rooted(DrainRound(f, p, c, rank, r))
  {
    hide Inv, Ranked, Shrinks, Rooted, Stolen, Adopter, Holder;
    if r.1 == -1 {
      RefusedRoundOk(f, p, c, rank, r.0);
      StolenRooted(r.0, Adopter(r.0, p, Holder(f, c)), c);
    }
  }

  lemma AllocatedRooted(f: Forest, ctx: Addr, a: Addr)
    requires Inv(f) && Rooted(f) && IsContext(f, ctx)
    ensures Context(f, ctx) == NULL || Context(f, ctx) in Live(f)
    ensures Rooted(Allocated(f, ctx, a))
  {
    var q := Context(f, ctx);
    KeysAgree(f);
    NullCtxLive(f);
    assert Allocated(f, ctx, a).tree.up == f.tree.up[a := NULL][a := q];
    hide Inv;
  }

  lemma ReferencedRooted(f: Forest, ctx: Addr, p: Addr, h: Addr)
    requires Inv(f) && Rooted(f) && IsContext(f, ctx) && p in f.refs.list
    ensures Context(f, ctx) == NULL || Context(f, ctx) in Live(f)
    ensures Rooted(Referenced(f, ctx, p, h))
  {
    hide Inv;
    AllocatedRooted(f, ctx, h);
  }
}
