/**
 What one round of the emptying loop comes to in each of its four cases, and what the rounds
 do to the owners of every chunk.
 */
module FreeRounds {
  import opened Seqs
  import opened ChildLists
  import opened RefLists
  import opened Forests

  /** A state in which `p` is being emptied under acyclic ownership. */
  ghost predicate Emptied(f: Forest, p: Addr, rank: map<Addr, int>) {
    Inv(f) && p in Live(f) && p in f.tree.out && p != f.nullCtx && Ranked(f, rank, NULL)
  }

  ghost predicate HeadChild(f: Forest, p: Addr, c: Addr)
    requires p in Live(f)
  {
    f.tree.kids[p] != [] && c == f.tree.kids[p][0]
  }

  /** Ranks fall on the way up. */
  lemma {:induction false} RankFalls(f: Forest, a: Addr, n: nat, rank: map<Addr, int>)
    requires Ranked(f, rank, NULL) && a in f.tree.up && NULL !in f.tree.up
    ensures UpN(f.tree, a, n + 1) != NULL ==> f.tree.up[a] != NULL && Rk(rank, UpN(f.tree, a, n + 1)) <= Rk(rank, f.tree.up[a])
  {
    if n == 0 {
      assert UpN(f.tree, a, 0) == a;
    } else {
      RankFalls(f, a, n - 1, rank);
    }
  }

  /** Under acyclic ownership no reference to `c` hangs below `c`. */
  lemma NoReferenceFromBelow(f: Forest, c: Addr, h: Addr, rank: map<Addr, int>)
    requires Inv(f) && Ranked(f, rank, NULL) && c in Live(f) && h in f.refs.target && f.refs.target[h] == c && c != NULL
    ensures !Above(f.tree, c, h)
  {
    assert HandleOk(f, h) && c in f.refs.list && h in f.refs.list[c];
    if Above(f.tree, c, h) {
      var n: nat :| UpN(f.tree, h, n) == c;
      assert NULL !in f.tree.up;
      if n > 0 {
        RankFalls(f, h, n - 1, rank);
      }
      assert false;
    }
  }

  lemma FreeOfHandle(f: Forest, h: Addr, rank: map<Addr, int>)
    requires Inv(f) && h in f.refs.target && Ranked(f, rank, h)
    ensures h in Live(f) && h != f.nullCtx
    ensures Free(f, h, rank) == (HandleFreed(f, h), 0)
  {
    assert HandleOk(f, h);
    HandleEmpty(f, h);
    EmptyingInv(f, h);
    EmptyingFacts(f, h);
    EmptyingRanked(f, h, rank);
    hide Inv, Ranked, HandleOk;
  }

  lemma RoundHandle(f: Forest, p: Addr, c: Addr, rank: map<Addr, int>)
    requires Emptied(f, p, rank) && HeadChild(f, p, c) && c in f.refs.target
    ensures c in Live(f) && c != f.nullCtx && Ranked(f, rank, c)
    ensures DrainRound(f, p, c, rank, Free(f, c, rank)) == HandleFreed(f, c)
  {
    HolderOk(f, p, c, rank);
    RankedAny(f, rank, c);
    FreeOfHandle(f, c, rank);
    hide Inv, Ranked;
  }

  lemma RoundRefused(f: Forest, p: Addr, c: Addr, rank: map<Addr, int>)
    requires Emptied(f, p, rank) && HeadChild(f, p, c) && c in f.refs.list && f.refs.list[c] == []
    requires c in f.dtor && f.dtor[c] == Refuses
    ensures c in Live(f) && c != f.nullCtx && Ranked(f, rank, c)
    ensures var a := Adopter(f, p, f.nullCtx);
      && (a == NULL || a in f.tree.kids)
      && DrainRound(f, p, c, rank, Free(f, c, rank)) == Stolen(f, a, c)
  {
    HolderOk(f, p, c, rank);
    RankedAny(f, rank, c);
    assert Free(f, c, rank) == (f, -1);
    RefusedRoundOk(f, p, c, rank, f);
    hide Inv, Ranked;
  }

  lemma RoundReferenced(f: Forest, p: Addr, c: Addr, rank: map<Addr, int>)
    requires Emptied(f, p, rank) && HeadChild(f, p, c) && c in f.refs.list && f.refs.list[c] != []
    ensures c in Live(f) && c != f.nullCtx && Ranked(f, rank, c)
    ensures var h := f.refs.list[c][0]; h in f.refs.target && f.refs.target[h] == c && h in f.tree.up
    ensures var f1 := HandleFreed(f, f.refs.list[c][0]);
      && (f1.nullCtx == NULL || f1.nullCtx in f1.tree.kids) && p in f1.tree.up && c in f1.tree.up
      && var a := Adopter(f1, p, Holder(f, c));
      && (a == NULL || a in f1.tree.kids)
      && DrainRound(f, p, c, rank, Free(f, c, rank)) == Stolen(f1, a, c)
  {
    HolderOk(f, p, c, rank);
    RankedAny(f, rank, c);
    FreeLosesHandle(f, c, rank);
    var h := f.refs.list[c][0];
    var f1 := HandleFreed(f, h);
    NoReferenceFromBelow(f, c, h, rank);
    assert Free(f, c, rank) == (f1, -1);
    RefusedRoundOk(f, p, c, rank, f1);
    hide Inv, Ranked, HandleFreed;
  }

  lemma RoundAccepted(f: Forest, p: Addr, c: Addr, rank: map<Addr, int>)
    requires Emptied(f, p, rank) && HeadChild(f, p, c) && c in f.refs.list && f.refs.list[c] == []
    requires c in f.dtor && f.dtor[c] != Refuses
    ensures c in Live(f) && c != f.nullCtx && Ranked(f, rank, c)
    ensures Free(f, c, rank).1 == 0
    ensures DrainRound(f, p, c, rank, Free(f, c, rank)) == Free(f, c, rank).0
  {
    HolderOk(f, p, c, rank);
    RankedAny(f, rank, c);
    hide Inv, Ranked;
  }

  /** The round that the code makes with the head child of `p`. */
  ghost function NextRound(f: Forest, p: Addr, rank: map<Addr, int>): Forest
    requires Emptied(f, p, rank) && f.tree.kids[p] != []
  {
    var c := f.tree.kids[p][0];
    HolderOk(f, p, c, rank);
    RankedAny(f, rank, c);
    DrainRound(f, p, c, rank, Free(f, c, rank))
  }

  /** The loop is its first round followed by the rest, and the round makes progress. */
  lemma DrainStep(f: Forest, p: Addr, rank: map<Addr, int>)
    requires Emptied(f, p, rank) && f.tree.kids[p] != []
    ensures var g := NextRound(f, p, rank);
      && Emptied(g, p, rank) && Shrinks(f, g) && Drain(f, p, rank) == Drain(g, p, rank)
      && (Mobile(g) < Mobile(f) || (Mobile(g) == Mobile(f) && |g.tree.kids[p]| < |f.tree.kids[p]|))
  {
    hide Inv, Shrinks, Ranked;
    SameOut(f, NextRound(f, p, rank));
  }

  /** Freeing an unreferenced chunk whose destructor accepts: mark it, empty it, release it. */
  lemma FreeStep(f: Forest, p: Addr, rank: map<Addr, int>)
    requires Inv(f) && p in Live(f) && p != f.nullCtx && Ranked(f, rank, p)
    requires f.refs.list[p] == [] && p !in f.tree.out && f.dtor[p] != Refuses
    ensures Emptied(Emptying(f, p), p, rank) && Mobile(Emptying(f, p)) < Mobile(f)
    ensures Free(f, p, rank) == (Released(Drain(Emptying(f, p), p, rank), p), 0)
  {
    EmptyingInv(f, p);
    EmptyingMobile(f, p);
    EmptyingFacts(f, p);
    EmptyingRanked(f, p, rank);
    hide Inv, Ranked;
  }

  /** Freeing a referenced chunk costs it its newest handle and is refused. */
  lemma FreeReferenced(f: Forest, p: Addr, rank: map<Addr, int>)
    requires Inv(f) && p in Live(f) && p != f.nullCtx && Ranked(f, rank, NULL) && Ranked(f, rank, p)
    requires f.refs.list[p] != []
    ensures var h := f.refs.list[p][0];
      && h in f.refs.target && f.refs.target[h] == p && h in f.tree.up && h in f.dtor
      && Free(f, p, rank) == (HandleFreed(f, h), -1)
      && Live(HandleFreed(f, h)) == Live(f) - {h}
  {
    FreeLosesHandle(f, p, rank);
    var h := f.refs.list[p][0];
    HandleFreedOk(f, h);
    assert p in f.tree.up && UpOk(f.tree, p) && h in f.tree.up;
    NoReferenceFromBelow(f, p, h, rank);
    hide Inv, Ranked, HandleFreed, Shrinks;
  }

  lemma DrainNothing(f: Forest, p: Addr, rank: map<Addr, int>)
    requires Emptied(f, p, rank) && f.tree.kids[p] == []
    ensures Drain(f, p, rank) == f
  {
  }

  lemma StillFreeable(f: Forest, p: Addr, h: Addr, rank: map<Addr, int>)
    requires Inv(f) && p in Live(f) && p != f.nullCtx && Ranked(f, rank, p) && f.refs.list[p] != [] && h == f.refs.list[p][0]
    ensures h in f.refs.target && f.refs.target[h] in f.refs.list && h in f.dtor && h in f.tree.up
    ensures var g := HandleFreed(f, h);
      Inv(g) && p in Live(g) && p != g.nullCtx && Ranked(g, rank, p) && Mobile(g) < Mobile(f) && Live(g) <= Live(f)
  {
    hide Ranked, HandleFreed;
    FreeLosesHandle(f, p, rank);
    IsHandle(f, h);
  }
}
