/**
 Where a free does not do what a caller might expect: states in which it walks through a chunk that
 it has released, and references from the null context.
 */
module FreeLimits {
  import opened Seqs
  import opened ChildLists
  import opened RefLists
  import opened Forests
  import opened Ownership
  import opened FreeRounds
  import opened FreeTheorem
  import opened Operations
  import opened Acyclicity
  import opened StaleReads
  import opened SafeFrees

  // ------------------------------------------------------------------ references from the null context

  /** While `p` is emptied, its referenced child `c` goes to the context of the newest reference exactly
      when that context is not the null context, or the parent that `p` had is the null context anyway.
      A reference from the null context gives way to that parent. */
  lemma NewestContextTakesOver(f: Forest, p: Addr, c: Addr, rank: map<Addr, int>)
    requires Emptied(f, p, rank) && HeadChild(f, p, c) && c in f.refs.list && f.refs.list[c] != [] && ParentLives(f, p)
    ensures f.refs.list[c][0] in f.tree.up && p in f.tree.up && c in NextRound(f, p, rank).tree.up
    ensures var q := Context(f, f.tree.up[f.refs.list[c][0]]);
      && (NextRound(f, p, rank).tree.up[c] == q <==> q != f.nullCtx || Context(f, f.tree.up[p]) == f.nullCtx)
      && (q == f.nullCtx ==> NextRound(f, p, rank).tree.up[c] == Context(f, f.tree.up[p]))
  {
    hide Inv, Ranked, HandleFreed, DrainRound, Free;
    RoundReferenced(f, p, c, rank);
    HolderOk(f, p, c, rank);
    var h := f.refs.list[c][0];
    HandleFreedFacts(f, h);
    var f1 := HandleFreed(f, h);
    NoHandleParent(f, p, h, c, rank);
  }

  lemma HandleFreedFacts(f: Forest, h: Addr)
    requires Inv(f) && h in f.refs.target
    ensures h in f.tree.up && h in f.dtor && f.refs.target[h] in f.refs.list
    ensures var g := HandleFreed(f, h); g.nullCtx == f.nullCtx && g.tree.up == f.tree.up - {h} && Live(g) == Live(f) - {h}
  {
    HandleFacts(f, h);
    HandleFreedOk(f, h);
  }

  lemma NoHandleParent(f: Forest, p: Addr, h: Addr, c: Addr, rank: map<Addr, int>)
    requires Emptied(f, p, rank) && h in f.refs.target && p in f.tree.up && ParentLives(f, p) && h in f.tree.up
    requires c in f.tree.up && f.tree.up[c] == p
    ensures f.tree.up[p] != h && f.tree.up[p] != c && p != NULL && NULL !in Live(f) && Up(f.tree.up, p) == f.tree.up[p]
  {
    KeysAgree(f);
  }

  // ------------------------------------------------------------------ the first round

  /** The first child `c` of `p` has its newest reference `h` right in front of `p`. */
  ghost predicate HandleInFront(f: Forest, p: Addr, c: Addr, h: Addr, rank: map<Addr, int>) {
    && Inv(f) && f.tree.out == {} && p in Live(f) && p != f.nullCtx && p !in f.refs.target && Ranked(f, rank, NULL)
    && p in f.refs.list && f.refs.list[p] == [] && p in f.dtor && f.dtor[p] != Refuses && p in f.tree.up
    && f.tree.kids[p] != [] && c == f.tree.kids[p][0] && c in f.refs.list && f.refs.list[c] != [] && h == f.refs.list[c][0]
    && Predecessor(f.tree, p) == h
  }

  /** What one round changed: `h` is gone, `c` has moved to `a`, the rest is as it was. */
  ghost predicate OnlyMoved(f: Forest, g: Forest, p: Addr, c: Addr, h: Addr, a: Addr)
    requires p in f.tree.kids && f.tree.kids[p] != []
  {
    && p in g.tree.kids && h !in Live(g) && g.tree.kids[p] == f.tree.kids[p][1..]
    && g.tree.up == (f.tree.up - {h})[c := a] && g.nullCtx == f.nullCtx
    && (forall x :: x in f.refs.list && x != c && x != h ==> x in g.refs.list && g.refs.list[x] == f.refs.list[x])
    && (forall x :: x in f.dtor && x != h ==> x in g.dtor && g.dtor[x] == f.dtor[x])
    && (forall x :: x in g.refs.target ==> x in f.refs.target)
  }

  lemma HandleFreedShape(f: Forest, p: Addr, h: Addr)
    requires Inv(f) && h in f.refs.target && p in Live(f) && p !in f.refs.target && h in f.tree.up && f.tree.up[h] != p
    ensures h in f.dtor && f.refs.target[h] in f.refs.list
    ensures var g := HandleFreed(f, h);
      && p in g.tree.kids && g.tree.kids[p] == f.tree.kids[p] && g.tree.up == f.tree.up - {h} && g.nullCtx == f.nullCtx
      && h !in Live(g) && g.refs.target == f.refs.target - {h}
      && (forall x :: x in f.refs.list && x != f.refs.target[h] && x != h ==> x in g.refs.list && g.refs.list[x] == f.refs.list[x])
      && (forall x :: x in f.dtor && x != h ==> x in g.dtor && g.dtor[x] == f.dtor[x])
  {
    HandleFacts(f, h);
    hide TreeInv, RefsInv;
  }

  lemma StolenShape(f: Forest, p: Addr, a: Addr, c: Addr)
    requires Inv(f) && p in Live(f) && f.tree.kids[p] != [] && c == f.tree.kids[p][0] && c in f.tree.up && f.tree.up[c] == p
    requires (a == NULL || a in f.tree.kids) && (f.nullCtx == NULL || f.nullCtx in f.tree.kids)
    requires var q := if a == NULL then f.nullCtx else a; q != p && q != c
    ensures var g := Stolen(f, a, c);
      && p in g.tree.kids && g.tree.kids[p] == f.tree.kids[p][1..]
      && g.tree.up == f.tree.up[c := if a == NULL then f.nullCtx else a]
      && g.nullCtx == f.nullCtx && g.refs == f.refs && g.dtor == f.dtor && Live(g) == Live(f)
  {
    assert KidsOk(f.tree, p);
    DropHead(f.tree.kids[p]);
  }

  /** The adopter of `c` is neither `c` nor `p`. */
  lemma AdopterApart(f: Forest, p: Addr, c: Addr, h: Addr, rank: map<Addr, int>)
    requires Emptied(f, p, rank) && HeadChild(f, p, c) && c in f.refs.list && f.refs.list[c] != [] && h == f.refs.list[c][0]
    requires h in f.tree.up && f.tree.up[h] != p && h in f.refs.target && f.refs.target[h] in f.refs.list && h in f.dtor
    ensures p in HandleFreed(f, h).tree.up
    ensures var a := Adopter(HandleFreed(f, h), p, Holder(f, c));
      var q := if a == NULL then f.nullCtx else a; q != p && q != c
  {
    FreeLosesHandle(f, c, rank) by { RankedAny(f, rank, c); HolderOk(f, p, c, rank); }
    HolderOk(f, p, c, rank);
    KeysAgree(f);
    HandleFreedFacts(f, h);
    assert UpOk(f.tree, p) && UpOk(f.tree, h);
    hide TreeInv, RefsInv, HandleFreed, Shrinks;
  }

  lemma MovedAway(f: Forest, p: Addr, c: Addr, h: Addr, rank: map<Addr, int>) returns (a: Addr)
    requires Emptied(f, p, rank) && HeadChild(f, p, c) && c in f.refs.list && f.refs.list[c] != [] && h == f.refs.list[c][0]
    requires h in f.tree.up && f.tree.up[h] != p && p !in f.refs.target
    ensures OnlyMoved(f, NextRound(f, p, rank), p, c, h, a)
  {
    hide Inv, Ranked, HandleFreed, DrainRound, Free, Stolen, Adopter, Holder;
    RoundReferenced(f, p, c, rank);
    HolderOk(f, p, c, rank);
    HandleFreedFacts(f, h);
    HandleFreedShape(f, p, h);
    AdopterApart(f, p, c, h, rank);
    var f1 := HandleFreed(f, h);
    HandleFreedInv(f, h);
    var b := Adopter(f1, p, Holder(f, c));
    StolenShape(f1, p, b, c);
    a := if b == NULL then f1.nullCtx else b;
  }

  lemma EmptyingHead(f: Forest, p: Addr, c: Addr)
    requires Inv(f) && p in Live(f) && p !in f.refs.target && p in f.dtor && p in f.tree.up && f.dtor[p] != Refuses
    requires f.tree.kids[p] != [] && c == f.tree.kids[p][0] && c in f.refs.list
    ensures p in Emptying(f, p).tree.kids && Emptying(f, p).tree.kids[p] == f.tree.kids[p] && Emptying(f, p).refs == f.refs
  {
    assert UpOk(f.tree, p);
  }

  /** After the round that deals with `c`, the handle to which `p` points back is gone. */
  lemma AfterFirstRound(f: Forest, p: Addr, c: Addr, h: Addr, rank: map<Addr, int>) returns (a: Addr)
    requires HandleInFront(f, p, c, h, rank)
    ensures var e := Emptying(f, p);
      && Emptied(e, p, rank) && e.tree.kids[p] != [] && h != NULL && e.tree.up == f.tree.up && e.tree.kids[p] == f.tree.kids[p]
      && e.refs == f.refs && e.nullCtx == f.nullCtx && (forall x :: x in f.dtor && x != p ==> x in e.dtor && e.dtor[x] == f.dtor[x])
      && var g := NextRound(e, p, rank);
      && Emptied(g, p, rank) && g.tree.out == {p} && OnlyMoved(e, g, p, c, h, a)
  {
    hide Inv, Ranked, HandleFreed, DrainRound, Free, Emptying, Shrinks, OnlyMoved, NextRound, Predecessor;
    FrontHangs(f, p, c, h, rank);
    RankedAny(f, rank, p);
    FreeStep(f, p, rank);
    EmptyingFacts(f, p);
    EmptyingHead(f, p, c);
    var e := Emptying(f, p);
    DrainStep(e, p, rank);
    SameOut(e, NextRound(e, p, rank));
    a := MovedAway(e, p, c, h, rank);
  }

  lemma FrontHangs(f: Forest, p: Addr, c: Addr, h: Addr, rank: map<Addr, int>)
    requires HandleInFront(f, p, c, h, rank)
    ensures h != NULL && h in f.tree.up && f.tree.up[h] == f.tree.up[p] && f.tree.up[h] != p
  {
    KeysAgree(f);
    PredecessorHangs(f, p);
    assert ListOk(f.refs, c) && h in f.refs.list[c];
    HandleFacts(f, h);
    assert UpOk(f.tree, p);
  }

  // ------------------------------------------------------------------ walks through a released chunk

  /** The second child refuses: `p` looks for its parent through the released handle. */
  lemma RefuserWalksBack(f: Forest, p: Addr, c: Addr, h: Addr, r: Addr, rank: map<Addr, int>)
    requires HandleInFront(f, p, c, h, rank) && |f.tree.kids[p]| > 1 && r == f.tree.kids[p][1] && r != h && r != c && r != p
    requires r in f.refs.list && f.refs.list[r] == [] && r in f.dtor && f.dtor[r] == Refuses
    ensures !SafeToFree(f, p)
  {
    hide Inv, Ranked, Drain, Shrinks, Free, NextRound, Emptying, Predecessor;
    var a := AfterFirstRound(f, p, c, h, rank);
    var e := Emptying(f, p);
    var g := NextRound(e, p, rank);
    SecondRefuses(g, p, r, rank, h);
    NotSafe(f, p, c, h, rank);
  }

  lemma SecondRefuses(g: Forest, p: Addr, r: Addr, rank: map<Addr, int>, y: Addr)
    requires Emptied(g, p, rank) && g.tree.kids[p] != [] && r == g.tree.kids[p][0]
    requires r in g.refs.list && g.refs.list[r] == [] && r in g.dtor && g.dtor[r] == Refuses && !Alive(g, y)
    ensures !DrainReadsLive(g, p, rank, Back(p, y))
  {
    hide Inv, Ranked, Drain, Shrinks, FreeReadsLive, DrainRound;
    HolderOk(g, p, r, rank);
    RankedAny(g, rank, r);
    DrainStep(g, p, rank);
    RoundRefused(g, p, r, rank);
  }

  /** When the rounds after the first walk through a released chunk, the free does. */
  lemma NotSafe(f: Forest, p: Addr, c: Addr, h: Addr, rank: map<Addr, int>)
    requires HandleInFront(f, p, c, h, rank)
    requires Emptied(Emptying(f, p), p, rank) && Emptying(f, p).tree.kids[p] != []
    requires Emptied(NextRound(Emptying(f, p), p, rank), p, rank)
    requires !DrainReadsLive(NextRound(Emptying(f, p), p, rank), p, rank, Back(p, h))
    ensures !SafeToFree(f, p)
  {
    hide Inv, Ranked, Drain, Shrinks, NextRound, Emptying, Predecessor, FreeWalks, Free;
    RankedAny(f, rank, p);
    var e := Emptying(f, p);
    HolderOk(e, p, e.tree.kids[p][0], rank);
    RankedAny(e, rank, e.tree.kids[p][0]);
    DrainStep(e, p, rank);
    assert !DrainReadsLive(e, p, rank, Back(p, h));
    LastWalkDecides(f, p, rank, Back(p, h));
    SafeExactly(f, p, rank);
  }

  /** The second child is referenced from further down: checking where that reference hangs walks through
      the released handle, although nothing refuses. */
  lemma CheckWalksBack(f: Forest, p: Addr, c: Addr, h: Addr, r: Addr, k: Addr, rank: map<Addr, int>)
    requires HandleInFront(f, p, c, h, rank) && |f.tree.kids[p]| > 1 && r == f.tree.kids[p][1] && r != h && r != c && r != p
    requires r in f.refs.list && f.refs.list[r] != [] && k == f.refs.list[r][0] && k != h && k != c
    requires k in f.tree.up && f.tree.up[k] in f.tree.up && f.tree.up[f.tree.up[k]] == p && f.tree.up[k] != c && f.tree.up[k] != h
    ensures !SafeToFree(f, p)
  {
    hide Inv, Ranked, Drain, Shrinks, Free, NextRound, Emptying, Predecessor;
    var a := AfterFirstRound(f, p, c, h, rank);
    var g := NextRound(Emptying(f, p), p, rank);
    TwoUp(g.tree, k);
    SecondChecked(g, p, r, k, rank, h);
    NotSafe(f, p, c, h, rank);
  }

  lemma TwoUp(t: Tree, k: Addr)
    requires k in t.up && t.up[k] in t.up
    ensures Above(t, t.up[t.up[k]], k)
  {
    assert UpN(t, k, 0) == k;
    assert UpN(t, k, 1) == t.up[k];
    assert UpN(t, k, 2) == t.up[t.up[k]];
  }

  lemma SecondChecked(g: Forest, p: Addr, r: Addr, k: Addr, rank: map<Addr, int>, y: Addr)
    requires Emptied(g, p, rank) && g.tree.kids[p] != [] && r == g.tree.kids[p][0]
    requires r in g.refs.list && g.refs.list[r] != [] && k == g.refs.list[r][0] && Above(g.tree, p, k) && !Alive(g, y)
    ensures !DrainReadsLive(g, p, rank, Back(p, y))
  {
    hide Inv, Ranked, Drain, Shrinks, DrainRound, Above, HandleFreed, Emptying;
    HolderOk(g, p, r, rank);
    RankedAny(g, rank, r);
    DrainStep(g, p, rank);
    assert WalksThrough(g, Back(p, y), k);
    assert !FreeReadsLive(g, r, rank, Back(p, y));
  }
}
