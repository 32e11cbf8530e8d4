/**
 Who owns what while the null context is freed, and the order in which the destructors run.
 */
module NullOrder {
  import opened Seqs
  import opened ChildLists
  import opened RefLists
  import opened Forests
  import opened Ownership
  import opened FreeRounds
  import opened FreeTheorem
  import opened DownSets
  import opened Acyclicity
  import opened TopLevel
  import opened NullContext
  import opened OwnerOrder

  // ------------------------------------------------------------------ one round

  /** A referenced first child goes from the null context to the context of its newest reference. */
  lemma ReferencedHead(f: Forest, rank: map<Addr, int>)
    requires Tracked(f, rank) && f.nullCtx in f.tree.kids && f.tree.kids[f.nullCtx] != []
    requires var c := f.tree.kids[f.nullCtx][0]; c in f.refs.list && f.refs.list[c] != []
    ensures var c := f.tree.kids[f.nullCtx][0]; var h := f.refs.list[c][0];
      && h in f.refs.target && h in f.tree.up && f.refs.target[h] == c
      && ReferencedChild(f, f.nullCtx, c, h, f.tree.up[h], HandleFreed(f, h))
      && NullRound(f, rank) == Stolen(HandleFreed(f, h), f.tree.up[h], c)
  {
    hide Inv, Ranked, HandleFreed, Stolen, Rooted;
    HeadOfNull(f, rank);
    var c := f.tree.kids[f.nullCtx][0];
    NewestHangs(f, c);
    var h := f.refs.list[c][0];
    FreeReferenced(f, c, rank);
    HandleEdges(f, h);
    HandleFreedOk(f, h);
    TakerOk(f, rank, HandleFreed(f, h)) by { IsChunk(f, c); }
    IsChunk(f, c);
    RootedUp(f, h);
    assert Settled(f, c) by { SettledHead(f, c); }
    HandleFreedOwners(f, h, c, {});
    assert Holder(f, c) == f.tree.up[h];
    NotSelf(f, rank, c, h);
  }

  /** A referenced chunk is no handle. */
  lemma IsChunk(f: Forest, c: Addr)
    requires Inv(f) && c in f.refs.list && f.refs.list[c] != []
    ensures c !in f.refs.target
  {
    assert c in f.refs.target ==> HandleOk(f, c);
  }

  lemma RootedUp(f: Forest, h: Addr)
    requires Inv(f) && f.nullCtx != NULL && Rooted(f) && h in f.refs.target && h in f.tree.up
    ensures f.tree.up[h] != NULL
  {
    hide TreeInv, RefsInv;
  }

  lemma SettledHead(f: Forest, c: Addr)
    requires Inv(f) && c in Live(f) && f.tree.out == {} && c !in f.refs.target
    ensures Settled(f, c)
  {
    KeysAgree(f);
  }

  lemma NotSelf(f: Forest, rank: map<Addr, int>, c: Addr, h: Addr)
    requires Inv(f) && Ranked(f, rank, NULL) && h in f.refs.target && h in f.tree.up && f.refs.target[h] == c && f.tree.up[h] != NULL
    ensures f.tree.up[h] != c
  {
    EdgeRanks(f, rank, f.tree.up[h], c);
  }

  /** After a round a referenced first child has lost its first owner, the null context, and no other, so that the context of
      its newest reference is its parent; nobody else's owners have changed, and only that reference is gone. */
  lemma HeadLosesNull(f: Forest, rank: map<Addr, int>)
    requires Tracked(f, rank) && f.nullCtx in f.tree.kids && f.tree.kids[f.nullCtx] != []
    requires var c := f.tree.kids[f.nullCtx][0]; c in f.refs.list && f.refs.list[c] != []
    ensures var c, g := f.tree.kids[f.nullCtx][0], NullRound(f, rank);
      && Settled(f, c) && Settled(g, c) && Live(g) == Live(f) - {f.refs.list[c][0]}
      && Owners(f, c)[0] == f.nullCtx && Owners(g, c) == Owners(f, c)[1..] && g.tree.up[c] == Owners(f, c)[1]
      && forall x :: Settled(f, x) && x != c ==> Settled(g, x) && Owners(g, x) == Owners(f, x) && g.dtor[x] == f.dtor[x]
  {
    hide Inv, Ranked, HandleFreed, Stolen, Rooted;
    ReferencedHead(f, rank);
    var c := f.tree.kids[f.nullCtx][0];
    var h := f.refs.list[c][0];
    var q := f.tree.up[h];
    HandleEdges(f, h);
    var f1 := HandleFreed(f, h);
    ReferencedOwners(f, f.nullCtx, c, h, q, f1);
    StolenInv(f1, q, c) by { ContextIsChunk(f, h); }
    var g := Stolen(f1, q, c);
    forall x | Settled(f, x) && x != c ensures Settled(g, x) && Owners(g, x) == Owners(f, x) && g.dtor[x] == f.dtor[x] {
      OtherSettled(f, h, f1, q, c, x);
      ReferencedRest(f, h, q, c, x);
    }
  }

  lemma ContextIsChunk(f: Forest, h: Addr)
    requires Inv(f) && h in f.refs.target && h in f.tree.up && f.tree.up[h] != NULL
    ensures f.tree.up[h] !in f.refs.target
  {
    assert HandleOk(f, h) && UpOk(f.tree, h);
    assert f.tree.up[h] in f.refs.target ==> HandleOk(f, f.tree.up[h]);
  }

  lemma OtherSettled(f: Forest, h: Addr, f1: Forest, q: Addr, c: Addr, x: Addr)
    requires Inv(f) && Inv(f1) && h in f.refs.target && h in f.tree.up && f.refs.target[h] in f.refs.list && h in f.dtor && f1 == HandleFreed(f, h)
    requires Settled(f, x) && x != c && c in Live(f1) && c in f1.tree.up && c != f1.nullCtx && c !in f1.tree.out
    requires q in Live(f1) && q != c && q != NULL && (f1.nullCtx == NULL || f1.nullCtx in f1.tree.kids)
    ensures Settled(Stolen(f1, q, c), x)
  {
    hide Inv, Stolen, HandleFreed;
    HandleFreedOwners(f, h, x, {});
    MoveUp(f1, q, c);
    SameDtor(f1, q, c);
  }

  lemma SameDtor(f: Forest, q: Addr, c: Addr)
    requires c in f.tree.up && (q == NULL || q in f.tree.kids) && (f.nullCtx == NULL || f.nullCtx in f.tree.kids)
    ensures Stolen(f, q, c).dtor == f.dtor
  {
  }

  /** The round that frees an unreferenced first child. */
  lemma AcceptedHead(f: Forest, rank: map<Addr, int>)
    requires Tracked(f, rank) && f.nullCtx in f.tree.kids && f.tree.kids[f.nullCtx] != []
    requires var c := f.tree.kids[f.nullCtx][0]; c in f.refs.list && f.refs.list[c] == [] && c in f.dtor && f.dtor[c] != Refuses
    ensures var c := f.tree.kids[f.nullCtx][0];
      && c in Live(f) && c in f.tree.up && c != f.nullCtx && Ranked(f, rank, c) && NullRound(f, rank) == Free(f, c, rank).0
  {
    hide Inv, Ranked, Rooted, Drain, Stolen;
    HeadOfNull(f, rank);
    FreeStep(f, f.tree.kids[f.nullCtx][0], rank);
  }

  /** When it accepts, and no reference to a chunk below it hangs from the null context, every survivor keeps its surviving
      owners in order; one that lost them all refused, and hangs from the null context. */
  lemma AcceptedHeadSweeps(f: Forest, rank: map<Addr, int>)
    requires Tracked(f, rank) && f.nullCtx in f.tree.kids && f.tree.kids[f.nullCtx] != []
    requires var c := f.tree.kids[f.nullCtx][0];
      c in f.refs.list && f.refs.list[c] == [] && c in f.dtor && f.dtor[c] != Refuses && c !in f.refs.target && OwnedIn(f, Subtree(f, c))
    ensures var c, g := f.tree.kids[f.nullCtx][0], NullRound(f, rank);
      && c !in Live(g) && Swept(f, g, Live(f) - Live(g), f.nullCtx, c)
  {
    hide Inv, Ranked, Rooted, Drain, Stolen, Free, Swept, Down, Subtree, OwnedIn, Shrinks;
    AcceptedHead(f, rank);
    HeadOfNull(f, rank);
    var c := f.tree.kids[f.nullCtx][0];
    SubtreeDown(f, c);
    FreeSweeps(f, c, rank, Subtree(f, c));
    FreeStep(f, c, rank);
    var g := Free(f, c, rank).0;
    assert Dead(f, g, c) == Live(f) - Live(g);
    assert Fallback(f, c) == f.nullCtx;
  }

  // ------------------------------------------------------------------ the log of a round

  lemma RoundLogged(f: Forest, rank: map<Addr, int>) returns (log: seq<Addr>)
    requires Tracked(f, rank) && f.nullCtx in f.tree.kids && f.tree.kids[f.nullCtx] != []
    ensures Logged(f, NullRound(f, rank), log) && Passed(f, NullRound(f, rank), NULL)
  {
    hide Inv, Ranked, Rooted, Free, Logged, Passed, HandleFreed, Stolen, NullRound, Low, Shrinks;
    HeadOfNull(f, rank);
    var c := f.tree.kids[f.nullCtx][0];
    log := [];
    if c in f.refs.target {
      HandleHead(f, rank);
      HandlePasses(f, c);
      HandleEdges(f, c);
      NoLog(f, HandleFreed(f, c));
    } else if f.refs.list[c] != [] {
      ReferencedHead(f, rank);
      var h := f.refs.list[c][0];
      HandleEdges(f, h);
      ContextIsChunk(f, h);
      MovePasses(f, c, h, f.tree.up[h]);
      StolenLive(HandleFreed(f, h), f.tree.up[h], c);
      NoLog(f, NullRound(f, rank));
    } else if f.dtor[c] == Refuses {
      StuckExactly(f, rank);
      NoLog(f, f);
      PassedSelf(f);
    } else {
      AcceptedHead(f, rank);
      LowAlone(f, c, rank);
      log := FreeLog(f, c, rank);
      OwnedByGone(f, c, Free(f, c, rank).0);
    }
  }

  lemma HandleHead(f: Forest, rank: map<Addr, int>)
    requires Tracked(f, rank) && f.nullCtx in f.tree.kids && f.tree.kids[f.nullCtx] != [] && f.tree.kids[f.nullCtx][0] in f.refs.target
    ensures var c := f.tree.kids[f.nullCtx][0];
      && c in f.tree.up && c in f.dtor && f.refs.target[c] in f.refs.list && NullRound(f, rank) == HandleFreed(f, c)
  {
    hide Inv, Ranked, Rooted, HandleFreed, Stolen;
    HeadOfNull(f, rank);
    var c := f.tree.kids[f.nullCtx][0];
    HandleEdges(f, c);
    FreeOfHandle(f, c, rank);
  }

  // ------------------------------------------------------------------ the whole loop

  lemma {:induction false} RoundsLogged(f: Forest, rank: map<Addr, int>, n: nat) returns (log: seq<Addr>)
    requires Tracked(f, rank)
    ensures Logged(f, Rounds(f, rank, n), log) && Passed(f, Rounds(f, rank, n), NULL)
    decreases n
  {
    hide Inv, Ranked, Rooted, Free, Logged, Passed, NullRound, Low, Shrinks, Rounds;
    HeadOfNull(f, rank);
    RoundsIs(f, rank, n);
    log := [];
    if n == 0 || f.tree.kids[f.nullCtx] == [] {
      NoLog(f, f);
      PassedSelf(f);
    } else {
      RoundKeeps(f, rank);
      var g := NullRound(f, rank);
      var h := Rounds(g, rank, n - 1);
      var l1 := RoundLogged(f, rank);
      var l2 := RoundsLogged(g, rank, n - 1);
      SameOut(f, g);
      LowNull(g, rank);
      forall y | y in l2 ensures Rk(rank, y) > Rk(rank, f.nullCtx) {
        LoggedChunk(g, h, l2, y);
        SameOut(g, h);
        HeadOfNull(h, rank);
        NullLowest(g, rank, y);
      }
      LogsJoin(f, g, h, l1, l2, rank, Rk(rank, f.nullCtx));
      PassedOn(f, g, h, NULL);
      log := l1 + l2;
    }
  }

  lemma RoundsIs(f: Forest, rank: map<Addr, int>, n: nat)
    requires Tracked(f, rank)
    ensures f.nullCtx in f.tree.kids
    ensures n == 0 || f.tree.kids[f.nullCtx] == [] ==> Rounds(f, rank, n) == f
    ensures n > 0 && f.tree.kids[f.nullCtx] != [] ==>
      Tracked(NullRound(f, rank), rank) && Rounds(f, rank, n) == Rounds(NullRound(f, rank), rank, n - 1)
  {
    hide Inv, Ranked, Rooted, NullRound, Shrinks;
    HeadOfNull(f, rank);
    if n > 0 && f.tree.kids[f.nullCtx] != [] {
      RoundKeeps(f, rank);
    }
  }

  lemma LowNull(f: Forest, rank: map<Addr, int>)
    requires f.tree.out == {}
    ensures Low(f, rank, Rk(rank, f.nullCtx))
  {
  }

  lemma NullLowest(f: Forest, rank: map<Addr, int>, y: Addr)
    requires Inv(f) && Ranked(f, rank, NULL) && f.nullCtx != NULL && y in Live(f) && y != f.nullCtx
    ensures Rk(rank, y) > Rk(rank, f.nullCtx)
  {
    KeysAgree(f);
    hide Inv;
  }

  /** Freeing the null context, up to any round and whatever references there are: the destructors that run successfully are
      those of exactly the released chunks that have one, each once, and none after that of a chunk that its chunk owned, as
      parent or by a reference, directly or not. */
  lemma NullDestructorsInOrder(f: Forest, rank: map<Addr, int>, n: nat) returns (log: seq<Addr>)
    requires Tracked(f, rank)
    ensures var g := Rounds(f, rank, n);
      && g.calls == f.calls + log && NoDup(log)
      && (forall x :: x in log <==> x in f.dtor && f.dtor[x] == Accepts && x !in Live(g))
      && (forall i, j :: 0 <= i < j < |log| ==> !Reaches(f, log[j], log[i]))
  {
    hide Inv, Ranked, Rooted, Rounds, Reaches, Passed;
    log := RoundsLogged(f, rank, n);
  }

  /** And at every point a chunk that is still alive, other than the null context, owns everything that it owned. */
  lemma NullSurvivorsOwn(f: Forest, rank: map<Addr, int>, n: nat, a: Addr, x: Addr)
    requires Tracked(f, rank) && Edge(f, a, x) && x !in f.refs.target && a != f.nullCtx && a in Live(Rounds(f, rank, n))
    ensures x in Live(Rounds(f, rank, n)) && Edge(Rounds(f, rank, n), a, x)
  {
    hide Inv, Ranked, Rooted, Rounds, Edge, Logged, Shrinks;
    var _ := RoundsLogged(f, rank, n);
    EdgeLive(f, a, x);
    SameOut(f, Rounds(f, rank, n));
  }
}
