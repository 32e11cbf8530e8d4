/** What the allocator relies on while it frees the null context. */
module NullSteps {
  import opened Seqs
  import opened ChildLists
  import opened RefLists
  import opened Forests
  import opened Siblings
  import opened RefLinks
  import opened Tlist
  import opened Walks
  import opened Acyclicity
  import opened TopLevel
  import opened FreeRounds
  import opened DownSets
  import opened StaleReads
  import opened Fences
  import opened TallocSteps
  import opened TallocCalls
  import opened SafeFrees
  import opened NullContext

  /** The fence for the free of `c`, which may be a handle. */
  ghost function FenceFor(f: Forest, c: Addr): set<Addr> {
    if c in f.refs.target then Live(f) else Subtree(f, c)
  }

  ghost function BackFor(f: Forest, c: Addr): Back {
    if c in f.refs.target then Back(NULL, NULL) else Back(c, Predecessor(f.tree, c))
  }

  /** The first child of the null context may be freed: nothing stands in front of it. */
  lemma FirstMayGo(l: Links, f: Forest, rank: map<Addr, int>)
    requires Tracked(f, rank) && SibRep(l, f.tree) && f.nullCtx in f.tree.kids && f.tree.kids[f.nullCtx] != []
    ensures var c := f.tree.kids[f.nullCtx][0]; var b, m := FenceFor(f, c), BackFor(f, c);
      && c in Live(f) && c != f.nullCtx && c in f.refs.list && Fenced(l.prev, f, b, m) && InFence(f, b, c)
      && (c !in f.refs.target ==> ReadsLive(f, c, rank, m) && Entry(l.prev, f, b, m, c))
  {
    hide Inv, Ranked, Down, SibRep, Fenced, InFence, Entry, FreeReadsLive, Predecessor;
    HeadOfNull(f, rank);
    var c := f.tree.kids[f.nullCtx][0];
    if c in f.refs.target {
      FenceOfHandle(l, f, c);
    } else {
      FenceOfCall(l, f, c, rank);
      NothingInFront(f, rank);
      SubtreeDown(f, c);
      FreeSheltered(f, c, rank, Subtree(f, c), BackFor(f, c));
    }
  }

  lemma NothingInFront(f: Forest, rank: map<Addr, int>)
    requires Tracked(f, rank) && f.nullCtx in f.tree.kids && f.tree.kids[f.nullCtx] != []
    ensures Predecessor(f.tree, f.tree.kids[f.nullCtx][0]) == NULL
  {
    HeadOfNull(f, rank);
  }

  /** What the free of the first child came to. */
  lemma FirstFreed(f: Forest, rank: map<Addr, int>, g: Forest, ret: int)
    requires Tracked(f, rank) && f.nullCtx in f.tree.kids && f.tree.kids[f.nullCtx] != []
    requires var c := f.tree.kids[f.nullCtx][0];
      if c in f.refs.target then HandleGone(f, c, g, ret) else ChunkFreed(f, c, rank, g, ret)
    ensures var c := f.tree.kids[f.nullCtx][0];
      c in Live(f) && c != f.nullCtx && Ranked(f, rank, c) && (g, ret) == Free(f, c, rank) && g.tree.out == {}
  {
    hide Inv, Ranked, Free, HandleFreed, Shrinks;
    HeadOfNull(f, rank);
    var c := f.tree.kids[f.nullCtx][0];
    if c in f.refs.target {
      FreeOfHandle(f, c, rank);
    }
    SameOut(f, Free(f, c, rank).0);
  }

  lemma FirstIs(l: Links, k: Hooks, d: map<Addr, Destructor>, sized: set<Addr>, calls: seq<Addr>, f: Forest, p: Addr)
    requires Represents(l, k, d, sized, calls, f) && p in Live(f) && f.tree.kids[p] != []
    ensures p in l.child && l.child[p] == f.tree.kids[p][0]
  {
    hide Inv, RefRep, DtorRep, Linked, HeadMarked;
    ListOf(l, f.tree, p);
  }

  lemma NullListed(l: Links, k: Hooks, d: map<Addr, Destructor>, sized: set<Addr>, calls: seq<Addr>, f: Forest)
    requires Represents(l, k, d, sized, calls, f) && f.nullCtx != NULL
    ensures f.nullCtx in l.child && f.nullCtx in f.tree.kids && (l.child[f.nullCtx] == NULL <==> f.tree.kids[f.nullCtx] == [])
  {
    hide Inv, RefRep, DtorRep, SibRep;
    NullCtxLive(f);
    LoopFacts(l, k, d, sized, calls, f, f.nullCtx);
  }

  lemma RoundsFrom(f: Forest, rank: map<Addr, int>)
    requires Tracked(f, rank)
    ensures Rounds(f, rank, 0) == f
  {
    hide Inv, Ranked, Rooted;
  }

  /** A round after `n` rounds. */
  lemma {:induction false} OneMore(f: Forest, rank: map<Addr, int>, n: nat, g: Forest)
    requires Tracked(f, rank) && g == Rounds(f, rank, n) && g.nullCtx in g.tree.kids && g.tree.kids[g.nullCtx] != []
    ensures Rounds(f, rank, n + 1) == NullRound(g, rank)
    decreases n
  {
    hide Inv, Ranked, Rooted, Shrinks, NullRound;
    HeadOfNull(f, rank);
    if f.tree.kids[f.nullCtx] != [] {
      RoundKeeps(f, rank);
      if n > 0 {
        OneMore(NullRound(f, rank), rank, n - 1, g);
      } else {
        RoundsFrom(NullRound(f, rank), rank);
      }
    }
  }

  lemma StillNoneRefuses(f: Forest, g: Forest)
    requires Shrinks(f, g) && forall x :: x in f.dtor && x != f.nullCtx ==> f.dtor[x] != Refuses
    ensures forall x :: x in g.dtor && x != g.nullCtx ==> g.dtor[x] != Refuses
  {
  }
}
