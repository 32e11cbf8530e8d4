/**
 Short runs after which the limits of a free show. Chunk 1 is a context, chunk 3 hangs from it and
 is freed.
 */
module Witnesses {
  import opened Seqs
  import opened ChildLists
  import opened RefLists
  import opened Forests
  import opened Ownership
  import opened FreeRounds
  import opened FreeTheorem
  import opened FreeResults
  import opened Operations
  import opened Acyclicity
  import opened Runs
  import opened StaleReads
  import opened DownSets
  import opened SafeFrees
  import opened FreeLimits
  import opened NullContext
  import opened ArraySizes
  import opened TopLevel
  import opened Unlinking

  /** Some run of calls leads to `f`. */
  ghost predicate Reachable(f: Forest) {
    exists nullCtx, states, calls :: IsRun(states, calls, nullCtx) && states[|calls|] == f
  }

  lemma ReachedNext(f: Forest, c: Call, g: Forest)
    requires Reachable(f) && Step(f, c, g)
    ensures Reachable(g)
  {
    hide Step;
    var nullCtx, states, calls :| IsRun(states, calls, nullCtx) && states[|calls|] == f;
    var s, k := states + [g], calls + [c];
    forall i | 0 <= i < |k| ensures Step(s[i], k[i], s[i + 1]) {
      if i < |calls| {
        assert Step(states[i], calls[i], states[i + 1]);
        assert s[i] == states[i] && s[i + 1] == states[i + 1] && k[i] == calls[i];
      }
    }
    assert IsRun(s, k, nullCtx) && s[|k|] == g;
  }

  /** A new chunk `a`, and all that changes. */
  lemma Grow(f: Forest, ctx: Addr, a: Addr) returns (g: Forest)
    requires Sound(f) && Reachable(f) && a !in Live(f) && a != NULL
    requires if ctx == NULL then f.nullCtx == NULL else (ctx in Live(f) && ctx !in f.refs.target)
    ensures Sound(g) && Reachable(g) && g.nullCtx == f.nullCtx && g.tree.out == {} && a !in g.refs.target
    ensures ctx != NULL ==> ctx in f.tree.kids && g.tree.kids == f.tree.kids[a := []][ctx := [a] + f.tree.kids[ctx]]
    ensures ctx == NULL ==> g.tree.kids == f.tree.kids[a := []]
    ensures g.tree.up == f.tree.up[a := ctx] && g.refs == f.refs.(list := f.refs.list[a := []]) && g.dtor == f.dtor[a := NoDtor]
  {
    hide Inv, Acyclic, Attach, Reachable;
    SoundParts(f);
    var c := Alloc(ctx, a);
    NextSound(f, c);
    g := Next(f, c);
    AllocatedInv(f, ctx, a);
    Added(f, ctx, a);
    ReachedNext(f, c, g);
  }

  lemma Added(f: Forest, ctx: Addr, a: Addr)
    requires a !in Live(f) && a != NULL && if ctx == NULL then f.nullCtx == NULL else ctx in Live(f)
    ensures var g := Allocated(f, ctx, a);
      && (ctx != NULL ==> g.tree.kids == f.tree.kids[a := []][ctx := [a] + f.tree.kids[ctx]])
      && (ctx == NULL ==> g.tree.kids == f.tree.kids[a := []])
      && g.tree.up == f.tree.up[a := ctx] && g.refs == f.refs.(list := f.refs.list[a := []]) && g.dtor == f.dtor[a := NoDtor]
  {
    assert f.tree.up[a := NULL][a := ctx] == f.tree.up[a := ctx];
  }

  /** A chunk without children owns nothing else. */
  lemma OwnsNothing(f: Forest, p: Addr, x: Addr)
    requires Sound(f) && p in Live(f) && f.tree.kids[p] == [] && x != p
    ensures !Reaches(f, p, x)
  {
    forall y ensures !Edge(f, p, y) {
      NoEdge(f, p, y);
    }
    hide Sound, Edge;
    forall s | Path(f, s) && s[0] == p ensures s[|s| - 1] == p {
      if |s| > 1 {
        PathAt(f, s, 1);
      }
    }
  }

  lemma NoEdge(f: Forest, p: Addr, y: Addr)
    requires Sound(f) && p in Live(f) && f.tree.kids[p] == []
    ensures !Edge(f, p, y)
  {
    KeysAgree(f);
    assert forall z :: z in f.tree.up ==> UpOk(f.tree, z);
    hide RefsInv, Acyclic;
  }

  /** A new reference `h` from `ctx` to the childless chunk `p`, and all that changes. */
  lemma Refer(f: Forest, ctx: Addr, p: Addr, h: Addr) returns (g: Forest)
    requires Sound(f) && Reachable(f) && h !in Live(f) && h != NULL && f.nullCtx == NULL && Settled(f, p) && f.tree.kids[p] == [] && ctx != p
    requires ctx == NULL || (ctx in Live(f) && ctx !in f.refs.target)
    ensures Sound(g) && Reachable(g) && g.nullCtx == NULL && g.tree.out == {}
    ensures ctx != NULL ==> ctx in f.tree.kids && g.tree.kids == f.tree.kids[h := []][ctx := [h] + f.tree.kids[ctx]]
    ensures ctx == NULL ==> g.tree.kids == f.tree.kids[h := []]
    ensures g.tree.up == f.tree.up[h := ctx] && g.dtor == f.dtor[h := NoDtor]
    ensures p in f.refs.list && g.refs.list == f.refs.list[h := []][p := [h] + f.refs.list[p]] && g.refs.target == f.refs.target[h := p]
  {
    hide Inv, Acyclic, Attach, Reaches, Reachable;
    SoundParts(f);
    KeysAgree(f);
    OwnsNothing(f, p, ctx);
    var c := Reference(ctx, p, h);
    NextSound(f, c);
    g := Next(f, c);
    Added(f, ctx, h);
    ReachedNext(f, c, g);
  }

  /** A context 1 with the chunk 3. */
  lemma Start() returns (f: Forest)
    ensures Sound(f) && Reachable(f) && f.nullCtx == NULL && f.tree.out == {}
    ensures f.tree.kids == map[1 := [3], 3 := []] && f.tree.up == map[1 := NULL, 3 := 1]
    ensures f.refs == Refs(map[1 := [], 3 := []], map[]) && f.dtor == map[1 := NoDtor, 3 := NoDtor]
  {
    hide Reachable, Sound;
    FreshSound(NULL);
    assert Reachable(Fresh(NULL)) by { ReachedFirst(NULL); }
    f := Grow(Fresh(NULL), NULL, 1);
    f := Grow(f, 1, 3);
    assert [3] + [] == [3];
  }

  lemma ReachedFirst(nullCtx: Addr)
    ensures Reachable(Fresh(nullCtx))
  {
    var states, calls: seq<Call> := [Fresh(nullCtx)], [];
    assert IsRun(states, calls, nullCtx) && states[|calls|] == Fresh(nullCtx);
  }

  predicate Known(f: Forest, x: Addr) {
    x in f.tree.kids && x in f.tree.up && x in f.refs.list && x in f.dtor
  }

  /** The context 1 has the handle 2 in front of the chunk 3, and 2 references the first child 4 of 3. */
  ghost predicate Front(f: Forest) {
    && Sound(f) && Reachable(f) && f.nullCtx == NULL && Known(f, 1) && Known(f, 2) && Known(f, 3) && Known(f, 4)
    && f.tree.kids[1] == [2, 3] && f.tree.up[1] == NULL && f.tree.up[2] == 1 && f.tree.up[3] == 1 && f.tree.up[4] == 3
    && f.tree.kids[3] != [] && f.tree.kids[3][0] == 4 && f.refs.list[3] == [] && f.refs.list[4] == [2]
    && 2 in f.refs.target && f.refs.target[2] == 4
    && 3 !in f.refs.target && f.dtor[3] == NoDtor
  }

  lemma FrontFacts(f: Forest) returns (rank: map<Addr, int>)
    requires Front(f)
    ensures Ranked(f, rank, NULL) && HandleInFront(f, 3, 4, 2, rank) && !Sheltered(f, 3)
  {
    rank :| Ranked(f, rank, NULL);
    hide Inv, Ranked, Above, Reachable;
    assert [2, 3][1..] == [3];
    assert Index([2, 3], 3) == 1;
    assert Predecessor(f.tree, 3) == 2;
    OneBelow(f.tree, 3, 4) by { SelfBelow(f.tree, 3); }
  }

  lemma SelfBelow(t: Tree, p: Addr)
    ensures Above(t, p, p)
  {
    assert UpN(t, p, 0) == p;
  }

  /** A new destructor for `p`. */
  lemma Refuse(f: Forest, p: Addr) returns (g: Forest)
    requires Sound(f) && Reachable(f) && Settled(f, p) && p != f.nullCtx
    ensures Sound(g) && Reachable(g) && g == f.(dtor := f.dtor[p := Refuses])
  {
    hide Inv, Acyclic, Reachable;
    var c := SetDestructor(p, Refuses);
    NextSound(f, c);
    g := Next(f, c);
    ReachedNext(f, c, g);
  }

  /** The context 1 has the chunk 3, and 4 is the first child of 3. */
  ghost predicate Grown(f: Forest) {
    && Sound(f) && Reachable(f) && f.nullCtx == NULL && f.tree.out == {} && Known(f, 1) && Known(f, 3) && Known(f, 4) && 2 !in Live(f)
    && f.tree.kids[1] == [3] && f.tree.up[1] == NULL && f.tree.up[3] == 1 && f.tree.up[4] == 3
    && f.tree.kids[3] != [] && f.tree.kids[3][0] == 4 && f.tree.kids[4] == [] && f.refs.list[3] == [] && f.refs.list[4] == []
    && f.refs.target.Keys !! {1, 2, 3, 4} && f.dtor[3] == NoDtor
  }

  /** Then 1 references 4. */
  lemma ReferFront(f: Forest) returns (g: Forest)
    requires Grown(f)
    ensures Front(g) && g.tree.kids[3] == f.tree.kids[3] && g.tree.up == f.tree.up[2 := 1] && g.dtor == f.dtor[2 := NoDtor]
    ensures g.nullCtx == NULL && g.refs.list == f.refs.list[2 := []][4 := [2]] && g.refs.target == f.refs.target[2 := 4]
  {
    hide Sound, Reachable;
    g := Refer(f, 1, 4, 2);
    assert [2] + [3] == [2, 3] && [2] + [] == [2];
  }

  lemma Ordinary() returns (f: Forest)
    ensures Front(f) && f.tree.up.Keys == {1, 2, 3, 4} && f.refs.target == map[2 := 4] && NoneRefuses(f)
  {
    hide Sound, Reachable, Front;
    f := Start();
    f := Grow(f, 3, 4);
    assert [4] + [] == [4];
    f := ReferFront(f);
  }

  lemma WithRefuser() returns (f: Forest)
    ensures Front(f) && f.tree.kids[3] == [4, 5] && f.refs.target == map[2 := 4]
    ensures 5 in f.refs.list && f.refs.list[5] == [] && 5 in f.dtor && f.dtor[5] == Refuses
  {
    hide Sound, Reachable;
    f := Start();
    f := Grow(f, 3, 5);
    assert [5] + [] == [5];
    f := Grow(f, 3, 4);
    assert [4] + [5] == [4, 5];
    f := Refuse(f, 5);
    hide Front;
    f := ReferFront(f);
  }

  /** The children 5 and 6 of 3; 6 references 5. */
  lemma InnerReference() returns (f: Forest)
    ensures Sound(f) && Reachable(f) && f.nullCtx == NULL && f.tree.out == {}
    ensures f.tree.kids == map[1 := [3], 3 := [5, 6], 5 := [], 6 := [7], 7 := []]
    ensures f.tree.up == map[1 := NULL, 3 := 1, 5 := 3, 6 := 3, 7 := 6]
    ensures f.refs == Refs(map[1 := [], 3 := [], 5 := [7], 6 := [], 7 := []], map[7 := 5])
    ensures f.dtor == map[1 := NoDtor, 3 := NoDtor, 5 := NoDtor, 6 := NoDtor, 7 := NoDtor]
  {
    hide Sound, Reachable;
    f := Start();
    f := Grow(f, 3, 6);
    assert [6] + [] == [6];
    f := Grow(f, 3, 5);
    assert [5] + [6] == [5, 6];
    f := Refer(f, 6, 5, 7);
    assert [7] + [] == [7];
  }

  lemma InnerReferenceGrown() returns (f: Forest)
    ensures Sound(f) && Reachable(f) && f.nullCtx == NULL && f.tree.out == {} && 4 !in f.refs.target
    ensures f.tree.kids == map[1 := [3], 3 := [4, 5, 6], 4 := [], 5 := [], 6 := [7], 7 := []]
    ensures f.tree.up == map[1 := NULL, 3 := 1, 4 := 3, 5 := 3, 6 := 3, 7 := 6]
    ensures f.refs.list == map[1 := [], 3 := [], 4 := [], 5 := [7], 6 := [], 7 := []] && f.refs.target == map[7 := 5]
    ensures f.dtor == map[1 := NoDtor, 3 := NoDtor, 4 := NoDtor, 5 := NoDtor, 6 := NoDtor, 7 := NoDtor]
  {
    hide Sound, Reachable;
    f := InnerReference();
    f := Grow(f, 3, 4);
    assert [4] + [5, 6] == [4, 5, 6];
  }

  lemma WithInnerReference() returns (f: Forest)
    ensures Front(f) && f.tree.kids[3] == [4, 5, 6] && NoneRefuses(f) && OwnedIn(f, Live(f))
    ensures 5 in f.refs.list && f.refs.list[5] == [7] && 7 in f.tree.up && f.tree.up[7] == 6 && 6 in f.tree.up && f.tree.up[6] == 3
  {
    hide Sound, Reachable, Front;
    f := InnerReferenceGrown();
    f := ReferFront(f);
  }

  /** The chunk 4 below 3 is referenced from the null context by the handle 2. */
  ghost predicate NullReferenced(f: Forest) {
    && Sound(f) && Reachable(f) && f.nullCtx == NULL && NoneRefuses(f)
    && f.tree == Tree(map[1 := [3], 2 := [], 3 := [4], 4 := []], map[1 := NULL, 2 := NULL, 3 := 1, 4 := 3], {})
    && f.refs == Refs(map[1 := [], 2 := [], 3 := [], 4 := [2]], map[2 := 4])
  }

  lemma WithNullReference() returns (f: Forest)
    ensures NullReferenced(f)
  {
    hide Sound, Reachable;
    f := Start();
    f := Grow(f, 3, 4);
    assert [4] + [] == [4];
    f := Refer(f, NULL, 4, 2);
    assert [2] + [] == [2];
  }

  /** Freeing 3 hands 4 to the chunk above 3 and not to the null context that references it. */
  lemma NullReferenceLost() returns (f: Forest)
    ensures NullReferenced(f) && Freeable(f, 3) && SafeToFree(f, 3)
    ensures var g := FreeOf(f, 3).0; 3 !in Live(g) && 4 in g.tree.up && g.tree.up[4] == 1 != g.nullCtx
  {
    f := WithNullReference();
    hide Inv, Ranked, Free, Reachable, FreeWalks;
    FirstHasNoPredecessor(f);
    var rank :| Ranked(f, rank, NULL);
    NullReferenceFreed(f, rank);
    FreeOfIs(f, 3, rank);
    SafeExactly(f, 3, rank);
  }

  lemma FirstHasNoPredecessor(f: Forest)
    requires NullReferenced(f)
    ensures Predecessor(f.tree, 3) == NULL
  {
    hide Sound, Reachable;
  }

  lemma NullReferenceFreed(f: Forest, rank: map<Addr, int>)
    requires NullReferenced(f) && Ranked(f, rank, NULL)
    ensures Inv(f) && 3 in Live(f) && Ranked(f, rank, 3)
    ensures var g := Free(f, 3, rank).0; 3 !in Live(g) && g.nullCtx == NULL && 4 in g.tree.up && g.tree.up[4] == 1
  {
    hide Inv, Ranked, Free, Drain, Emptying, NextRound, Reachable, Shrinks, NullReferenced;
    NullReferencedFacts(f);
    RankedAny(f, rank, 3);
    var g := NullReferenceRound(f, rank);
    FreeStep(f, 3, rank);
    DrainStep(Emptying(f, 3), 3, rank);
    DrainNothing(g, 3, rank);
  }

  lemma NullReferencedFacts(f: Forest)
    requires NullReferenced(f)
    ensures Inv(f) && 3 in Live(f) && 3 != f.nullCtx && 3 in f.refs.list && f.refs.list[3] == [] && 3 in f.dtor && f.dtor[3] != Refuses && 3 !in f.tree.out
  {
    hide Inv, Reachable, Sound;
    SoundParts(f);
    KeysAgree(f);
  }

  lemma NullReferenceRound(f: Forest, rank: map<Addr, int>) returns (g: Forest)
    requires NullReferenced(f) && Ranked(f, rank, NULL)
    ensures 3 in f.dtor && 3 in f.tree.up && 3 !in f.refs.target && Emptied(Emptying(f, 3), 3, rank) && Emptying(f, 3).tree.kids[3] != []
    ensures g == NextRound(Emptying(f, 3), 3, rank) && g.nullCtx == NULL
    ensures Emptied(g, 3, rank) && g.tree.kids[3] == [] && 4 in g.tree.up && g.tree.up[4] == 1
  {
    hide Inv, Ranked, Free, Drain, Emptying, NextRound, Shrinks, HandleFreed, OnlyMoved, Reachable, Sound, NoneRefuses;
    NullReferencedFacts(f);
    RankedAny(f, rank, 3);
    FreeStep(f, 3, rank);
    EmptyingFacts(f, 3);
    EmptyingHead(f, 3, 4);
    var e := Emptying(f, 3);
    DrainStep(e, 3, rank);
    g := NextRound(e, 3, rank);
    var a := MovedAway(e, 3, 4, 2, rank);
    MovedEmpty(e, g, a);
    NullRoundParent(e, rank);
  }

  lemma NullRoundParent(e: Forest, rank: map<Addr, int>)
    requires Emptied(e, 3, rank) && e.nullCtx == NULL && e.tree.kids[3] == [4] && 4 in e.refs.list && e.refs.list[4] == [2]
    requires e.tree.up == map[1 := NULL, 2 := NULL, 3 := 1, 4 := 3] && 1 !in e.refs.target
    ensures var g := NextRound(e, 3, rank); 4 in g.tree.up && g.tree.up[4] == 1
  {
    KeysAgree(e);
    hide Inv, Ranked, NextRound;
    NewestContextTakesOver(e, 3, 4, rank);
  }

  lemma MovedEmpty(e: Forest, g: Forest, a: Addr)
    requires 3 in e.tree.kids && e.tree.kids[3] == [4] && OnlyMoved(e, g, 3, 4, 2, a)
    ensures 3 in g.tree.kids && g.tree.kids[3] == [] && g.nullCtx == e.nullCtx
  {
  }

  /** A referenced child of a chunk that is freed, in the most ordinary order: 3 gets the child 4, then the
      context 1 references 4. The handle 2 is released while 3 is emptied and points back to it, but no walk
      follows that field. */
  lemma OrdinaryIsSafe() returns (f: Forest)
    ensures Reachable(f) && Front(f) && !Sheltered(f, 3) && Freeable(f, 3) && SafeToFree(f, 3)
  {
    f := Ordinary();
    hide Inv, Ranked, Above, Reachable, Sheltered, Calm;
    var rank := FrontFacts(f);
    RankedAny(f, rank, 3);
    OrdinaryQuiescent(f, rank);
    QuiescentIsSafe(f, 3, rank);
  }

  lemma OrdinaryQuiescent(f: Forest, rank: map<Addr, int>)
    requires Front(f) && NoneRefuses(f) && f.refs.target == map[2 := 4]
    ensures Quiescent(f, 3)
  {
    KeysAgree(f);
    hide Inv, Ranked, Above, Reachable;
    AboveEnds(f.tree, 3);
    AboveStep(f.tree, 3, 1);
    AboveStep(f.tree, 3, 2);
  }

  /** With a second child that refuses, the free looks for the parent of 3 through the released handle. */
  lemma RefuserIsUnsafe() returns (f: Forest)
    ensures Reachable(f) && Front(f) && f.refs.target == map[2 := 4] && !SafeToFree(f, 3)
  {
    f := WithRefuser();
    hide Inv, Ranked, Above, Reachable, Sheltered;
    var rank := FrontFacts(f);
    RefuserWalksBack(f, 3, 4, 2, 5, rank);
  }

  /** Nothing refuses and all handles hang from ordinary contexts, but a second child is referenced from
      further down: checking that reference walks through the released handle. */
  lemma InnerReferenceIsUnsafe() returns (f: Forest)
    ensures Reachable(f) && Front(f) && NoneRefuses(f) && OwnedIn(f, Live(f)) && !SafeToFree(f, 3)
  {
    f := WithInnerReference();
    hide Inv, Ranked, Above, Reachable, Sheltered, OwnedIn;
    var rank := FrontFacts(f);
    CheckWalksBack(f, 3, 4, 2, 5, 7, rank);
  }

  // ------------------------------------------------------------------ a null context that is never emptied

  /** The null context 1 has the child 3, which does not refuse, and 3 has the child 4, which does. */
  ghost predicate RefuserBelowNull(f: Forest) {
    && Sound(f) && Reachable(f) && f.nullCtx == 1 && f.tree.kids == map[1 := [3], 3 := [4], 4 := []]
    && f.refs.target == map[] && f.dtor == map[1 := NoDtor, 3 := NoDtor, 4 := Refuses]
  }

  lemma WithNullContext() returns (f: Forest)
    ensures RefuserBelowNull(f)
  {
    hide Sound, Reachable;
    FreshSound(1);
    assert Reachable(Fresh(1)) by { ReachedFirst(1); }
    f := Grow(Fresh(1), 1, 3);
    assert [3] + [] == [3];
    f := Grow(f, 3, 4);
    assert [4] + [] == [4];
    f := Refuse(f, 4);
  }

  /** Freeing 1 goes on for ever: freeing 3 hands 4 to 1. */
  lemma NullContextNeverEmpties() returns (f: Forest, rank: map<Addr, int>)
    ensures RefuserBelowNull(f) && Tracked(f, rank) && forall n: nat :: !EndsWithin(f, rank, n)
  {
    f := WithNullContext();
    SoundParts(f);
    hide Inv, Ranked, Reachable, Sound, EndsWithin;
    rank :| Ranked(f, rank, NULL);
    EndsExactly(f, rank);
    assert 4 in f.dtor && 4 != f.nullCtx && f.dtor[4] == Refuses;
  }

  // ------------------------------------------------------------------ an owner that is not removed

  /** The handle 4 hangs from no context, as it does when null tracking was enabled after it was made, and references
      3, which hangs from 2. */
  function TopLevelHandle(): Forest {
    Forest(Tree(map[1 := [2], 2 := [3], 3 := [], 4 := []], map[1 := NULL, 2 := 1, 3 := 2, 4 := NULL], {}),
           Refs(map[1 := [], 2 := [], 3 := [4], 4 := []], map[4 := 3]),
           map[1 := NoDtor, 2 := NoDtor, 3 := NoDtor, 4 := NoDtor], 1, [])
  }

  lemma TopLevelHandleInv()
    ensures Inv(TopLevelHandle())
  {
    hide TreeInv, RefsInv;
    TopLevelHandleTree();
    TopLevelHandleRefs();
  }

  lemma TopLevelHandleTree()
    ensures TreeInv(TopLevelHandle().tree)
  {
    var t := TopLevelHandle().tree;
    forall a | a in t.kids ensures KidsOk(t, a) {
    }
    forall a | a in t.up ensures UpOk(t, a) {
    }
  }

  lemma TopLevelHandleRefs()
    ensures RefsInv(TopLevelHandle().refs)
  {
    var r := TopLevelHandle().refs;
    forall a | a in r.list ensures ListOk(r, a) {
    }
  }

  lemma TopLevelHandleRanked()
    ensures Ranked(TopLevelHandle(), map[1 := 0, 2 := 1, 3 := 2, 4 := 1], NULL) && !Rooted(TopLevelHandle())
  {
    assert TopLevelHandle().tree.up[4] == NULL;
  }

  /** Unlinking 3 from its owner 2 fails and changes nothing. */
  lemma UnlinkMissesOwner()
    ensures var f := TopLevelHandle();
      && Inv(f) && Acyclic(f) && f.tree.out == {} && !Rooted(f) && Freeable(f, 3) && Settled(f, 3)
      && 2 in Owners(f, 3) && OwnerRemoved(f, 2, 3) == (f, -1)
  {
    var f := TopLevelHandle();
    TopLevelHandleInv();
    TopLevelHandleRanked();
    hide Inv, Ranked, OwnerRemoved;
    RankedAny(f, map[1 := 0, 2 := 1, 3 := 2, 4 := 1], 3);
    OwnersOfThree();
    OwnerRemovedCases(f, 2, 3);
  }

  lemma OwnersOfThree()
    ensures Owners(TopLevelHandle(), 3) == [2, NULL]
  {
    var f := TopLevelHandle();
    HoldersCons(f.tree.up, 4, []);
    assert [4] + [] == [4];
  }

  // ------------------------------------------------------------------ a resize that releases

  /** Resizing the chunk 3 to 2^32 elements of one byte releases it. */
  lemma ResizeReleases() returns (f: Forest)
    ensures Reachable(f) && 3 in f.refs.list && Freeable(f, 3) && SafeToFree(f, 3)
    ensures forall size, got, r, g, size' :: ArrayResized(f, size, 3, 1, UINT_RANGE, got, r, g, size') ==> r == NULL && 3 !in Live(g)
  {
    hide Inv, Reachable, Sound, ArrayResized, Freeable, SafeToFree;
    f := Start();
    StartFreeable(f);
    forall size, got, r, g, size' | ArrayResized(f, size, 3, 1, UINT_RANGE, got, r, g, size') ensures r == NULL && 3 !in Live(g) {
      WrapReleases(f, size, 3, got, r, g, size');
    }
  }

  /** The first child of its parent has no predecessor to walk to. */
  lemma StartFreeable(f: Forest)
    requires Sound(f) && f.nullCtx == NULL && f.tree.out == {} && f.refs.target == map[] && f.tree.up == map[1 := NULL, 3 := 1]
    requires f.tree.kids == map[1 := [3], 3 := []]
    ensures 3 in f.refs.list && Freeable(f, 3) && SafeToFree(f, 3)
  {
    hide Inv, Ranked, Sound, FreeOf, Predecessor;
    SoundParts(f);
    var rank :| Ranked(f, rank, NULL);
    RankedAny(f, rank, 3);
    KeysAgree(f);
    FreeOfIs(f, 3, rank);
    StartSheltered(f);
    ShelteredIsSafe(f, 3, rank);
  }

  lemma StartSheltered(f: Forest)
    requires f.refs.target == map[]
    ensures Sheltered(f, 3)
  {
  }
}
