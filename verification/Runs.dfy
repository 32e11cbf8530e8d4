/**
 Runs of the allocator: sequences of calls from outside, and what all of them keep.
 */
module Runs {
  import opened Seqs
  import opened ChildLists
  import opened RefLists
  import opened Forests
  import opened Ownership
  import opened Operations
  import opened Acyclicity
  import opened TopLevel
  import opened StaleReads
  import opened Unlinking
  import opened Renaming

  datatype Call =
    | Alloc(ctx: Addr, a: Addr)
    | Reference(ctx: Addr, p: Addr, a: Addr)
    | SetDestructor(p: Addr, own: Dtor)
    | Steal(ctx: Addr, p: Addr)
    | Unlink(ctx: Addr, p: Addr)
    | FreeIt(p: Addr)
    | Move(p: Addr, a: Addr)

  /** A chunk that a caller may name as subject of a call. */
  predicate Subject(f: Forest, p: Addr) {
    Settled(f, p) && p != f.nullCtx
  }

  ghost predicate Sound(f: Forest) {
    Orderly(f) && Rooted(f)
  }

  /** New addresses are free, contexts and subjects are live, no call closes an ownership cycle, and no free
      walks through a chunk that it has released. */
  ghost predicate Allowed(f: Forest, c: Call) {
    match c
    case Alloc(ctx, a) => IsContext(f, ctx) && a !in Live(f) && a != NULL
    case Reference(ctx, p, a) => IsContext(f, ctx) && Subject(f, p) && !Reaches(f, p, Context(f, ctx)) && a !in Live(f) && a != NULL
    case SetDestructor(p, _) => Subject(f, p)
    case Steal(ctx, p) => IsContext(f, ctx) && Subject(f, p) && !Reaches(f, p, Context(f, ctx))
    case Unlink(ctx, p) => IsContext(f, ctx) && Subject(f, p) && (f.refs.list[p] == [] && f.tree.up[p] == Context(f, ctx) ==> SafeToFree(f, p))
    case FreeIt(p) => Subject(f, p) && SafeToFree(f, p)
    case Move(p, a) => Subject(f, p) && f.refs.list[p] == [] && a !in Live(f) && a != NULL
  }

  lemma ContextLive(f: Forest, ctx: Addr)
    requires Inv(f) && IsContext(f, ctx)
    ensures Context(f, ctx) == NULL || Context(f, ctx) in Live(f)
    ensures f.nullCtx == NULL || f.nullCtx in f.tree.kids
  {
  }

  lemma SubjectFreeable(f: Forest, p: Addr)
    requires Sound(f) && Subject(f, p)
    ensures Freeable(f, p)
  {
    hide Inv, Ranked;
    var rank :| Ranked(f, rank, NULL);
    RankedAny(f, rank, p);
  }

  ghost function Next(f: Forest, c: Call): Forest
    requires Sound(f) && Allowed(f, c)
  {
    KeysAgree(f);
    match c
    case Alloc(ctx, a) => ContextLive(f, ctx); Allocated(f, ctx, a)
    case Reference(ctx, p, a) => ContextLive(f, ctx); Referenced(f, ctx, p, a)
    case SetDestructor(p, own) => f.(dtor := f.dtor[p := own])
    case Steal(ctx, p) => ContextLive(f, ctx); Stolen(f, ctx, p)
    case Unlink(ctx, p) => SubjectFreeable(f, p); OwnerRemoved(f, ctx, p).0
    case FreeIt(p) => SubjectFreeable(f, p); FreeOf(f, p).0
    case Move(p, a) => Renamed(f, p, a)
  }

  // ------------------------------------------------------------------ every call keeps the state sound

  lemma FreeSound(f: Forest, p: Addr)
    requires Sound(f) && Freeable(f, p)
    ensures Sound(FreeOf(f, p).0)
  {
    hide Inv, Ranked, Free, FreeOf, Freeable, Rooted;
    var rank :| Ranked(f, rank, NULL);
    FreeableFacts(f, p);
    RankedAny(f, rank, p);
    FreeOfIs(f, p, rank);
    FreeRooted(f, p, rank);
  }

  lemma SetDestructorSound(f: Forest, p: Addr, own: Dtor)
    requires Sound(f) && Subject(f, p)
    ensures Sound(f.(dtor := f.dtor[p := own]))
  {
    hide TreeInv, RefsInv;
    var g := f.(dtor := f.dtor[p := own]);
    assert forall rank :: Ranked(f, rank, NULL) ==> Ranked(g, rank, NULL);
  }

  lemma UnreferencedSound(f: Forest, ctx: Addr, p: Addr)
    requires Sound(f) && p in f.refs.list
    ensures Sound(Unreferenced(f, ctx, p).0)
  {
    hide Inv, Acyclic, HandleFreed, Rooted;
    var h := FindHandle(f.tree.up, f.refs.list[p], Context(f, ctx));
    if h in f.refs.target {
      HandleFreedSound(f, h);
    }
  }

  lemma HandleFreedSound(f: Forest, h: Addr)
    requires Sound(f) && h in f.refs.target
    ensures h in f.dtor && h in f.tree.up && f.refs.target[h] in f.refs.list && Sound(HandleFreed(f, h))
  {
    hide Inv, Ranked, HandleFreed, OnlyHandlesGone, Shrinks, Rooted;
    var rank :| Ranked(f, rank, NULL);
    HandleFacts(f, h);
    HandleFreedRooted(f, h);
    HandleFreedOk(f, h);
    HandleFreedRanked(f, h, rank, NULL);
    SameOut(f, HandleFreed(f, h));
  }

  lemma UnlinkSound(f: Forest, ctx: Addr, p: Addr)
    requires Sound(f) && Freeable(f, p) && Subject(f, p)
    ensures Sound(OwnerRemoved(f, ctx, p).0)
  {
    hide Sound, Inv, FreeOf, Unreferenced, Stolen, Freeable, Owners, RemoveFirst, OnlyHandlesGone, Shrinks;
    FreeSound(f, p);
    SoundFacts(f);
    UnreferencedSound(f, ctx, p);
    if f.refs.list[p] != [] {
      HandleContext(f, p);
      var q := f.tree.up[f.refs.list[p][0]];
      UnreferencedSound(f, q, p);
      UnreferencedOwners(f, q, p);
      if Unreferenced(f, q, p).1 == 0 {
        StillContext(f, Unreferenced(f, q, p).0, q);
        InheritSound(f, Unreferenced(f, q, p).0, p, q);
      }
    }
  }

  lemma SoundFacts(f: Forest)
    requires Sound(f)
    ensures Inv(f)
  {
  }

  /** `q`, which held the newest reference to `p`, becomes the parent of `p`. */
  lemma InheritSound(f: Forest, g: Forest, p: Addr, q: Addr)
    requires Sound(f) && Sound(g) && Subject(f, p) && f.refs.list[p] != [] && f.refs.list[p][0] in f.tree.up && q == f.tree.up[f.refs.list[p][0]]
    requires OnlyHandlesGone(f, g) && Shrinks(f, g) && Settled(g, p) && IsContext(g, q) && (g.nullCtx == NULL || g.nullCtx in g.tree.kids)
    requires Live(g) <= Live(f)
    ensures Sound(Stolen(g, q, p))
  {
    hide Inv, Stolen, Rooted;
    KeysAgree(g);
    StolenRooted(g, q, p);
    SameOut(f, g);
    HandleContext(f, p);
    StolenInv(g, q, p);
    StolenShrinks(g, q, p);
    SameOut(g, Stolen(g, q, p));
    var rank :| Ranked(f, rank, NULL);
    assert q != NULL ==> Rk(rank, q) < Rk(rank, p);
    LessRanked(f, g, rank);
    StolenRanked(g, q, p, rank);
  }

  /** Losing handles keeps the ranks. */
  lemma LessRanked(f: Forest, g: Forest, rank: map<Addr, int>)
    requires Ranked(f, rank, NULL) && OnlyHandlesGone(f, g) && Shrinks(f, g) && Inv(g)
    ensures Ranked(g, rank, NULL)
  {
    hide Inv;
  }

  lemma AllocSound(f: Forest, ctx: Addr, a: Addr)
    requires Sound(f) && IsContext(f, ctx) && a !in Live(f) && a != NULL
    ensures (Context(f, ctx) == NULL || Context(f, ctx) in Live(f)) && Sound(Allocated(f, ctx, a))
  {
    hide Inv, Ranked, Allocated, Rooted;
    var rank :| Ranked(f, rank, NULL);
    AllocatedInv(f, ctx, a);
    AllocatedRooted(f, ctx, a);
    AllocRanked(f, ctx, a, rank);
  }

  lemma StealSound(f: Forest, ctx: Addr, p: Addr)
    requires Sound(f) && IsContext(f, ctx) && Subject(f, p) && !Reaches(f, p, Context(f, ctx))
    ensures (f.nullCtx == NULL || f.nullCtx in f.tree.kids) && Sound(Stolen(f, ctx, p))
  {
    hide Inv, Acyclic, Stolen, Shrinks, Rooted;
    ContextLive(f, ctx);
    KeysAgree(f);
    StolenRooted(f, ctx, p);
    StealAcyclic(f, ctx, p);
    StolenInv(f, ctx, p);
    StolenShrinks(f, ctx, p);
    SameOut(f, Stolen(f, ctx, p));
  }

  /** Every allowed call keeps the lists and ownership sound. */
  lemma NextSound(f: Forest, c: Call)
    requires Sound(f) && Allowed(f, c)
    ensures Sound(Next(f, c))
  {
    hide Inv, Acyclic, Sound, Allocated, Referenced, Stolen, OwnerRemoved, FreeOf, Renamed, Freeable, Rooted, SafeToFree;
    SoundParts(f);
    KeysAgree(f);
    match c
    case Alloc(ctx, a) =>
      AllocSound(f, ctx, a);
    case Reference(ctx, p, a) =>
      ReferencedInv(f, ctx, p, a);
      ReferenceAcyclic(f, ctx, p, a);
      ReferencedRooted(f, ctx, p, a);
      SoundWhole(Referenced(f, ctx, p, a));
    case SetDestructor(p, own) =>
      SetDestructorSound(f, p, own);
    case Steal(ctx, p) =>
      StealSound(f, ctx, p);
    case Unlink(ctx, p) =>
      SubjectFreeable(f, p);
      UnlinkSound(f, ctx, p);
    case FreeIt(p) =>
      SubjectFreeable(f, p);
      FreeSound(f, p);
    case Move(p, a) =>
      IsMovable(f, p, a);
      RenamedInv(f, p, a);
      RenamedAcyclic(f, p, a);
      RenamedRooted(f, p, a);
      SoundWhole(Renamed(f, p, a));
  }

  lemma SoundParts(f: Forest)
    requires Sound(f)
    ensures Inv(f) && f.tree.out == {} && Acyclic(f) && Rooted(f)
  {
  }

  lemma SoundWhole(f: Forest)
    requires Inv(f) && f.tree.out == {} && Acyclic(f) && Rooted(f)
    ensures Sound(f)
  {
  }

  // ------------------------------------------------------------------ whole runs

  /** The states that a run passes through. */
  ghost predicate IsRun(states: seq<Forest>, calls: seq<Call>, nullCtx: Addr) {
    && |states| == |calls| + 1 && states[0] == Fresh(nullCtx)
    && forall i :: 0 <= i < |calls| ==> Step(states[i], calls[i], states[i + 1])
  }

  ghost predicate Step(f: Forest, c: Call, g: Forest) {
    Sound(f) ==> Allowed(f, c) && g == Next(f, c)
  }

  lemma FreshTree(nullCtx: Addr)
    ensures var f := Fresh(nullCtx); TreeInv(f.tree) && RefsInv(f.refs) && f.tree.out == {} && f.refs.target == map[]
  {
    var f := Fresh(nullCtx);
    forall x | x in f.tree.kids ensures KidsOk(f.tree, x) {
    }
    forall x | x in f.tree.up ensures UpOk(f.tree, x) {
    }
    forall x | x in f.refs.list ensures ListOk(f.refs, x) {
    }
  }

  lemma FreshRanked(nullCtx: Addr)
    ensures Acyclic(Fresh(nullCtx)) && Rooted(Fresh(nullCtx))
  {
    assert Ranked(Fresh(nullCtx), map[], NULL);
  }

  lemma FreshSound(nullCtx: Addr)
    ensures Sound(Fresh(nullCtx))
  {
    hide TreeInv, RefsInv, Acyclic, Rooted;
    FreshTree(nullCtx);
    FreshRanked(nullCtx);
    var f := Fresh(nullCtx);
    assert Live(f) == f.refs.list.Keys == f.dtor.Keys;
  }

  /** In every state of every run ownership is acyclic, a null context is the only root, each chunk hangs in the list of its parent and in no other, and the
      reference list of each chunk holds exactly the live handles that target it. */
  lemma {:induction false} RunSound(states: seq<Forest>, calls: seq<Call>, nullCtx: Addr, n: nat)
    requires IsRun(states, calls, nullCtx) && n < |states|
    ensures Sound(states[n])
    decreases n
  {
    hide Sound, Next, Allowed;
    if n == 0 {
      FreshSound(nullCtx);
    } else {
      RunSound(states, calls, nullCtx, n - 1);
      assert Step(states[n - 1], calls[n - 1], states[n - 1 + 1]);
      NextSound(states[n - 1], calls[n - 1]);
    }
  }

  lemma SoundLists(f: Forest, x: Addr)
    requires Sound(f) && x in Live(f)
    ensures x in f.tree.up && NoDup(f.tree.kids[x])
    ensures forall a :: a in f.tree.kids ==> (x in f.tree.kids[a] <==> a == f.tree.up[x])
    ensures f.tree.up[x] == NULL || f.tree.up[x] in Live(f)
    ensures x in f.refs.list && NoDup(f.refs.list[x])
    ensures forall h :: h in f.refs.list[x] <==> h in f.refs.target && f.refs.target[h] == x
    ensures forall h :: h in f.refs.target ==> h in Live(f) && f.refs.target[h] in Live(f)
  {
    KeysAgree(f);
    UpLive(f, x);
    forall h | h in f.refs.target ensures h in Live(f) && f.refs.target[h] in Live(f) {
      HandleFacts(f, h);
    }
    assert UpOk(f.tree, x) && KidsOk(f.tree, x) && ListOk(f.refs, x);
    assert forall a :: a in f.tree.kids ==> KidsOk(f.tree, a);
  }
}
