/**
 The allocator itself: chunk headers as fields indexed by the chunk's address, rewritten in
 place. An address is live as long as the fields have an entry for it, so every access proves
 that the chunk has not been released. The ghost `f` is the abstract state of module Forests.
 */
module TallocHeap {
  import opened Seqs
  import opened Tlist
  import opened ChildLists
  import opened RefLists
  import opened Forests
  import opened Siblings
  import opened RefLinks
  import opened Walks
  import opened FreeRounds
  import opened Fences
  import opened StaleReads
  import opened TallocSteps
  import opened Operations
  import opened Ownership
  import opened Unlinking
  import opened AllocSteps
  import opened TallocCalls
  import opened Renaming
  import opened ArraySizes
  import opened TopLevel
  import opened NullContext
  import opened NullSteps
  import opened Traversal
  import opened Sizes

  class Talloc {
    const nullContext: Addr
    /** the list fields of the chunk headers */
    var links: Links
    /** the `refs` field of the headers, and the bodies of the handles */
    var hooks: Hooks
    var destructor: map<Addr, Destructor>
    var size: map<Addr, nat>
    var looping: set<Addr>
    /** the user destructors that ran and accepted, in order */
    var calls: seq<Addr>
    ghost var f: Forest

    ghost predicate Rep()
      reads this
    {
      f.nullCtx == nullContext && Represents(links, hooks, destructor, size.Keys, calls, f)
    }

    ghost predicate Valid()
      reads this
    {
      Rep() && looping == f.tree.out
    }

    /** Nothing is allocated but the null context, if there is one. */
    constructor (nullCtx: Addr)
      ensures Quiet() && f == Fresh(nullCtx) && nullContext == nullCtx
    {
      nullContext := nullCtx;
      if nullCtx == NULL {
        links, hooks, destructor, size := Links(map[], map[], map[], map[]), Hooks(map[], map[], map[], map[]), map[], map[];
      } else {
        var alone := map[nullCtx := NULL];
        links, hooks := Links(alone, alone, alone, alone), Hooks(alone, map[], map[], map[]);
        destructor, size := map[nullCtx := Unset], map[nullCtx := 0];
      }
      looping, calls, f := {}, [], Fresh(nullCtx);
    }

    /** The parent chunk: walk to the head of the sibling list and read its parent. */
    method ParentChunk(ptr: Addr) returns (q: Addr)
      requires Rep() && (ptr == NULL || ptr in Live(f)) && (ptr in f.tree.out ==> Walkable(links, f.tree, ptr))
      ensures q == if ptr == NULL then NULL else f.tree.up[ptr]
      ensures q == NULL || q in Live(f)
    {
      if ptr == NULL {
        return NULL;
      }
      var tc := ptr;
      PrevStep(links, f.tree, tc);
      while links.prev[tc] != NULL
        invariant tc in f.tree.up && tc in links.prev && tc in links.parent && f.tree.up[tc] == f.tree.up[ptr]
        invariant tc in f.tree.out ==> Walkable(links, f.tree, tc)
        decreases StepsLeft(f.tree, tc)
      {
        PrevStep(links, f.tree, tc);
        tc := links.prev[tc];
        PrevStep(links, f.tree, tc);
      }
      PrevStep(links, f.tree, tc);
      return links.parent[tc];
    }

    /** Whether `ptr` is `context` or one of its ancestors. */
    method IsParent(context: Addr, ptr: Addr, ghost rank: map<Addr, int>, ghost x: Addr) returns (b: bool)
      requires Rep() && (context == NULL || context in Live(f)) && ptr != NULL && Ranked(f, rank, x)
      requires forall z :: z in f.tree.out && Above(f.tree, z, context) ==> Walkable(links, f.tree, z)
      ensures b <==> context != NULL && Above(f.tree, ptr, context)
    {
      if context == NULL {
        return false;
      }
      hide Represents, Inv, SibRep, RefRep, DtorRep, Walkable, Above, Ranked;
      TopFacts(links, hooks, destructor, size.Keys, calls, f);
      AboveEnds(f.tree, ptr);
      var tc := context;
      while tc != NULL
        invariant tc == NULL || tc in Live(f)
        invariant Above(f.tree, ptr, tc) <==> Above(f.tree, ptr, context)
        invariant forall z :: z in f.tree.out && Above(f.tree, z, tc) ==> Walkable(links, f.tree, z)
        decreases tc != NULL, Rk(rank, tc)
      {
        if tc == ptr {
          return true;
        }
        AboveStep(f.tree, ptr, tc);
        WalkOn(f.tree, tc);
        WalkStart(f.tree, tc);
        if f.tree.up[tc] != NULL {
          ParentRank(f, tc, rank, x);
        }
        tc := ParentChunk(tc);
      }
      return false;
    }
  
    /** The pointer updates that take `tc` off its sibling list `s`; the new head of the list takes
        over the parent field. */
    method UnlinkFields(tc: Addr, ghost q: Addr, ghost s: seq<Addr>, ghost k: nat)
      requires q == NULL ==> TopRep(links, tc)
      requires q != NULL ==> ListRep(links, q, s) && k < |s| && s[k] == tc
      modifies `links
      ensures q == NULL ==> links == old(links)
      ensures q != NULL ==> k < |s| && UnlinkedFields(old(links), links, s, k, q)
    {
      ghost var l := links;
      if links.parent[tc] != NULL {
        var up := links.parent[tc];
        var next, prev, list := TlistRemove(links.next, links.prev, links.child[up], tc, s, 0);
        links := links.(next := next, prev := prev, child := links.child[up := list]);
        if links.child[up] != NULL {
          links := links.(parent := links.parent[links.child[up] := up]);
        }
        UnlinkHead(l, links, s, q);
      } else {
        if links.prev[tc] != NULL {
          links := links.(next := links.next[links.prev[tc] := links.next[tc]]);
        }
        if links.next[tc] != NULL {
          links := links.(prev := links.prev[links.next[tc] := links.prev[tc]]);
        }
        if q != NULL {
          UnlinkInner(l, links, s, k, q);
        }
      }
    }

    method Unlink(tc: Addr)
      requires Rep() && tc in Live(f) && tc !in f.tree.out && tc !in f.refs.target && tc != nullContext
      modifies `links, `f
      ensures Rep() && f == Unlinked(old(f), tc)
      ensures SameOn(old(links).prev, links.prev, f.tree.out)
      ensures tc in old(f).tree.up && KeptElsewhere(old(links).prev, links.prev, old(f).tree, old(f).tree.up[tc])
    {
      hide Represents, Inv, SibRep, TreeInv, NotStale, RefRep, DtorRep, ListRep, TopRep, UnlinkedFields, SameOn, Detach, RefsInv, StepsLeft, Linked, HeadMarked, NoDup, Drop, Cut, At, SameOutside;
      RepFacts(links, hooks, destructor, size.Keys, calls, f);
      ghost var l, t, q, k := links, f.tree, f.tree.up[tc], StepsLeft(f.tree, tc);
      ReadyToUnlink(l, t, tc);
      ghost var s := if q == NULL then [] else t.kids[q];
      UnlinkFields(tc, q, s, k);
      if q != NULL {
        UnlinkRep(l, links, t, q, k);
        UnlinkKeepsStale(l, links, t, q, k);
        UnlinkKeepsElsewhere(l, links, t, q, k);
      }
      RepUnlinked(l, links, hooks, destructor, size.Keys, calls, f, tc);
      f := Unlinked(f, tc);
    }
  
    /** The destructor of a handle: leave the list of the chunk it references. */
    method ReferenceDestructor(handle: Addr)
      requires RefsInv(f.refs) && RefRep(hooks, f.refs) && handle in f.refs.target
      modifies `hooks
      ensures f.refs.target[handle] in f.refs.list && RefRep(hooks, Unhook(f.refs, handle)) && hooks.ptr == old(hooks).ptr
    {
      ghost var k, r, a := hooks, f.refs, f.refs.target[handle];
      ghost var i := Index(r.list[a], handle);
      hide RefsInv, HookLists, Linked, SameOutside, Cut, Unhook, Index, NoDup;
      HookedAt(k, r, handle);
      var ptrTc := hooks.ptr[handle];
      var next, prev, list := TlistRemove(hooks.next, hooks.prev, hooks.refs[ptrTc], handle, r.list[a], i);
      hooks := hooks.(next := next, prev := prev, refs := hooks.refs[ptrTc := list]);
      UnhookRep(k, hooks, r, a, i);
    }

    /** Run the destructor of `p`, if it has one: false means that it refused. */
    method TryDestructor(p: Addr) returns (ok: bool)
      requires Rep() && p in Live(f) && f.refs.list[p] == []
      modifies `hooks, `destructor, `calls, `f
      ensures Rep() && ok == (old(f).dtor[p] != Refuses)
      ensures f == if ok then Ran(old(f), p) else old(f)
    {
      hide Represents, Inv, SibRep, TreeInv, RefRep, DtorRep, RefsInv, Ran;
      RepHooks(links, hooks, destructor, size.Keys, calls, f);
      RunFacts(links, hooks, destructor, size.Keys, calls, f, p);
      ghost var k, d := hooks, destructor;
      if destructor[p] != Unset {
        var own := destructor[p];
        if own == Running {
          return false;
        }
        destructor := destructor[p := Running];
        if own == User(false) {
          destructor := destructor[p := own];
          assert destructor == d;
          return false;
        }
        if own == RefHandle {
          ReferenceDestructor(p);
        } else {
          calls := calls + [p];
        }
        destructor := destructor[p := Unset];
        assert destructor == d[p := Unset];
      }
      assert destructor == d[p := Unset];
      RepRan(links, k, hooks, d, size.Keys, old(calls), f, p);
      f := Ran(f, p);
      return true;
    }
  
    /** The pointer updates that put `tc` in front of the children of `q`. */
    method AttachFields(tc: Addr, q: Addr, ghost s: seq<Addr>)
      requires ListRep(links, q, s) && tc !in s && tc != NULL
      requires tc in links.next && tc in links.prev && tc in links.parent
      modifies `links
      ensures AttachedFields(old(links), links, s, q, tc)
    {
      ghost var l := links;
      links := links.(parent := links.parent[tc := q]);
      if links.child[q] != NULL {
        links := links.(parent := links.parent[links.child[q] := NULL]);
      }
      var next, prev, list := TlistAdd(links.next, links.prev, links.child[q], tc, s);
      links := links.(next := next, prev := prev, child := links.child[q := list]);
    }

    /** Unlink `ptr` and make it a top-level chunk. */
    method MoveToTop(ptr: Addr)
      requires Rep() && nullContext == NULL && ptr in Live(f) && ptr in f.tree.up
      requires ptr !in f.tree.out && ptr !in f.refs.target && ptr != NULL && NotStale(links, f.tree, ptr)
      modifies `links, `f
      ensures Rep() && f == old(f).(tree := Move(old(f).tree, NULL, ptr))
      ensures SameOn(old(links).prev, links.prev, f.tree.out)
    {
      hide Represents, Inv, SibRep, TreeInv, NotStale, RefRep, DtorRep, ListRep, TopRep, UnlinkedFields, AttachedFields, Detach, Attach, Move, RefsInv, SameOn, StepsLeft, Linked, HeadMarked, NoDup, Drop, Cut, At, SameOutside;
      ghost var l, g := links, f;
      RepFacts(l, hooks, destructor, size.Keys, calls, g);
      Unlink(ptr);
      ghost var l1 := links;
      links := links.(parent := links.parent[ptr := NULL], next := links.next[ptr := NULL], prev := links.prev[ptr := NULL]);
      MovedToTop(l, l1, links, hooks, destructor, size.Keys, calls, g, ptr);
      f := g.(tree := Move(g.tree, NULL, ptr));
    }

    /** Unlink `ptr` and put it in front of the children of `q`. */
    method MoveBelow(q: Addr, ptr: Addr)
      requires Rep() && ptr in Live(f) && ptr in f.tree.up && ptr !in f.tree.out && ptr !in f.refs.target && ptr != nullContext
      requires q in Live(f) && q !in f.refs.target && q != ptr && q != NULL && NotStale(links, f.tree, ptr)
      modifies `links, `f
      ensures Rep() && f == old(f).(tree := Move(old(f).tree, q, ptr))
      ensures SameOn(old(links).prev, links.prev, f.tree.out)
    {
      hide Represents, Inv, SibRep, TreeInv, NotStale, RefRep, DtorRep, ListRep, TopRep, UnlinkedFields, AttachedFields, Detach, Attach, Move, RefsInv, SameOn, StepsLeft, Linked, HeadMarked, NoDup, Drop, Cut, At, SameOutside;
      ghost var l, g := links, f;
      ReadyToMove(l, hooks, destructor, size.Keys, calls, g, q, ptr);
      Unlink(ptr);
      ghost var l1 := links;
      ListAfterUnlink(l1, hooks, destructor, size.Keys, calls, f, q, ptr);
      AttachFields(ptr, q, f.tree.kids[q]);
      MovedBelow(l, l1, links, hooks, destructor, size.Keys, calls, g, q, ptr);
      f := g.(tree := Move(g.tree, q, ptr));
    }

    /** Move `ptr` below `newCtx`, NULL standing for the null context. */
    method Steal(newCtx: Addr, ptr: Addr) returns (r: Addr)
      requires Rep() && (newCtx == NULL || (newCtx in Live(f) && newCtx !in f.refs.target))
      requires ptr == NULL || (ptr in Live(f) && ptr !in f.tree.out && ptr !in f.refs.target && ptr != nullContext)
      requires ptr != NULL ==> NotStale(links, f.tree, ptr)
      modifies `links, `f
      ensures Rep() && r == ptr
      ensures old(f).nullCtx == NULL || old(f).nullCtx in old(f).tree.kids
      ensures ptr == NULL ==> f == old(f) && links == old(links)
      ensures ptr != NULL ==> ptr in old(f).tree.up && f == Stolen(old(f), newCtx, ptr)
      ensures SameOn(old(links).prev, links.prev, f.tree.out)
    {
      hide Represents, Inv, SibRep, TreeInv, NotStale, RefRep, DtorRep, ListRep, TopRep, UnlinkedFields, AttachedFields, Detach, Attach, Move, RefsInv, SameOn, StepsLeft, Linked, HeadMarked, NoDup, Drop, Cut, At, SameOutside;
      RepFacts(links, hooks, destructor, size.Keys, calls, f);
      SameAsItself(links.prev, f.tree.out);
      if ptr == NULL {
        return NULL;
      }
      var q := newCtx;
      if q == NULL {
        q := nullContext;
      }
      if q == NULL {
        MoveToTop(ptr);
        return ptr;
      }
      if ptr == q || links.parent[ptr] == q {
        if ptr != q {
          HeadOfParent(links, f.tree, ptr, q);
        }
        return ptr;
      }
      MoveBelow(q, ptr);
      return ptr;
    }
  
    /** Give the memory of the emptied chunk `p` back. */
    method Release(p: Addr)
      requires Rep() && p in f.tree.out && p in Live(f) && p !in f.refs.target && p != nullContext
      requires f.tree.kids[p] == [] && p in f.refs.list && f.refs.list[p] == [] && NotUp(f, p)
      modifies `links, `hooks, `destructor, `size, `looping, `f
      ensures Rep() && f == Released(old(f), p) && looping == old(looping) - {p}
      ensures links.prev == old(links).prev - {p} && size == old(size) - {p}
    {
      hide Represents, Inv, SibRep, TreeInv, NotStale, RefRep, DtorRep, RefsInv, NotUp;
      RepReleased(links, hooks, destructor, size.Keys, calls, f, p);
      links := Links(links.next - {p}, links.prev - {p}, links.parent - {p}, links.child - {p});
      hooks := Hooks(hooks.refs - {p}, hooks.next - {p}, hooks.prev - {p}, hooks.ptr - {p});
      destructor, size, looping := destructor - {p}, size - {p}, looping - {p};
      f := Released(f, p);
    }
  
    /** The free of `p` stays inside the fence `b` and walks through live chunks only; `rank` witnesses
        acyclic ownership. */
    ghost predicate MayFree(p: Addr, rank: map<Addr, int>, b: set<Addr>, m: Back)
      reads this
    {
      && Valid() && p in Live(f) && p != nullContext && p in f.refs.list
      && (p in f.refs.target || ReadsLive(f, p, rank, m))
      && Fenced(links.prev, f, b, m) && InFence(f, b, p)
      && (p !in f.refs.target && (f.refs.list[p] == [] || Above(f.tree, p, f.refs.list[p][0])) ==> Entry(links.prev, f, b, m, p))
    }

    /** Free `p`: drop a reference, or run the destructor and release the chunk. */
    method FreeChunk(p: Addr, ghost rank: map<Addr, int>, ghost b: set<Addr>, ghost m: Back) returns (ret: int)
      requires MayFree(p, rank, b, m)
      modifies this
      ensures Valid() && Fenced(links.prev, f, b, m)
      ensures f.tree.out == old(f).tree.out && SameOn(old(links).prev, links.prev, f.tree.out)
      ensures p in old(f).refs.target ==>
        HandleGone(old(f), p, f, ret) && KeptElsewhere(old(links).prev, links.prev, old(f).tree, old(f).tree.up[p])
      ensures p !in old(f).refs.target ==> ChunkFreed(old(f), p, rank, f, ret)
      ensures SizesKept(old(size), size)
      decreases Mobile(f), 1, |f.refs.list[p]|
    {
      hide SizesKept, Represents, Inv, SibRep, TreeInv, RefRep, DtorRep, RefsInv, Fenced, Entry, Ranked, Above, Free, HandleFreed, Ran, NotUp, SameOn, ChunkFreed, HandleGone, Mobile, KeptElsewhere, Disposable, ReadsLive, Walkable;
      ghost var g, l := f, links;
      RepFacts(l, hooks, destructor, size.Keys, calls, g);
      FreeFacts(l, hooks, destructor, size.Keys, calls, g, p);
      SameAsItself(l.prev, g.tree.out);
      SizesSame(size);
      if p !in g.refs.target {
        SafeRank(g, p, rank, m);
      }
      if hooks.refs[p] != NULL {
        var h := hooks.refs[p];
        CheckIsSafe(l, hooks, destructor, size.Keys, calls, g, p, h, rank, b, m);
        var isChild := IsParent(h, p, rank, p);
        var r := FreeChunk(h, rank, b, m);
        FreeByHandle(g, p, rank, h, f, r);
        if isChild {
          ghost var l1, g1, sizes := links, f, size;
          RepFacts(l1, hooks, destructor, size.Keys, calls, f);
          EntryKept(l.prev, l1.prev, g, f, b, m, p, h, rank);
          ret := FreeChunk(p, rank, b, m);
          SizesChain(old(size), sizes, size);
          SameOnChain(l.prev, l1.prev, links.prev, g.tree.out, g.tree.out);
          FreeAgain(g, p, rank, h, g1, f, ret);
          return;
        }
        return -1;
      }
      if p !in g.refs.target {
        FreeEarly(g, p, rank);
      }
      if p in looping {
        return 0;
      }
      var ok := TryDestructor(p);
      if !ok {
        return -1;
      }
      MakeDisposable(l, old(hooks), old(destructor), old(size).Keys, old(calls), g, p, rank, b, m);
      RanTree(g, p);
      Dispose(p, g, rank, b, m);
      return 0;
    }

    /** Unlink `p`, whose destructor has run, mark it, empty it and release it. */
    method Dispose(p: Addr, ghost g: Forest, ghost rank: map<Addr, int>, ghost b: set<Addr>, ghost m: Back)
      requires Disposable(links, g, p, rank, b, m) && p in g.dtor && (p in g.refs.target ==> g.refs.target[p] in g.refs.list)
      requires Rep() && looping == f.tree.out && f == Ran(g, p) && nullContext == g.nullCtx
      modifies this
      ensures Valid() && Fenced(links.prev, f, b, m)
      ensures f.tree.out == g.tree.out && SameOn(old(links).prev, links.prev, f.tree.out)
      ensures p in g.refs.target ==>
        HandleGone(g, p, f, 0) && p in g.tree.up && KeptElsewhere(old(links).prev, links.prev, g.tree, g.tree.up[p])
      ensures p !in g.refs.target ==> ChunkFreed(g, p, rank, f, 0)
      ensures SizesKept(old(size), size)
      decreases Mobile(g), 0, 0
    {
      hide SizesKept, Represents, Inv, SibRep, TreeInv, RefRep, DtorRep, RefsInv, Fenced, InFence, Entry, Ranked, Free, HandleFreed, Ran, Unlinked, ReadsLive, DrainReadsLive, NotUp, SameOn, ChunkFreed, HandleGone, Mobile, Disposable, Drain, Released, KeptElsewhere;
      ghost var l := links;
      BeforeUnlink(links, hooks, destructor, size.Keys, calls, g, p, rank, b, m);
      Unlink(p);
      looping := looping + {p};
      ghost var l1 := links;
      AfterUnlink(l, l1, hooks, destructor, size.Keys, calls, g, p, rank, b, m);
      EmptyChunk(p, rank, b, m);
      ghost var l2, h, sizes := links, f, size;
      AfterEmptying(l, l1, l2, hooks, destructor, size.Keys, calls, g, h, p, rank, b, m);
      RepInv(l2, hooks, destructor, size.Keys, calls, h);
      RepPrev(l2, hooks, destructor, size.Keys, calls, h);
      Release(p);
      AfterRelease(l, l1, l2, links, g, h, p, rank, b, m);
      SizesLess(sizes, p);
      SizesChain(old(size), sizes, size);
      if p in g.refs.target {
        DisposableHandle(l, g, p, rank, b, m);
        DropKeepsElsewhere(l.prev, l1.prev, g.tree, g.tree.up[p], p);
      }
    }

    /** The loop of the free: every child of `p` is freed or finds another owner. */
    method EmptyChunk(p: Addr, ghost rank: map<Addr, int>, ghost b: set<Addr>, ghost m: Back)
      requires Valid() && p in Live(f) && (f.tree.kids[p] == [] || MayEmpty(links.prev, f, p, rank, b, m))
      modifies this
      ensures Valid() && p in Live(old(f))
      ensures old(f).tree.kids[p] == [] ==> f == old(f) && links == old(links)
      ensures old(f).tree.kids[p] != [] ==> Emptied(old(f), p, rank) && f == Drain(old(f), p, rank) && Fenced(links.prev, f, b, m)
      ensures SameOn(old(links).prev, links.prev, f.tree.out) && SizesKept(old(size), size)
      decreases Mobile(f), 3, 0
    {
      hide SizesKept, Represents, Inv, SibRep, TreeInv, RefRep, DtorRep, RefsInv, Fenced, InFence, Ranked, Drain, SameOn, Mobile, NextRound, Shrinks, DrainReadsLive;
      ghost var g := f;
      LoopFacts(links, hooks, destructor, size.Keys, calls, f, p);
      SizesSame(size);
      while links.child[p] != NULL
        invariant Valid() && p in Live(f) && p in links.child && (links.child[p] == NULL <==> f.tree.kids[p] == [])
        invariant g.tree.kids[p] == [] ==> f == g && links == old(links)
        invariant g.tree.kids[p] != [] ==> MayEmpty(links.prev, f, p, rank, b, m) && Emptied(f, p, rank) && Drain(f, p, rank) == Drain(g, p, rank)
        invariant f.tree.out == g.tree.out && SameOn(old(links).prev, links.prev, f.tree.out) && Mobile(f) <= Mobile(g)
        invariant SizesKept(old(size), size)
        decreases Mobile(f), |f.tree.kids[p]|
      {
        ghost var l, e, sizes := links, f, size;
        DrainStep(f, p, rank);
        RoundReads(f, p, rank, m);
        Round(p, rank, b, m);
        SizesChain(old(size), sizes, size);
        LoopFacts(links, hooks, destructor, size.Keys, calls, f, p);
        SameOut(e, f);
        SameOnChain(old(links).prev, l.prev, links.prev, f.tree.out, f.tree.out);
      }
      if g.tree.kids[p] != [] {
        DrainNothing(f, p, rank);
      }
    }

    /** One round of the loop: who will own the child is worked out before it is freed. */
    method Round(p: Addr, ghost rank: map<Addr, int>, ghost b: set<Addr>, ghost m: Back)
      requires Valid() && MayEmpty(links.prev, f, p, rank, b, m) && f.tree.kids[p] != []
      modifies this
      ensures Valid() && Fenced(links.prev, f, b, m)
      ensures f.tree.out == old(f).tree.out && SameOn(old(links).prev, links.prev, f.tree.out)
      ensures Emptied(old(f), p, rank) && old(f).tree.kids[p] != [] && f == NextRound(old(f), p, rank)
      ensures SizesKept(old(size), size)
      decreases Mobile(f), 2, 0
    {
      hide SizesKept, Represents, Inv, SibRep, TreeInv, RefRep, DtorRep, RefsInv, Fenced, Entry, Ranked, Above, Free, HandleFreed, SameOn, ChunkFreed, HandleGone, Mobile, KeptElsewhere, NextRound, Stolen, NotUp, DrainReadsLive, FreeReadsLive, Walkable;
      ghost var g, l := f, links;
      RepInv(l, hooks, destructor, size.Keys, calls, g);
      RoundStart(l, hooks, destructor, size.Keys, calls, g, p, rank, b, m);
      var c := links.child[p];
      FreeFacts(l, hooks, destructor, size.Keys, calls, g, c);
      var newParent := nullContext;
      if hooks.refs[c] != NULL {
        var q := ParentChunk(hooks.refs[c]);
        if q != NULL {
          newParent := q;
        }
      }
      assert newParent == Holder(g, c);
      var r := FreeChunk(c, rank, b, m);
      ghost var e, l1 := f, links;
      RepInv(l1, hooks, destructor, size.Keys, calls, e);
      if c in g.refs.target {
        RoundOfHandle(g, p, rank, e, r);
      } else {
        RoundOfChunk(g, p, rank, e, r);
      }
      if r == -1 {
        AdoptIsSafe(g, p, rank, b, m, e, l1);
        Adopt(p, c, newParent, b, m);
        SameOnChain(l.prev, l1.prev, links.prev, g.tree.out, g.tree.out);
      }
    }

    /** The child `c` of `p` stays alive: the owner chosen before gets it, or the parent of `p` when
        that choice was the null context. */
    method Adopt(p: Addr, c: Addr, newParent: Addr, ghost b: set<Addr>, ghost m: Back)
      requires Valid() && p in Live(f) && p in f.tree.up && c in Live(f) && c in f.tree.up && c !in f.tree.out
      requires c !in f.refs.target && c != nullContext && Fenced(links.prev, f, b, m) && c in b
      requires newParent == nullContext && p in f.tree.out ==> Walkable(links, f.tree, p)
      requires var a := Adopter(f, p, newParent); a == NULL || (a in Live(f) && a !in f.refs.target)
      modifies `links, `f
      ensures Valid() && Fenced(links.prev, f, b, m)
      ensures f.tree.out == old(f).tree.out && SameOn(old(links).prev, links.prev, f.tree.out)
      ensures p in old(f).tree.up && c in old(f).tree.up && (old(f).nullCtx == NULL || old(f).nullCtx in old(f).tree.kids)
      ensures var a := Adopter(old(f), p, newParent);
        (a == NULL || a in old(f).tree.kids) && f == Stolen(old(f), a, c)
    {
      hide Represents, Inv, SibRep, TreeInv, NotStale, RefRep, DtorRep, RefsInv, Fenced, SameOn, Stolen, NotUp, Walkable;
      ghost var e, l := f, links;
      RepInv(l, hooks, destructor, size.Keys, calls, e);
      var q := newParent;
      if q == nullContext {
        var parent := ParentChunk(p);
        if parent != NULL {
          q := parent;
        }
      }
      FenceShields(l, e, b, m, c);
      var _ := Steal(q, c);
      StolenOut(e, q, c);
      RepPrev(l, hooks, destructor, size.Keys, calls, e);
      RepPrev(links, hooks, destructor, size.Keys, calls, f);
      FenceStolen(l.prev, links.prev, e, b, m, q, c);
    }
  
    // ------------------------------------------------------------------ calls from outside

    /** Between calls: nothing is being emptied. */
    ghost predicate Quiet()
      reads this
    {
      Valid() && f.tree.out == {}
    }

    /** The list fields of the new chunk `tc`, the first child of `parent`. */
    method InitLinks(parent: Addr, tc: Addr)
      requires tc != NULL && tc !in links.child && tc !in links.prev && (parent != NULL ==> parent in links.child)
      requires parent in links.child && links.child[parent] != NULL ==> links.child[parent] in links.prev && links.child[parent] in links.parent
      modifies `links
      ensures parent != NULL ==> parent in old(links).child && links == ChildFields(old(links), parent, tc)
      ensures parent == NULL ==> links == Blank(old(links), tc)
    {
      ghost var l := links;
      links := links.(child := links.child[tc := NULL]);
      if parent != NULL {
        if links.child[parent] != NULL {
          links := links.(parent := links.parent[links.child[parent] := NULL], next := links.next[tc := links.child[parent]]);
          links := links.(prev := links.prev[links.next[tc] := tc]);
        } else {
          links := links.(next := links.next[tc := NULL]);
        }
        links := links.(parent := links.parent[tc := parent], prev := links.prev[tc := NULL], child := links.child[parent := tc]);
      } else {
        links := links.(next := links.next[tc := NULL], prev := links.prev[tc := NULL], parent := links.parent[tc := NULL]);
      }
    }

    /** Fill in the header of the new chunk `tc` of `n` bytes and put it in front of the children of `parent`. */
    method InitChunk(parent: Addr, tc: Addr, n: nat)
      requires Quiet() && tc != NULL && tc !in Live(f) && (parent == NULL || (parent in Live(f) && parent !in f.refs.target))
      requires parent == NULL ==> nullContext == NULL
      modifies this
      ensures Quiet() && (Context(old(f), parent) == NULL || Context(old(f), parent) in Live(old(f)))
      ensures f == Allocated(old(f), parent, tc) && size == old(size)[tc := n] && calls == old(calls)
      ensures hooks == old(hooks).(refs := old(hooks).refs[tc := NULL]) && destructor == old(destructor)[tc := Unset]
    {
      hide Represents, Inv, Allocated, ChildFields, Blank;
      ghost var l, k, g := links, hooks, f;
      InitFacts(l, k, destructor, size.Keys, calls, g, parent, tc);
      size := size[tc := n];
      destructor := destructor[tc := Unset];
      hooks := hooks.(refs := hooks.refs[tc := NULL]);
      InitLinks(parent, tc);
      RepInit(l, links, k, old(destructor), old(size).Keys, calls, g, parent, tc);
      assert size.Keys == old(size).Keys + {tc};
      f := Allocated(g, parent, tc);
    }
  
    /** A new chunk of `n` bytes below the context; `got` is the memory that was obtained, NULL if none was. */
    method Alloc(context: Addr, n: nat, got: Addr) returns (r: Addr)
      requires Quiet() && IsContext(f, context) && (got == NULL || got !in Live(f))
      modifies this
      ensures Quiet() && calls == old(calls) && r == if n >= MAX_TALLOC_SIZE then NULL else got
      ensures r == NULL ==> f == old(f) && size == old(size)
      ensures r != NULL ==> Context(old(f), context) == NULL || Context(old(f), context) in Live(old(f))
      ensures r != NULL ==> f == Allocated(old(f), context, r) && size == old(size)[r := n]
      ensures r != NULL ==> hooks == old(hooks).(refs := old(hooks).refs[r := NULL]) && destructor == old(destructor)[r := Unset]
    {
      hide Represents, Inv, Attach, Newborn;
      RepFacts(links, hooks, destructor, size.Keys, calls, f);
      var ctx := context;
      if ctx == NULL {
        ctx := nullContext;
      }
      if n >= MAX_TALLOC_SIZE {
        return NULL;
      }
      if got == NULL {
        return NULL;
      }
      InitChunk(ctx, got, n);
      return got;
    }

    /** Turn the new chunk `handle` into the newest reference to `ptr`. */
    method HookHandle(handle: Addr, ptr: Addr)
      requires Quiet() && handle in Live(f) && handle !in f.refs.target && handle != nullContext && handle != NULL && handle != ptr
      requires f.tree.kids[handle] == [] && handle in f.refs.list && f.refs.list[handle] == [] && handle in f.dtor && f.dtor[handle] == NoDtor
      requires ptr in Live(f) && ptr in f.refs.list && ptr !in f.refs.target && ptr != nullContext
      modifies `hooks, `destructor, `f
      ensures Quiet() && ptr in old(f).refs.list && f == old(f).(refs := Hook(old(f).refs, handle, ptr))
    {
      hide Represents, Inv, SibRep, TreeInv, RefRep, DtorRep, RefsInv, Hook, HookedFields, Linked, SameOutside;
      ghost var k, d := hooks, destructor;
      RepHooks(links, k, d, size.Keys, calls, f);
      HooksReady(k, f, ptr, handle);
      destructor := destructor[handle := RefHandle];
      hooks := hooks.(next := hooks.next[handle := NULL], prev := hooks.prev[handle := NULL], ptr := hooks.ptr[handle := ptr]);
      var next, prev, list := TlistAdd(hooks.next, hooks.prev, hooks.refs[ptr], handle, f.refs.list[ptr]);
      hooks := hooks.(next := next, prev := prev, refs := hooks.refs[ptr := list]);
      HooksDone(k, hooks, f.refs.list[ptr], ptr, handle);
      RepHooked(links, k, hooks, d, size.Keys, calls, f, ptr, handle);
      f := f.(refs := Hook(f.refs, handle, ptr));
    }

    /** A new reference to `ptr` below the context; `got` is the memory obtained for the handle. */
    method Reference(context: Addr, ptr: Addr, got: Addr) returns (r: Addr)
      requires Quiet() && IsContext(f, context) && (got == NULL || got !in Live(f))
      requires ptr == NULL || (ptr in Live(f) && ptr !in f.refs.target && ptr != nullContext)
      modifies this
      ensures Quiet() && r == if got == NULL then NULL else ptr
      ensures r == NULL ==> f == old(f) && size == old(size)
      ensures r != NULL ==> (Context(old(f), context) == NULL || Context(old(f), context) in Live(old(f))) && ptr in old(f).refs.list
      ensures r != NULL ==> f == Referenced(old(f), context, ptr, got) && size == old(size)[got := HANDLE_SIZE]
    {
      hide Represents, Inv, Allocated, Referenced, Hook, RefRep, SibRep, DtorRep;
      if ptr == NULL {
        return NULL;
      }
      ghost var g := f;
      RepFacts(links, hooks, destructor, size.Keys, calls, f);
      var handle := Alloc(context, HANDLE_SIZE, got);
      if handle == NULL {
        return NULL;
      }
      AllocatedInv(g, context, handle);
      AllocatedRefs(g, context, handle);
      HookHandle(handle, ptr);
      ReferencedIs(g, context, ptr, handle);
      return ptr;
    }
  
    /** Give `ptr` a destructor of its own, or none. */
    method SetDestructor(ptr: Addr, d: Destructor)
      requires Quiet() && ptr in Live(f) && ptr !in f.refs.target && (d.Unset? || d.User?)
      modifies `destructor, `f
      ensures Quiet() && f == old(f).(dtor := old(f).dtor[ptr := DtorOf(d)])
    {
      hide Represents, Inv;
      RepSetDtor(links, hooks, destructor, size.Keys, calls, f, ptr, d);
      destructor := destructor[ptr := d];
      f := f.(dtor := f.dtor[ptr := DtorOf(d)]);
    }

    /** Move `ptr` to another context. */
    method StealTo(newCtx: Addr, ptr: Addr) returns (r: Addr)
      requires Quiet() && IsContext(f, newCtx)
      requires ptr == NULL || (ptr in Live(f) && ptr !in f.refs.target && ptr != nullContext)
      modifies `links, `f
      ensures Quiet() && r == ptr && (ptr == NULL ==> f == old(f))
      ensures ptr != NULL ==> ptr in old(f).tree.up && (old(f).nullCtx == NULL || old(f).nullCtx in old(f).tree.kids)
      ensures ptr != NULL ==> f == Stolen(old(f), newCtx, ptr)
    {
      hide Represents, Inv, Stolen;
      ghost var g := f;
      RepFacts(links, hooks, destructor, size.Keys, calls, g);
      r := Steal(newCtx, ptr);
      if ptr != NULL {
        StolenOut(g, newCtx, ptr);
      }
    }

    /** Free `ptr` from outside. */
    method FreePtr(ptr: Addr) returns (ret: int)
      requires Quiet() && (ptr != NULL ==> Freeable(f, ptr) && ptr !in f.refs.target && ptr in f.refs.list)
      requires ptr != NULL ==> SafeToFree(f, ptr)
      modifies this
      ensures Quiet() && SizesKept(old(size), size)
      ensures ptr == NULL ==> ret == -1 && f == old(f) && size == old(size)
      ensures ptr != NULL ==> Freeable(old(f), ptr) && (f, ret) == FreeOf(old(f), ptr)
    {
      hide Represents, Inv, FreeOf, Ranked, Fenced, InFence, Entry, Above, Free, SizesKept, ReadsLive, SameOn, SibRep, Freeable;
      SizesSame(size);
      if ptr == NULL {
        return -1;
      }
      ghost var m := Back(ptr, Predecessor(f.tree, ptr));
      ghost var rank :| ReadsLive(f, ptr, rank, m);
      ghost var g := f;
      RepFacts(links, hooks, destructor, size.Keys, calls, g);
      SafeRank(g, ptr, rank, m);
      FenceOfCall(links, g, ptr, rank);
      ret := FreeChunk(ptr, rank, Subtree(g, ptr), m);
      FreeOfIs(g, ptr, rank);
    }

    /** Drop the newest reference to `ptr` that hangs from the context. */
    method Unreference(context: Addr, ptr: Addr) returns (ret: int)
      requires Quiet() && IsContext(f, context) && ptr in Live(f) && ptr in f.refs.list
      modifies this
      ensures Quiet() && SizesKept(old(size), size)
      ensures Inv(old(f)) && ptr in old(f).refs.list && (f, ret) == Unreferenced(old(f), context, ptr)
      ensures ret == -1 ==> unchanged(this)
    {
      hide Represents, Inv, Fenced, InFence, SizesKept, SameOn, SibRep, RefRep, DtorRep, RefsInv, TreeInv, HandleFreed, Linked;
      ghost var g, hs := f, f.refs.list[ptr];
      RepFacts(links, hooks, destructor, size.Keys, calls, g);
      FreeFacts(links, hooks, destructor, size.Keys, calls, g, ptr);
      SizesSame(size);
      var ctx := context;
      if ctx == NULL {
        ctx := nullContext;
      }
      var h := hooks.refs[ptr];
      ghost var i := 0;
      while h != NULL
        invariant 0 <= i <= |hs| && h == At(hs, i) && unchanged(this)
        invariant FindHandle(g.tree.up, hs, ctx) == FindHandle(g.tree.up, hs[i..], ctx)
        decreases |hs| - i
      {
        HandleAt(hooks, g, ptr, i);
        var p := ParentChunk(h);
        if p == ctx {
          break;
        }
        h := hooks.next[h];
        i := i + 1;
      }
      if h == NULL {
        NoNullTarget(g);
        if i < |hs| {
          HandleAt(hooks, g, ptr, i);
        }
        return -1;
      }
      HandleAt(hooks, g, ptr, i);
      FenceOfHandle(links, g, h);
      ret := FreeChunk(h, map[], Live(g), Back(NULL, NULL));
      HandleGoneFacts(g, h, f, ret);
    }
  
    /** The context of the newest reference to `ptr` becomes its parent. */
    method Inherit(ptr: Addr) returns (ret: int)
      requires Quiet() && Settled(f, ptr) && ptr != nullContext && f.refs.list[ptr] != []
      modifies this
      ensures Quiet() && SizesKept(old(size), size)
      ensures Inv(old(f)) && InheritedBy(old(f), ptr, f, ret)
    {
      hide Represents, Inv, SizesKept, SibRep, RefRep, DtorRep, RefsInv, TreeInv, HandleFreed, Unreferenced, Owners, Stolen, Shrinks, OnlyHandlesGone, RemoveFirst;
      ghost var g := f;
      RepFacts(links, hooks, destructor, size.Keys, calls, g);
      FreeFacts(links, hooks, destructor, size.Keys, calls, g, ptr);
      HandleContext(g, ptr);
      var newParent := ParentChunk(hooks.refs[ptr]);
      UnreferencedOwners(g, newParent, ptr);
      ret := Unreference(newParent, ptr);
      if ret != 0 {
        return -1;
      }
      StillContext(g, f, newParent);
      StillSettled(g, f, ptr);
      var _ := StealTo(newParent, ptr);
      return 0;
    }

    /** Remove the owner `context` of `ptr`. */
    method UnlinkFrom(context: Addr, ptr: Addr) returns (ret: int)
      requires Quiet() && IsContext(f, context) && (ptr != NULL ==> Freeable(f, ptr) && Settled(f, ptr))
      requires ptr != NULL && f.refs.list[ptr] == [] && f.tree.up[ptr] == Context(f, context) ==> SafeToFree(f, ptr)
      modifies this
      ensures Quiet() && SizesKept(old(size), size)
      ensures ptr == NULL ==> ret == -1 && f == old(f)
      ensures ptr != NULL ==> Freeable(old(f), ptr) && Settled(old(f), ptr) && (f, ret) == OwnerRemoved(old(f), context, ptr)
    {
      hide Represents, Inv, FreeOf, SizesKept, SibRep, Unreferenced, Owners, Freeable, SafeToFree, OwnerRemoved, InheritedBy, OnlyHandlesGone, Shrinks, RemoveFirst;
      SizesSame(size);
      if ptr == NULL {
        return -1;
      }
      ghost var g := f;
      FreeableFacts(g, ptr);
      RepFacts(links, hooks, destructor, size.Keys, calls, g);
      var ctx := context;
      if ctx == NULL {
        ctx := nullContext;
      }
      SameContext(g, context, ptr);
      OwnerRemovedSteps(g, context, ptr);
      ret := Unreference(ctx, ptr);
      if ret == 0 {
        return 0;
      }
      UnreferencedNothing(g, context, ptr);
      ghost var sizes := size;
      var parent := ParentChunk(ptr);
      if ctx != parent {
        return -1;
      }
      FreeFacts(links, hooks, destructor, size.Keys, calls, g, ptr);
      if hooks.refs[ptr] == NULL {
        ret := FreePtr(ptr);
      } else {
        ret := Inherit(ptr);
      }
      SizesChain(old(size), sizes, size);
    }
  
    /** Point the four neighbours of `tc` at it. */
    method PatchNeighbours(tc: Addr)
      requires tc in links.next && tc in links.prev && tc in links.parent && tc in links.child
      requires links.parent[tc] != tc && links.prev[tc] != tc
      modifies `links
      ensures links == Patched(old(links), tc)
    {
      if links.parent[tc] != NULL {
        links := links.(child := links.child[links.parent[tc] := tc]);
      }
      if links.child[tc] != NULL {
        links := links.(parent := links.parent[links.child[tc] := tc]);
      }
      if links.prev[tc] != NULL {
        links := links.(next := links.next[links.prev[tc] := tc]);
      }
      if links.next[tc] != NULL {
        links := links.(prev := links.prev[links.next[tc] := tc]);
      }
    }

    /** The header and the body of `ptr` are now at `tc`, its old place is free, and the neighbours are told. */
    method MoveChunk(ptr: Addr, tc: Addr) returns (r: Addr)
      requires Quiet() && ptr in Live(f) && (tc == ptr || Movable(f, ptr, tc))
      modifies this
      ensures Quiet() && r == tc && tc in Live(f)
      ensures tc == ptr ==> f == old(f) && size == old(size)
      ensures tc != ptr ==> Movable(old(f), ptr, tc) && tc !in old(size) && f == Renamed(old(f), ptr, tc) && size == ReKey(old(size), ptr, tc)
    {
      hide Represents, Inv, SibRep, RefRep, DtorRep, TreeInv, RefsInv, Movable, Renamed, Patched, ReLinks, MovedLinks, ReHooks, ReKey;
      ghost var l, k, d, g := links, hooks, destructor, f;
      RepFacts(l, k, d, size.Keys, calls, g);
      if tc != ptr {
        RepRenamed(l, k, d, size.Keys, calls, g, ptr, tc);
        KeysMoved(l, g, ptr, tc);
        links := MovedLinks(links, ptr, tc);
        hooks := ReHooks(hooks, ptr, tc);
        destructor, size := ReKey(destructor, ptr, tc), ReKey(size, ptr, tc);
        PatchedRename(l, g, ptr, tc);
        RenamedFrame(g, ptr, tc, old(size));
        MovedLive(g, ptr, tc);
        f := Renamed(g, ptr, tc);
      } else {
        PatchedSame(l, g, ptr);
      }
      PatchNeighbours(tc);
      return tc;
    }

    method SetSize(ptr: Addr, n: nat)
      requires Quiet() && ptr in Live(f)
      modifies `size
      ensures Quiet() && size == old(size)[ptr := n]
    {
      hide Inv, SibRep, RefRep, DtorRep;
      assert size[ptr := n].Keys == size.Keys;
      size := size[ptr := n];
    }

    /** The chunk `ptr` has `n` bytes from now on, at `got`. Referenced chunks are not resized. */
    method Resize(ptr: Addr, n: nat, got: Addr) returns (r: Addr)
      requires Quiet() && Settled(f, ptr) && ptr != nullContext && (got == NULL || got !in Live(f) || got == ptr)
      modifies this
      ensures Quiet() && Settled(old(f), ptr) && r == (if old(f).refs.list[ptr] != [] then NULL else got)
      ensures r == NULL ==> f == old(f) && size == old(size)
      ensures r == ptr ==> f == old(f) && size == old(size)[ptr := n]
      ensures r != NULL && r != ptr ==>
        Movable(old(f), ptr, r) && r !in old(size) && f == Renamed(old(f), ptr, r) && size == ReKey(old(size), ptr, r)[r := n]
    {
      hide Represents, Inv, SibRep, RefRep, DtorRep, Movable, Renamed, ReKey;
      RepFacts(links, hooks, destructor, size.Keys, calls, f);
      FreeFacts(links, hooks, destructor, size.Keys, calls, f, ptr);
      if hooks.refs[ptr] != NULL {
        return NULL;
      }
      if got == NULL {
        return NULL;
      }
      if got != ptr {
        IsMovable(f, ptr, got);
      }
      r := MoveChunk(ptr, got);
      SetSize(r, n);
    }

    /** Resize `ptr` to `n` bytes; `got` is the address the memory has afterwards, NULL if none could be had. */
    method Realloc(context: Addr, ptr: Addr, n: nat, got: Addr) returns (r: Addr)
      requires Quiet() && (ptr == NULL ==> IsContext(f, context))
      requires ptr != NULL ==> Settled(f, ptr) && ptr != nullContext
      requires ptr != NULL && n == 0 ==> Freeable(f, ptr) && SafeToFree(f, ptr)
      requires got == NULL || got !in Live(f) || (got == ptr && ptr != NULL)
      modifies this
      ensures Quiet()
      ensures n == 0 ==> r == NULL && SizesKept(old(size), size)
      ensures n == 0 ==> if ptr == NULL then f == old(f) else Freeable(old(f), ptr) && f == FreeOf(old(f), ptr).0
      ensures n >= MAX_TALLOC_SIZE ==> r == NULL && f == old(f) && size == old(size)
      ensures 0 < n < MAX_TALLOC_SIZE && ptr == NULL ==>
        && r == got && (Context(old(f), context) == NULL || Context(old(f), context) in Live(old(f)))
        && (r == NULL ==> f == old(f) && size == old(size))
        && (r != NULL ==> f == Allocated(old(f), context, r) && size == old(size)[r := n])
      ensures 0 < n < MAX_TALLOC_SIZE && ptr != NULL ==>
        && Settled(old(f), ptr) && r == (if old(f).refs.list[ptr] != [] then NULL else got)
        && (r == NULL ==> f == old(f) && size == old(size))
        && (r == ptr ==> f == old(f) && size == old(size)[ptr := n])
        && (r != NULL && r != ptr ==>
              Movable(old(f), ptr, r) && r !in old(size) && f == Renamed(old(f), ptr, r) && size == ReKey(old(size), ptr, r)[r := n])
    {
      hide Represents, Inv, FreeOf, Freeable, SafeToFree, Movable, Renamed, ReKey, Allocated, SizesKept;
      RepFacts(links, hooks, destructor, size.Keys, calls, f);
      if n == 0 {
        var _ := FreePtr(ptr);
        return NULL;
      }
      if n >= MAX_TALLOC_SIZE {
        return NULL;
      }
      if ptr == NULL {
        r := Alloc(context, n, got);
        return;
      }
      r := Resize(ptr, n, got);
    }
  
    /** Resize `ptr` to `n` elements of `elSize` bytes; the count is 32 bits wide. */
    method ReallocArray(context: Addr, ptr: Addr, elSize: nat, n: nat, got: Addr) returns (r: Addr)
      requires Quiet() && elSize > 0 && (ptr == NULL ==> IsContext(f, context))
      requires ptr != NULL ==> Settled(f, ptr) && ptr != nullContext
      requires ptr != NULL && n % UINT_RANGE == 0 && elSize <= MAX_TALLOC_SIZE ==> Freeable(f, ptr) && SafeToFree(f, ptr)
      requires got == NULL || got !in Live(f) || (got == ptr && ptr != NULL)
      modifies this
      ensures Quiet()
      ensures ptr != NULL ==> Settled(old(f), ptr) && ArrayResized(old(f), old(size), ptr, elSize, n, got, r, f, size)
      ensures ptr == NULL ==> ArrayMade(old(f), old(size), context, elSize, n, got, r, f, size)
    {
      hide Represents, Inv, FreeOf, Freeable, SafeToFree, Movable, Renamed, ReKey, Allocated, SizesKept;
      var count := n % UINT_RANGE;
      if count >= MAX_TALLOC_SIZE / elSize {
        return NULL;
      }
      FitsLimit(elSize, count);
      r := Realloc(context, ptr, elSize * count, got);
    }

    // ------------------------------------------------------------------ freeing the null context

    /** Free the first child of the null context. */
    method FreeFirst(ghost rank: map<Addr, int>) returns (ret: int)
      requires Quiet() && Tracked(f, rank) && nullContext in f.tree.kids && f.tree.kids[nullContext] != []
      modifies this
      ensures Quiet() && SizesKept(old(size), size)
      ensures var c := old(f).tree.kids[nullContext][0];
        c in Live(old(f)) && c != old(f).nullCtx && Ranked(old(f), rank, c) && (f, ret) == Free(old(f), c, rank)
    {
      hide SizesKept, Represents, Inv, SibRep, TreeInv, RefRep, DtorRep, RefsInv, Fenced, InFence, Entry, Ranked, Above, Free, HandleFreed, SameOn, ChunkFreed, HandleGone, KeptElsewhere, ReadsLive, Rooted, FenceFor, BackFor;
      ghost var g, c := f, f.tree.kids[nullContext][0];
      RepInv(links, hooks, destructor, size.Keys, calls, g);
      LoopFacts(links, hooks, destructor, size.Keys, calls, g, nullContext);
      FirstMayGo(links, g, rank);
      FirstIs(links, hooks, destructor, size.Keys, calls, g, nullContext);
      ret := FreeChunk(links.child[nullContext], rank, FenceFor(g, c), BackFor(g, c));
      FirstFreed(g, rank, f, ret);
    }

    /** One round of the loop over the children of the null context. */
    method NullStep(ghost rank: map<Addr, int>)
      requires Quiet() && Tracked(f, rank) && nullContext in f.tree.kids && f.tree.kids[nullContext] != []
      modifies this
      ensures Quiet() && SizesKept(old(size), size) && Tracked(old(f), rank) && f == NullRound(old(f), rank)
    {
      hide SizesKept, Represents, Inv, SibRep, TreeInv, RefRep, DtorRep, RefsInv, Ranked, Free, Stolen, Rooted, Shrinks, OnlyHandlesGone, Mobile;
      ghost var g := f;
      RepInv(links, hooks, destructor, size.Keys, calls, g);
      HeadOfNull(g, rank);
      FirstIs(links, hooks, destructor, size.Keys, calls, g, nullContext);
      var c := links.child[nullContext];
      FreeFacts(links, hooks, destructor, size.Keys, calls, g, c);
      var newParent := nullContext;
      if hooks.refs[c] != NULL {
        var q := ParentChunk(hooks.refs[c]);
        if q != NULL {
          newParent := q;
        }
      }
      assert newParent == Holder(g, c);
      var r := FreeFirst(rank);
      if r == -1 {
        TakerOk(g, rank, f);
        if newParent == nullContext {
          var p := ParentChunk(nullContext);
          if p != NULL {
            newParent := p;
          }
        }
        var _ := StealTo(newParent, c);
      }
    }

    /** Free everything below the null context. It ends when no other chunk refuses. */
    method EmptyNullContext(ghost rank: map<Addr, int>) returns (ghost n: nat)
      requires Quiet() && Tracked(f, rank) && forall x :: x in f.dtor && x != nullContext ==> f.dtor[x] != Refuses
      modifies this
      ensures Quiet() && SizesKept(old(size), size) && Tracked(old(f), rank)
      ensures f == Rounds(old(f), rank, n) && Live(f) == {nullContext}
    {
      hide SizesKept, Represents, Inv, SibRep, TreeInv, RefRep, DtorRep, RefsInv, Ranked, Rooted, Shrinks, Mobile, NullRound, Rounds;
      n := 0;
      SizesSame(size);
      RoundsFrom(f, rank);
      NullListed(links, hooks, destructor, size.Keys, calls, f);
      while links.child[nullContext] != NULL
        invariant Quiet() && Tracked(f, rank) && Tracked(old(f), rank) && SizesKept(old(size), size) && f == Rounds(old(f), rank, n)
        invariant nullContext in links.child && nullContext in f.tree.kids && (links.child[nullContext] == NULL <==> f.tree.kids[nullContext] == [])
        invariant forall x :: x in f.dtor && x != nullContext ==> f.dtor[x] != Refuses
        decreases Mobile(f)
      {
        ghost var g, sizes := f, size;
        HeadOfNull(g, rank);
        RoundKeeps(g, rank);
        NullStep(rank);
        SizesChain(old(size), sizes, size);
        OneMore(old(f), rank, n, g);
        StillNoneRefuses(g, f);
        NullListed(links, hooks, destructor, size.Keys, calls, f);
        n := n + 1;
      }
      AloneAtEnd(old(f), rank, n) by { IsEnded(old(f), rank, n); }
    }

    // ------------------------------------------------------------------ counting

    /** The size of everything below `ptr`, marks kept. */
    method SizeBelow(ptr: Addr) returns (total: nat)
      requires Rep() && f.tree.out == {} && ptr in Live(f)
      modifies `looping
      ensures looping == old(looping) && total == SizeOf(size, Visit(f.tree, ptr, old(looping)))
      decreases Live(f) - looping
    {
      hide Represents, Inv, SibRep, Visit, Visits;
      CountFacts(links, hooks, destructor, size.Keys, calls, f, ptr);
      ghost var w, s := looping + {ptr}, f.tree.kids[ptr];
      VisitStep(f.tree, ptr, looping, size);
      if ptr in looping {
        return 0;
      }
      looping := looping + {ptr};
      total := size[ptr];
      var c := links.child[ptr];
      ghost var i := 0;
      while c != NULL
        invariant 0 <= i <= |s| && c == At(s, i) && looping == w
        invariant total + SizeOf(size, Visits(f.tree, s[i..], w)) == size[ptr] + SizeOf(size, Visits(f.tree, s, w))
        decreases |s| - i
      {
        NextChild(links, f, ptr, i, w, size);
        var n := SizeBelow(c);
        total := total + n;
        c := links.next[c];
        i := i + 1;
      }
      NoMore(links, f, ptr, i, w, size);
      assert w - {ptr} == old(looping);
      looping := looping - {ptr};
    }

    /** The number of chunks below `ptr`, marks kept. */
    method BlocksBelow(ptr: Addr) returns (total: nat)
      requires Rep() && f.tree.out == {} && ptr in Live(f)
      modifies `looping
      ensures looping == old(looping) && total == |Visit(f.tree, ptr, old(looping))|
      decreases Live(f) - looping
    {
      hide Represents, Inv, SibRep, Visit, Visits;
      CountFacts(links, hooks, destructor, size.Keys, calls, f, ptr);
      ghost var w, s := looping + {ptr}, f.tree.kids[ptr];
      VisitStep(f.tree, ptr, looping, size);
      if ptr in looping {
        return 0;
      }
      looping := looping + {ptr};
      total := 1;
      var c := links.child[ptr];
      ghost var i := 0;
      while c != NULL
        invariant 0 <= i <= |s| && c == At(s, i) && looping == w
        invariant total + |Visits(f.tree, s[i..], w)| == 1 + |Visits(f.tree, s, w)|
        decreases |s| - i
      {
        NextChild(links, f, ptr, i, w, size);
        var n := BlocksBelow(c);
        total := total + n;
        c := links.next[c];
        i := i + 1;
      }
      NoMore(links, f, ptr, i, w, size);
      assert w - {ptr} == old(looping);
      looping := looping - {ptr};
    }

    /** The size of everything below `ptr`, NULL standing for the null context. */
    method TotalSize(ptr: Addr) returns (total: nat)
      requires Quiet() && (ptr == NULL || ptr in Live(f))
      modifies `looping
      ensures Quiet() && looping == old(looping)
      ensures total == if ptr == NULL && nullContext == NULL then 0 else SizeOf(size, Visit(f.tree, if ptr == NULL then nullContext else ptr, {}))
    {
      hide Represents, Inv, SibRep, Visit;
      RepFacts(links, hooks, destructor, size.Keys, calls, f);
      var p := ptr;
      if p == NULL {
        p := nullContext;
      }
      if p == NULL {
        return 0;
      }
      total := SizeBelow(p);
    }
  }
}
