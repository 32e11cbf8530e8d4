/**
 What the fields of the allocator must spell out, and one lemma for each step of the operations:
 the step's field updates spell out the step's edit of the abstract state.
 */
module TallocSteps {
  import opened Seqs
  import opened Tlist
  import opened ChildLists
  import opened RefLists
  import opened Forests
  import opened Siblings
  import opened RefLinks
  import opened Walks
  import opened FreeRounds
  import opened Fences
  import opened StaleReads
  import opened Acyclicity

  /** The destructor field: unset, a user callback with its fixed answer, the handles' own
      destructor, or the mark for a destructor that is running. */
  datatype Destructor = Unset | User(accepts: bool) | RefHandle | Running

  function DestructorOf(dtor: map<Addr, Dtor>, target: map<Addr, Addr>, a: Addr): Destructor
    requires a in dtor
  {
    if a in target then RefHandle
    else match dtor[a]
      case NoDtor => Unset
      case Accepts => User(true)
      case Refuses => User(false)
  }

  ghost predicate DtorRep(destructor: map<Addr, Destructor>, dtor: map<Addr, Dtor>, target: map<Addr, Addr>) {
    destructor.Keys == dtor.Keys && forall a :: a in dtor ==> destructor[a] == DestructorOf(dtor, target, a)
  }

  /** The header fields, the handle bodies and the log spell out `f`, the LOOP marks aside. */
  ghost predicate Represents(l: Links, k: Hooks, d: map<Addr, Destructor>, sized: set<Addr>, calls: seq<Addr>, f: Forest) {
    && Inv(f) && f.calls == calls
    && SibRep(l, f.tree) && RefRep(k, f.refs) && DtorRep(d, f.dtor, f.refs.target)
    && sized == Live(f) && k.ptr.Keys <= Live(f)
  }

  lemma RepFacts(l: Links, k: Hooks, d: map<Addr, Destructor>, sized: set<Addr>, calls: seq<Addr>, f: Forest)
    requires Represents(l, k, d, sized, calls, f)
    ensures Inv(f) && TreeInv(f.tree) && RefsInv(f.refs) && SibRep(l, f.tree) && RefRep(k, f.refs)
    ensures DtorRep(d, f.dtor, f.refs.target)
    ensures f.nullCtx == NULL || (f.nullCtx in f.tree.kids && f.nullCtx !in f.refs.target)
    ensures Live(f) == f.tree.up.Keys == f.refs.list.Keys == f.dtor.Keys && f.tree.out <= Live(f) && NULL !in Live(f)
    ensures l.next.Keys == l.prev.Keys == l.parent.Keys == l.child.Keys == Live(f) == k.refs.Keys == d.Keys == sized
  {
    hide ListsRep, OthersRep, HookLists;
    KeysAgree(f);
  }

  /** Of the facts about the fields, those that do not mention their domains. */
  lemma RepInv(l: Links, k: Hooks, d: map<Addr, Destructor>, sized: set<Addr>, calls: seq<Addr>, f: Forest)
    requires Represents(l, k, d, sized, calls, f)
    ensures Inv(f) && TreeInv(f.tree) && SibRep(l, f.tree) && NULL !in Live(f)
    ensures f.nullCtx == NULL || (f.nullCtx in f.tree.kids && f.nullCtx !in f.refs.target)
  {
    hide SibRep, RefRep, DtorRep;
    KeysAgree(f);
  }

  lemma RepPrev(l: Links, k: Hooks, d: map<Addr, Destructor>, sized: set<Addr>, calls: seq<Addr>, f: Forest)
    requires Represents(l, k, d, sized, calls, f)
    ensures l.prev.Keys == Live(f) && f.tree.out <= Live(f)
  {
    KeysAgree(f);
  }

  lemma RepHooks(l: Links, k: Hooks, d: map<Addr, Destructor>, sized: set<Addr>, calls: seq<Addr>, f: Forest)
    requires Represents(l, k, d, sized, calls, f)
    ensures Inv(f) && RefRep(k, f.refs)
  {
  }

  lemma RepUnlinked(l: Links, l': Links, k: Hooks, d: map<Addr, Destructor>, sized: set<Addr>, calls: seq<Addr>, f: Forest, p: Addr)
    requires Represents(l, k, d, sized, calls, f) && p in f.tree.up && p !in f.refs.target && p != f.nullCtx
    requires SibRep(l', Detach(f.tree, p))
    ensures Represents(l', k, d, sized, calls, Unlinked(f, p))
  {
    UnlinkedInv(f, p);
    hide SibRep, RefRep, DtorRep, Inv;
  }

  lemma DtorRan(d: map<Addr, Destructor>, f: Forest, p: Addr)
    requires p in f.dtor && (p in f.refs.target ==> f.refs.target[p] in f.refs.list)
    requires DtorRep(d, f.dtor, f.refs.target) && (p in f.refs.target ==> f.dtor[p] == NoDtor) && f.dtor[p] != Refuses
    ensures DtorRep(d[p := Unset], Ran(f, p).dtor, Ran(f, p).refs.target)
  {
  }

  /** What the destructor field says, and what running the destructor changes. */
  lemma RunFacts(l: Links, k: Hooks, d: map<Addr, Destructor>, sized: set<Addr>, calls: seq<Addr>, f: Forest, p: Addr)
    requires Represents(l, k, d, sized, calls, f) && p in Live(f)
    ensures p in f.dtor && p in d && f.calls == calls
    ensures d[p] == RefHandle <==> p in f.refs.target
    ensures p in f.refs.target ==> f.refs.target[p] in f.refs.list && f.dtor[p] == NoDtor
                                   && Ran(f, p).refs == Unhook(f.refs, p) && Ran(f, p).calls == calls
    ensures p !in f.refs.target ==> Ran(f, p).refs == f.refs
    ensures d[p] == Unset ==> f.dtor[p] == NoDtor && p !in f.refs.target && Ran(f, p).calls == calls
    ensures d[p] == User(false) <==> f.dtor[p] == Refuses
    ensures d[p] == User(true) ==> f.dtor[p] == Accepts && Ran(f, p).calls == calls + [p]
    ensures d[p] != Running
    ensures Ran(f, p).nullCtx == f.nullCtx
  {
    hide SibRep, RefRep, TreeInv, RefsInv, NullCtxOk, HandleOk;
    KeysAgree(f);
    if p in f.refs.target {
      HandleFacts(f, p);
      HandlePlain(f, p);
    }
  }

  lemma HandlePlain(f: Forest, h: Addr)
    requires Inv(f) && h in f.refs.target
    ensures h in f.dtor && f.dtor[h] == NoDtor
  {
    assert HandleOk(f, h);
  }

  lemma RepRan(l: Links, k: Hooks, k': Hooks, d: map<Addr, Destructor>, sized: set<Addr>, calls: seq<Addr>, f: Forest, p: Addr)
    requires Represents(l, k, d, sized, calls, f) && p in Live(f) && p in f.dtor && f.dtor[p] != Refuses
    requires p in f.refs.target ==> f.refs.target[p] in f.refs.list && f.dtor[p] == NoDtor
    requires RefRep(k', Ran(f, p).refs) && k'.ptr.Keys == k.ptr.Keys
    ensures Represents(l, k', d[p := Unset], sized, Ran(f, p).calls, Ran(f, p))
  {
    hide SibRep, RefRep, DtorRep, TreeInv, RefsInv, Inv;
    RanInv(f, p);
    DtorRan(d, f, p);
  }

  lemma RepMoved(l: Links, l': Links, k: Hooks, d: map<Addr, Destructor>, sized: set<Addr>, calls: seq<Addr>, f: Forest, q: Addr, c: Addr)
    requires Represents(l, k, d, sized, calls, f) && c in Live(f) && c in f.tree.up && c != f.nullCtx && c != q
    requires if q == NULL then f.nullCtx == NULL else q in Live(f) && q !in f.refs.target
    requires SibRep(l', Move(f.tree, q, c))
    ensures Represents(l', k, d, sized, calls, f.(tree := Move(f.tree, q, c)))
  {
    hide SibRep, RefRep, DtorRep, TreeInv, RefsInv, Inv, Move;
    RepFacts(l, k, d, sized, calls, f);
    StolenInv(f, q, c);
  }

  /** The pointer work of putting `c` below `q`, from unlinking to the new list. */
  lemma MovedBelow(l: Links, l1: Links, l2: Links, k: Hooks, d: map<Addr, Destructor>, sized: set<Addr>, calls: seq<Addr>, f: Forest, q: Addr, c: Addr)
    requires Represents(l, k, d, sized, calls, f) && c in Live(f) && c in f.tree.up && c !in f.tree.out && c != f.nullCtx && c != q
    requires q in Live(f) && q !in f.refs.target && q != NULL && NotStale(l, f.tree, c)
    requires Represents(l1, k, d, sized, calls, Unlinked(f, c)) && SameOn(l.prev, l1.prev, Unlinked(f, c).tree.out)
    requires q in Unlinked(f, c).tree.kids && AttachedFields(l1, l2, Unlinked(f, c).tree.kids[q], q, c)
    ensures Represents(l2, k, d, sized, calls, f.(tree := Move(f.tree, q, c)))
    ensures SameOn(l.prev, l2.prev, Move(f.tree, q, c).out)
  {
    hide Represents, Inv, SibRep, TreeInv, NotStale, RefRep, DtorRep, AttachedFields, Detach, Attach, Move, RefsInv, SameOn;
    var g := Unlinked(f, c);
    RepFacts(l, k, d, sized, calls, f);
    RepFacts(l1, k, d, sized, calls, g);
    MoveFacts(f.tree, q, c);
    StaysNotStale(l, l1, f.tree, c);
    AttachRep(l1, l2, g.tree, q, c);
    AttachKeepsStale(l1, l2, g.tree, q, c);
    SameOnChain(l.prev, l1.prev, l2.prev, g.tree.out, f.tree.out);
    RepMoved(l, l2, k, d, sized, calls, f, q, c);
  }

  /** The same for a chunk that becomes a top-level chunk. */
  lemma MovedToTop(l: Links, l1: Links, l2: Links, k: Hooks, d: map<Addr, Destructor>, sized: set<Addr>, calls: seq<Addr>, f: Forest, c: Addr)
    requires Represents(l, k, d, sized, calls, f) && c in Live(f) && c in f.tree.up && c !in f.tree.out && c != NULL
    requires f.nullCtx == NULL && NotStale(l, f.tree, c)
    requires Represents(l1, k, d, sized, calls, Unlinked(f, c)) && SameOn(l.prev, l1.prev, Unlinked(f, c).tree.out)
    requires l2 == Links(l1.next[c := NULL], l1.prev[c := NULL], l1.parent[c := NULL], l1.child)
    ensures Represents(l2, k, d, sized, calls, f.(tree := Move(f.tree, NULL, c)))
    ensures SameOn(l.prev, l2.prev, Move(f.tree, NULL, c).out)
  {
    hide Represents, Inv, SibRep, TreeInv, NotStale, RefRep, DtorRep, Detach, Attach, Move, RefsInv, SameOn;
    var g := Unlinked(f, c);
    RepFacts(l, k, d, sized, calls, f);
    RepFacts(l1, k, d, sized, calls, g);
    MoveFacts(f.tree, NULL, c);
    StaysNotStale(l, l1, f.tree, c);
    TopLevelRep(l1, l2, g.tree, c);
    SetKeeps(l1.prev, c, NULL, f.tree.out);
    SameOnChain(l.prev, l1.prev, l2.prev, g.tree.out, f.tree.out);
    RepMoved(l, l2, k, d, sized, calls, f, NULL, c);
  }

  lemma ReadyToMove(l: Links, k: Hooks, d: map<Addr, Destructor>, sized: set<Addr>, calls: seq<Addr>, f: Forest, q: Addr, c: Addr)
    requires Represents(l, k, d, sized, calls, f) && c in Live(f) && c in f.tree.up && c !in f.tree.out && c != q && q in Live(f)
    ensures Live(Unlinked(f, c)) == Live(f) && c != NULL && c in Unlinked(f, c).tree.out
  {
    hide Inv, SibRep, RefRep, DtorRep, Represents, Detach, Attach, Move;
    RepFacts(l, k, d, sized, calls, f);
    MoveFacts(f.tree, NULL, c);
  }

  lemma ListAfterUnlink(l: Links, k: Hooks, d: map<Addr, Destructor>, sized: set<Addr>, calls: seq<Addr>, f: Forest, q: Addr, c: Addr)
    requires Represents(l, k, d, sized, calls, f) && c in f.tree.out && c in Live(f) && q in Live(f)
    ensures ListRep(l, q, f.tree.kids[q]) && c !in f.tree.kids[q] && c in l.next && c in l.prev && c in l.parent
  {
    hide Inv, SibRep, RefRep, DtorRep, Represents;
    RepFacts(l, k, d, sized, calls, f);
    ListOf(l, f.tree, q);
    assert KidsOk(f.tree, q);
  }

  lemma RepReleased(l: Links, k: Hooks, d: map<Addr, Destructor>, sized: set<Addr>, calls: seq<Addr>, f: Forest, p: Addr)
    requires Represents(l, k, d, sized, calls, f) && p in f.tree.out && p in Live(f) && p !in f.refs.target && p != f.nullCtx
    requires f.tree.kids[p] == [] && p in f.refs.list && f.refs.list[p] == [] && NotUp(f, p)
    ensures Represents(Links(l.next - {p}, l.prev - {p}, l.parent - {p}, l.child - {p}),
                       Hooks(k.refs - {p}, k.next - {p}, k.prev - {p}, k.ptr - {p}), d - {p}, sized - {p}, calls, Released(f, p))
  {
    hide Inv, SibRep, RefRep, TreeInv, RefsInv;
    RepFacts(l, k, d, sized, calls, f);
    ReleasedInv(f, p);
    ReleaseRep(l, Links(l.next - {p}, l.prev - {p}, l.parent - {p}, l.child - {p}), f.tree, p);
    UnrefRep(k, Hooks(k.refs - {p}, k.next - {p}, k.prev - {p}, k.ptr - {p}), f.refs, p);
  }

  lemma SafeRank(f: Forest, p: Addr, rank: map<Addr, int>, m: Back)
    requires ReadsLive(f, p, rank, m)
    ensures Inv(f) && p in Live(f) && p != f.nullCtx && Ranked(f, rank, p)
  {
  }

  /** `p` is being emptied, and can be, inside the fence `b`. */
  ghost predicate MayEmpty(prev: map<Addr, Addr>, f: Forest, p: Addr, rank: map<Addr, int>, b: set<Addr>, m: Back) {
    Emptied(f, p, rank) && Fenced(prev, f, b, m) && p in b && m.at in f.tree.out && DrainReadsLive(f, p, rank, m)
  }

  /** The state `f` in which the destructor of the unreferenced chunk `p` is about to run. */
  ghost predicate Disposable(l: Links, f: Forest, p: Addr, rank: map<Addr, int>, b: set<Addr>, m: Back) {
    && Inv(f) && p in Live(f) && p != f.nullCtx && p !in f.tree.out && p in f.refs.list && f.refs.list[p] == []
    && p in f.dtor && f.dtor[p] != Refuses && (p in f.refs.target ==> f.refs.target[p] in f.refs.list)
    && SibRep(l, f.tree) && Fenced(l.prev, f, b, m) && InFence(f, b, p)
    && (p !in f.refs.target ==> ReadsLive(f, p, rank, m) && Entry(l.prev, f, b, m, p))
  }

  lemma SameAsItself(m: map<Addr, Addr>, w: set<Addr>)
    ensures SameOn(m, m, w)
  {
  }

  /** The chunks that are left have the size they had. */
  ghost predicate SizesKept(size: map<Addr, nat>, size': map<Addr, nat>) {
    forall x :: x in size' ==> x in size && size'[x] == size[x]
  }

  lemma SizesSame(size: map<Addr, nat>)
    ensures SizesKept(size, size)
  {
  }

  lemma SizesLess(size: map<Addr, nat>, p: Addr)
    ensures SizesKept(size, size - {p})
  {
  }

  lemma SizesChain(s0: map<Addr, nat>, s1: map<Addr, nat>, s2: map<Addr, nat>)
    requires SizesKept(s0, s1) && SizesKept(s1, s2)
    ensures SizesKept(s0, s2)
  {
  }

  // ------------------------------------------------------------------ the stages of a free

  ghost predicate HandleGone(f: Forest, h: Addr, g: Forest, ret: int)
    requires h in f.refs.target
  {
    Inv(f) && h in Live(f) && f.refs.target[h] in f.refs.list && h in f.dtor && h in f.tree.up
    && g == HandleFreed(f, h) && ret == 0
  }

  ghost predicate ChunkFreed(f: Forest, p: Addr, rank: map<Addr, int>, g: Forest, ret: int) {
    Inv(f) && p in Live(f) && p != f.nullCtx && Ranked(f, rank, p) && (g, ret) == Free(f, p, rank)
  }

  lemma LoopFacts(l: Links, k: Hooks, d: map<Addr, Destructor>, sized: set<Addr>, calls: seq<Addr>, f: Forest, p: Addr)
    requires Represents(l, k, d, sized, calls, f) && p in Live(f)
    ensures p in l.child && (l.child[p] == NULL <==> f.tree.kids[p] == [])
    ensures SameOn(l.prev, l.prev, f.tree.out)
  {
    hide Inv, RefRep, DtorRep;
    ListOf(l, f.tree, p);
  }

  lemma DisposableFacts(l: Links, f: Forest, p: Addr, rank: map<Addr, int>, b: set<Addr>, m: Back)
    requires Disposable(l, f, p, rank, b, m)
    ensures Inv(f) && p in Live(f) && p in f.dtor && p in f.tree.up && (p in f.refs.target ==> f.refs.target[p] in f.refs.list)
    ensures p != f.nullCtx && p !in f.tree.out && p != NULL && p in f.refs.list
    ensures Emptying(f, p) == Unlinked(Ran(f, p), p) && Inv(Emptying(f, p)) && p in Live(Emptying(f, p))
    ensures Emptying(f, p).tree.out == f.tree.out + {p} && Emptying(f, p).nullCtx == f.nullCtx && p !in Emptying(f, p).refs.target
    ensures p in Emptying(f, p).refs.list && Emptying(f, p).refs.list[p] == []
    ensures NotUp(f, p) && l.prev.Keys == Live(f) == f.tree.up.Keys && f.tree.out <= Live(f)
    ensures Fenced(l.prev, f, b, m) && (p !in f.refs.target ==> p in b && Entry(l.prev, f, b, m, p) && ReadsLive(f, p, rank, m))
  {
    hide Inv, Fenced, ListsRep, OthersRep, Ranked, NotUp, TreeInv, RefsInv, Ran, Unlinked;
    KeysAgree(f);
    EmptyingInv(f, p);
    EmptyingFacts(f, p);
    FenceShields(l, f, b, m, p);
  }

  lemma DisposableHandle(l: Links, f: Forest, p: Addr, rank: map<Addr, int>, b: set<Addr>, m: Back)
    requires Disposable(l, f, p, rank, b, m) && p in f.refs.target
    ensures p in f.tree.up && p in Emptying(f, p).tree.kids && Emptying(f, p).tree.kids[p] == []
    ensures HandleFreed(f, p) == Released(Emptying(f, p), p)
  {
    DisposableFacts(l, f, p, rank, b, m);
    HandleEmpty(f, p);
  }

  lemma DisposableChunk(l: Links, f: Forest, p: Addr, rank: map<Addr, int>, b: set<Addr>, m: Back)
    requires Disposable(l, f, p, rank, b, m) && p !in f.refs.target
    ensures p in f.tree.up && Emptied(Emptying(f, p), p, rank) && DrainReadsLive(Emptying(f, p), p, rank, m)
    ensures Ranked(f, rank, p) && Free(f, p, rank) == (Released(Drain(Emptying(f, p), p, rank), p), 0)
  {
    hide Inv, SibRep, Fenced, Ranked, Emptying, Emptied, Drain, Free;
    DisposableFacts(l, f, p, rank, b, m);
    FreeStep(f, p, rank);
  }

  lemma BeforeUnlink(l: Links, k: Hooks, d: map<Addr, Destructor>, sized: set<Addr>, calls: seq<Addr>, f: Forest, p: Addr, rank: map<Addr, int>, b: set<Addr>, m: Back)
    requires Disposable(l, f, p, rank, b, m) && p in f.dtor && (p in f.refs.target ==> f.refs.target[p] in f.refs.list)
    requires Represents(l, k, d, sized, calls, Ran(f, p))
    ensures Inv(Ran(f, p)) && p in Live(Ran(f, p)) && p !in Ran(f, p).tree.out && p !in Ran(f, p).refs.target
    ensures Ran(f, p).tree == f.tree && Ran(f, p).nullCtx == f.nullCtx && p != f.nullCtx
    ensures p in f.tree.up && l.prev.Keys == Live(f) && p in Live(Emptying(f, p)) && Emptying(f, p) == Unlinked(Ran(f, p), p)
  {
    hide Inv, Represents, SibRep, Fenced, InFence, Entry, Ranked, NotUp, Disposable;
    DisposableFacts(l, f, p, rank, b, m);
    RanInv(f, p);
  }

  lemma AfterUnlink(l: Links, l1: Links, k: Hooks, d: map<Addr, Destructor>, sized: set<Addr>, calls: seq<Addr>, f: Forest, p: Addr, rank: map<Addr, int>, b: set<Addr>, m: Back)
    requires Disposable(l, f, p, rank, b, m) && p in f.tree.up && p in f.dtor
    requires p in f.refs.target ==> f.refs.target[p] in f.refs.list
    requires Represents(l1, k, d, sized, calls, Unlinked(Ran(f, p), p)) && SameOn(l.prev, l1.prev, Unlinked(Ran(f, p), p).tree.out)
    ensures var e := Unlinked(Ran(f, p), p);
      && p in Live(e) && e.tree.out == f.tree.out + {p} && l1.prev.Keys == l.prev.Keys && Mobile(e) < Mobile(f)
      && (e.tree.kids[p] == [] || MayEmpty(l1.prev, e, p, rank, b, m))
  {
    hide Represents, Inv, Fenced, SibRep, Ranked, NotUp, SameOn, Disposable, Emptying, Emptied, Entry, InFence, ReadsLive, DrainReadsLive, Mobile, MayEmpty;
    DisposableFacts(l, f, p, rank, b, m);
    EmptyingMobile(f, p);
    PrevKeys(l1, k, d, sized, calls, Unlinked(Ran(f, p), p));
    if p in f.refs.target {
      DisposableHandle(l, f, p, rank, b, m);
    } else {
      ChunkMayEmpty(l, l1, f, p, rank, b, m);
    }
  }

  lemma ChunkMayEmpty(l: Links, l1: Links, f: Forest, p: Addr, rank: map<Addr, int>, b: set<Addr>, m: Back)
    requires Disposable(l, f, p, rank, b, m) && p !in f.refs.target && l1.prev.Keys == l.prev.Keys
    requires SameOn(l.prev, l1.prev, f.tree.out + {p})
    ensures p in f.dtor && p in f.tree.up && MayEmpty(l1.prev, Emptying(f, p), p, rank, b, m)
  {
    hide Inv, Fenced, SibRep, SameOn, Disposable, Emptying, Emptied, ReadsLive, DrainReadsLive;
    DisposableFacts(l, f, p, rank, b, m);
    DisposableChunk(l, f, p, rank, b, m);
    FenceEmptying(l.prev, l1.prev, f, b, m, p);
  }

  lemma PrevKeys(l: Links, k: Hooks, d: map<Addr, Destructor>, sized: set<Addr>, calls: seq<Addr>, f: Forest)
    requires Represents(l, k, d, sized, calls, f)
    ensures l.prev.Keys == Live(f)
  {
    hide Inv, RefRep, DtorRep;
  }

  lemma NoReferences(l: Links, f: Forest, p: Addr, rank: map<Addr, int>, b: set<Addr>, m: Back)
    requires Disposable(l, f, p, rank, b, m)
    ensures p in f.refs.list && f.refs.list[p] == []
  {
  }

  /** The emptied state `h`, reached from the state `f` before the destructor ran. */
  ghost predicate EmptyDone(l1: Links, l2: Links, f: Forest, h: Forest, p: Addr, rank: map<Addr, int>, b: set<Addr>, m: Back)
    requires p in f.tree.up && p in f.dtor && (p in f.refs.target ==> f.refs.target[p] in f.refs.list) && p in Live(Emptying(f, p))
  {
    var e := Emptying(f, p);
    if e.tree.kids[p] == [] then h == e && l2 == l1
    else Emptied(e, p, rank) && h == Drain(e, p, rank) && Fenced(l2.prev, h, b, m)
  }

  lemma AfterEmptying(l: Links, l1: Links, l2: Links, k: Hooks, d: map<Addr, Destructor>, sized: set<Addr>, calls: seq<Addr>, f: Forest, h: Forest, p: Addr, rank: map<Addr, int>, b: set<Addr>, m: Back)
    requires Disposable(l, f, p, rank, b, m) && p in f.tree.up && p in f.dtor
    requires p in f.refs.target ==> f.refs.target[p] in f.refs.list
    requires p in Live(Emptying(f, p)) && EmptyDone(l1, l2, f, h, p, rank, b, m)
    requires SameOn(l.prev, l1.prev, f.tree.out + {p}) && l1.prev.Keys == l.prev.Keys && Represents(l2, k, d, sized, calls, h)
    ensures p in h.tree.out && p in Live(h) && p !in h.refs.target && p != h.nullCtx
    ensures h.tree.kids[p] == [] && p in h.refs.list && h.refs.list[p] == []
    ensures NotUp(h, p) && h.tree.out == f.tree.out + {p}
    ensures p !in f.refs.target ==> Emptied(Emptying(f, p), p, rank) && h == Drain(Emptying(f, p), p, rank) && Fenced(l2.prev, h, b, m)
    ensures p in f.refs.target ==> h == Emptying(f, p)
  {
    hide Represents, Inv, Fenced, SibRep, Ranked, NotUp, SameOn, Disposable, Emptying, Emptied, Entry, InFence, Drain;
    DisposableFacts(l, f, p, rank, b, m);
    RepFacts(l2, k, d, sized, calls, h);
    var e := Emptying(f, p);
    ShieldKept(f, p);
    if p in f.refs.target {
      DisposableHandle(l, f, p, rank, b, m);
    } else {
      DisposableChunk(l, f, p, rank, b, m);
      if e.tree.kids[p] == [] {
        DrainNothing(e, p, rank);
        NoReferences(l, f, p, rank, b, m);
        FenceEmptying(l.prev, l1.prev, f, b, m, p);
      } else {
        DrainedFacts(e, p, rank);
        ShieldAtEnd(l2, e, h, b, m, p);
      }
    }
  }

  lemma DrainedFacts(e: Forest, p: Addr, rank: map<Addr, int>)
    requires Emptied(e, p, rank) && p in e.refs.list && p !in e.refs.target && e.refs.list[p] == []
    ensures var h := Drain(e, p, rank);
      && Inv(h) && Shrinks(e, h) && h.tree.out == e.tree.out && p in h.tree.out && p in Live(h) && p !in h.refs.target && p != h.nullCtx
      && h.tree.kids[p] == [] && p in h.refs.list && h.refs.list[p] == [] && e.tree.out <= e.tree.up.Keys && h.tree.out <= h.tree.up.Keys
  {
    hide TreeInv, RefsInv, Drain, Ranked, HandleOk;
    KeysAgree(e);
    KeysAgree(Drain(e, p, rank));
  }

  lemma AfterRelease(l: Links, l1: Links, l2: Links, l3: Links, f: Forest, h: Forest, p: Addr, rank: map<Addr, int>, b: set<Addr>, m: Back)
    requires Disposable(l, f, p, rank, b, m) && p in f.tree.up && p in f.dtor
    requires p in f.refs.target ==> f.refs.target[p] in f.refs.list
    requires SameOn(l.prev, l1.prev, f.tree.out + {p}) && SameOn(l1.prev, l2.prev, h.tree.out) && l3.prev == l2.prev - {p}
    requires NotUp(h, p) && h.tree.out == f.tree.out + {p} && l2.prev.Keys == Live(h)
    requires p !in f.refs.target ==> Emptied(Emptying(f, p), p, rank) && h == Drain(Emptying(f, p), p, rank) && Fenced(l2.prev, h, b, m)
    requires p in f.refs.target ==> h == Emptying(f, p)
    requires h.tree.out <= Live(h)
    ensures Fenced(l3.prev, Released(h, p), b, m) && SameOn(l.prev, l3.prev, Released(h, p).tree.out)
    ensures Released(h, p).tree.out == h.tree.out - {p}
    ensures p in f.refs.target ==> HandleGone(f, p, Released(h, p), 0)
    ensures p !in f.refs.target ==> ChunkFreed(f, p, rank, Released(h, p), 0)
  {
    hide Inv, Fenced, SibRep, Ranked, NotUp, SameOn, Disposable, Emptying, Emptied, Entry, InFence, Drain, Free, HandleFreed;
    DisposableFacts(l, f, p, rank, b, m);
    SameOnChain(l.prev, l1.prev, l2.prev, f.tree.out + {p}, h.tree.out);
    DropKeeps(l2.prev, p, f.tree.out);
    SameOnLess(l.prev, l2.prev, h.tree.out, f.tree.out);
    SameOnChain(l.prev, l2.prev, l3.prev, f.tree.out, f.tree.out);
    assert Released(h, p).tree.out == f.tree.out;
    if p in f.refs.target {
      DisposableHandle(l, f, p, rank, b, m);
      FenceHandleFreed(l.prev, l3.prev, f, b, m, p);
    } else {
      DisposableChunk(l, f, p, rank, b, m);
      SameOnLess(l2.prev, l3.prev, f.tree.out, h.tree.out - {p});
      FenceReleased(l2.prev, l3.prev, h, b, m, p);
    }
  }

  lemma DropKeeps(m: map<Addr, Addr>, c: Addr, w: set<Addr>)
    requires c !in w
    ensures SameOn(m, m - {c}, w)
  {
  }

  lemma SameOnLess(m: map<Addr, Addr>, m': map<Addr, Addr>, w: set<Addr>, v: set<Addr>)
    requires SameOn(m, m', w) && v <= w
    ensures SameOn(m, m', v)
  {
  }

  /** The `prev` fields of the chunks whose parent is not `q` are as they were. */
  ghost predicate KeptElsewhere(prev: map<Addr, Addr>, prev': map<Addr, Addr>, t: Tree, q: Addr) {
    forall x :: x in t.up && t.up[x] != q && x in prev && x in prev' ==> prev'[x] == prev[x]
  }

  lemma UnlinkKeepsElsewhere(l: Links, l': Links, t: Tree, q: Addr, k: nat)
    requires TreeInv(t) && q in t.kids && k < |t.kids[q]| && UnlinkedFields(l, l', t.kids[q], k, q)
    ensures KeptElsewhere(l.prev, l'.prev, t, q)
  {
    assert KidsOk(t, q);
    hide Linked, HeadMarked, TreeInv;
  }

  lemma DropKeepsElsewhere(prev: map<Addr, Addr>, prev': map<Addr, Addr>, t: Tree, q: Addr, p: Addr)
    requires KeptElsewhere(prev, prev', t, q)
    ensures KeptElsewhere(prev, prev' - {p}, t, q)
  {
  }

  /** What is known when a free starts. */
  lemma FreeFacts(l: Links, k: Hooks, d: map<Addr, Destructor>, sized: set<Addr>, calls: seq<Addr>, f: Forest, p: Addr)
    requires Represents(l, k, d, sized, calls, f) && p in Live(f) && p in f.refs.list
    ensures p in k.refs && k.refs[p] == At(f.refs.list[p], 0)
    ensures f.refs.list[p] == [] <==> k.refs[p] == NULL
    ensures p in f.refs.target ==> f.refs.list[p] == [] && p !in f.tree.out && p in f.dtor && f.dtor[p] == NoDtor
    ensures f.refs.list[p] != [] ==>
      var h := f.refs.list[p][0];
      && h in f.refs.target && f.refs.target[h] == p && h in Live(f) && h != f.nullCtx && h in f.refs.list && f.refs.list[h] == [] && h !in f.tree.out
  {
    hide SibRep, DtorRep, TreeInv;
    assert HookList(k, p, f.refs.list[p]) && ListOk(f.refs, p);
    assert p in f.refs.target ==> HandleOk(f, p);
    if f.refs.list[p] != [] {
      assert f.refs.list[p][0] in f.refs.list[p];
      assert HandleOk(f, f.refs.list[p][0]);
    }
  }

  /** The three ways a free ends before anything is released. */
  lemma FreeEarly(f: Forest, p: Addr, rank: map<Addr, int>)
    requires Inv(f) && p in Live(f) && p != f.nullCtx && Ranked(f, rank, p) && p in f.refs.list && p in f.dtor
    ensures f.refs.list[p] == [] && p in f.tree.out ==> ChunkFreed(f, p, rank, f, 0)
    ensures f.refs.list[p] == [] && p !in f.tree.out && f.dtor[p] == Refuses ==> ChunkFreed(f, p, rank, f, -1)
  {
    hide Inv, Ranked, Drain;
  }

  /** A referenced chunk: its newest handle goes, and the free is retried when that handle hung below. */
  lemma FreeByHandle(f: Forest, p: Addr, rank: map<Addr, int>, h: Addr, g: Forest, r: int)
    requires Inv(f) && p in Live(f) && p != f.nullCtx && Ranked(f, rank, p) && p in f.refs.list && f.refs.list[p] != []
    requires h == f.refs.list[p][0] && h in f.refs.target && HandleGone(f, h, g, r)
    ensures
      && f.refs.target[h] in f.refs.list && h in f.dtor && h in f.tree.up && g == HandleFreed(f, h)
      && r == 0 && p !in g.refs.target && Inv(g) && p in Live(g) && p != g.nullCtx && p in g.refs.list && Ranked(g, rank, p) && Mobile(g) < Mobile(f)
      && (!Above(f.tree, p, h) ==> ChunkFreed(f, p, rank, g, -1))
  {
    FreeLosesHandle(f, p, rank);
    hide Inv, Ranked, HandleFreed, Above, Shrinks;
  }

  /** Nothing below `p` shares the parent of `p`. */
  lemma BelowElsewhere(f: Forest, p: Addr, h: Addr, rank: map<Addr, int>)
    requires Inv(f) && p in f.tree.up && h in f.tree.up && h != p && Above(f.tree, p, h) && Ranked(f, rank, p)
    ensures f.tree.up[h] != f.tree.up[p]
  {
    KeysAgree(f);
    AboveStep(f.tree, p, h);
    AboveEnds(f.tree, p);
    if f.tree.up[p] != NULL {
      RankBelow(f, p, f.tree.up[p], rank);
    }
    hide Inv, Above;
  }

  /** An ancestor ranks no higher. */
  lemma RankBelow(f: Forest, p: Addr, a: Addr, rank: map<Addr, int>)
    requires NULL !in f.tree.up && Ranked(f, rank, p) && p != NULL
    ensures Above(f.tree, p, a) ==> Rk(rank, p) <= Rk(rank, a)
  {
    if Above(f.tree, p, a) {
      var n: nat :| UpN(f.tree, a, n) == p;
      RankUp(f, a, n, rank, p);
    }
  }

  lemma {:induction false} RankUp(f: Forest, a: Addr, n: nat, rank: map<Addr, int>, x: Addr)
    requires NULL !in f.tree.up && Ranked(f, rank, x)
    ensures UpN(f.tree, a, n) != NULL ==> Rk(rank, UpN(f.tree, a, n)) <= Rk(rank, a)
  {
    if n > 0 {
      RankUp(f, a, n - 1, rank, x);
    } else {
      assert UpN(f.tree, a, 0) == a;
    }
  }

  lemma EntryKept(prev: map<Addr, Addr>, prev': map<Addr, Addr>, f: Forest, g: Forest, b: set<Addr>, m: Back, p: Addr, h: Addr, rank: map<Addr, int>)
    requires Inv(f) && p in Live(f) && p !in f.refs.target && Ranked(f, rank, p) && Entry(prev, f, b, m, p)
    requires h in f.refs.target && h in f.tree.up && Above(f.tree, p, h) && HandleGone(f, h, g, 0)
    requires KeptElsewhere(prev, prev', f.tree, f.tree.up[h]) && prev'.Keys == Live(g) && p in Live(g)
    ensures Entry(prev', g, b, m, p)
  {
    hide Ranked, Above, Inv, HandleFreed;
    KeysAgree(f);
    BelowElsewhere(f, p, h, rank);
    HandleFreedTree(f, h);
  }

  lemma HandleFreedTree(f: Forest, h: Addr)
    requires Inv(f) && h in f.refs.target && h in f.tree.up
    ensures var g := HandleFreed(f, h);
      g.tree.up == f.tree.up - {h} && g.refs.target == f.refs.target - {h} && g.tree.out == f.tree.out
  {
    assert HandleOk(f, h);
  }

  lemma MakeDisposable(l: Links, k: Hooks, d: map<Addr, Destructor>, sized: set<Addr>, calls: seq<Addr>, f: Forest, p: Addr, rank: map<Addr, int>, b: set<Addr>, m: Back)
    requires Represents(l, k, d, sized, calls, f) && p in Live(f) && p != f.nullCtx && p !in f.tree.out
    requires p in f.refs.list && f.refs.list[p] == [] && p in f.dtor && f.dtor[p] != Refuses
    requires Fenced(l.prev, f, b, m) && InFence(f, b, p)
    requires p !in f.refs.target ==> ReadsLive(f, p, rank, m) && Entry(l.prev, f, b, m, p)
    ensures Disposable(l, f, p, rank, b, m) && (p in f.refs.target ==> f.refs.target[p] in f.refs.list)
  {
    hide Fenced, InFence, Ranked, Entry, SibRep, RefRep, TreeInv;
  }

  // ------------------------------------------------------------------ the stages of one round

  lemma RoundStart(l: Links, k: Hooks, d: map<Addr, Destructor>, sized: set<Addr>, calls: seq<Addr>, f: Forest, p: Addr, rank: map<Addr, int>, b: set<Addr>, m: Back)
    requires Represents(l, k, d, sized, calls, f) && MayEmpty(l.prev, f, p, rank, b, m) && f.tree.kids[p] != []
    ensures var c := f.tree.kids[p][0];
      && p in l.child && l.child[p] == c && c != NULL && c in Live(f) && c != f.nullCtx && c in f.refs.list && c in b
      && c !in f.tree.out && Entry(l.prev, f, b, m, c) && ReadsLive(f, c, rank, m)
      && (f.refs.list[c] != [] ==> f.refs.list[c][0] in f.tree.up)
  {
    hide Inv, Ranked, Fenced, Represents, SibRep, FreeReadsLive;
    RepFacts(l, k, d, sized, calls, f);
    EntryOfChild(l, f, b, m, p);
    HolderOk(f, p, f.tree.kids[p][0], rank);
    RankedAny(f, rank, f.tree.kids[p][0]);
    RoundReads(f, p, rank, m);
  }

  /** The walks of one round and of the rounds after it. */
  lemma RoundReads(f: Forest, p: Addr, rank: map<Addr, int>, m: Back)
    requires Emptied(f, p, rank) && f.tree.kids[p] != [] && DrainReadsLive(f, p, rank, m)
    ensures var c := f.tree.kids[p][0];
      && c in Live(f) && c != f.nullCtx && Ranked(f, rank, c) && c in f.refs.list
      && (f.refs.list[c] != [] ==> f.refs.list[c][0] in f.tree.up)
      && FreeReadsLive(f, c, rank, m)
      && (Free(f, c, rank).1 == -1 && Holder(f, c) == f.nullCtx && p == m.at ==> Alive(Free(f, c, rank).0, m.to))
    ensures Emptied(NextRound(f, p, rank), p, rank) && DrainReadsLive(NextRound(f, p, rank), p, rank, m)
  {
    hide Inv, Ranked, FreeReadsLive, Free, Holder, Shrinks;
    HolderOk(f, p, f.tree.kids[p][0], rank);
    RankedAny(f, rank, f.tree.kids[p][0]);
    DrainStep(f, p, rank);
  }

  /** The chunk that is being emptied may look for its parent. */
  lemma AdoptIsSafe(f: Forest, p: Addr, rank: map<Addr, int>, b: set<Addr>, m: Back, g: Forest, l: Links)
    requires Emptied(f, p, rank) && f.tree.kids[p] != [] && DrainReadsLive(f, p, rank, m)
    requires f.tree.kids[p][0] !in f.refs.target && ChunkFreed(f, f.tree.kids[p][0], rank, g, -1)
    requires Inv(g) && SibRep(l, g.tree) && Fenced(l.prev, g, b, m) && p in g.tree.out
    ensures f.tree.kids[p][0] in f.refs.list
    ensures f.refs.list[f.tree.kids[p][0]] != [] ==> f.refs.list[f.tree.kids[p][0]][0] in f.tree.up
    ensures Holder(f, f.tree.kids[p][0]) == f.nullCtx ==> Walkable(l, g.tree, p)
  {
    hide Inv, Ranked, FreeReadsLive, Free, Holder, Fenced, SibRep, Walkable, DrainReadsLive;
    RoundReads(f, p, rank, m);
    if Holder(f, f.tree.kids[p][0]) == f.nullCtx {
      BackWalkable(l, g, b, m, p);
    }
  }

  /** Checking where the newest reference `h` to `p` hangs walks through live chunks. */
  lemma CheckIsSafe(l: Links, k: Hooks, d: map<Addr, Destructor>, sized: set<Addr>, calls: seq<Addr>, f: Forest, p: Addr, h: Addr, rank: map<Addr, int>, b: set<Addr>, m: Back)
    requires Represents(l, k, d, sized, calls, f) && Fenced(l.prev, f, b, m) && ReadsLive(f, p, rank, m)
    requires f.refs.list[p] != [] && h == f.refs.list[p][0]
    ensures forall z :: z in f.tree.out && Above(f.tree, z, h) ==> Walkable(l, f.tree, z)
    ensures h in f.refs.target && f.refs.target[h] in f.refs.list && h in f.dtor && h in f.tree.up
    ensures Above(f.tree, p, h) ==> ReadsLive(HandleFreed(f, h), p, rank, m)
  {
    hide Inv, Ranked, Free, SibRep, Walkable, Fenced, Above, HandleFreed, RefRep, DtorRep, DrainReadsLive;
    FreeLosesHandle(f, p, rank);
    HandleFacts(f, h);
    forall z | z in f.tree.out && Above(f.tree, z, h) ensures Walkable(l, f.tree, z) {
      BackWalkable(l, f, b, m, z);
    }
    if Above(f.tree, p, h) {
      StillThere(f, p, h, rank);
    }
  }

  lemma StillThere(f: Forest, p: Addr, h: Addr, rank: map<Addr, int>)
    requires Inv(f) && p in Live(f) && p != f.nullCtx && Ranked(f, rank, p) && f.refs.list[p] != [] && h == f.refs.list[p][0]
    ensures h in f.refs.target && f.refs.target[h] in f.refs.list && h in f.dtor && h in f.tree.up
    ensures var g := HandleFreed(f, h); Inv(g) && p in Live(g) && p != g.nullCtx && Ranked(g, rank, p)
  {
    hide Ranked, HandleFreed;
    FreeLosesHandle(f, p, rank);
    HandleFacts(f, h);
  }

  lemma RoundOfHandle(f: Forest, p: Addr, rank: map<Addr, int>, g: Forest, ret: int)
    requires Emptied(f, p, rank) && f.tree.kids[p] != []
    requires f.tree.kids[p][0] in f.refs.target && HandleGone(f, f.tree.kids[p][0], g, ret)
    ensures NextRound(f, p, rank) == g && ret == 0
  {
    hide Inv, Ranked, HandleFreed, DrainRound, Free;
    RoundHandle(f, p, f.tree.kids[p][0], rank);
  }

  lemma RoundOfChunk(f: Forest, p: Addr, rank: map<Addr, int>, g: Forest, ret: int)
    requires Emptied(f, p, rank) && f.tree.kids[p] != []
    requires ChunkFreed(f, f.tree.kids[p][0], rank, g, ret)
    ensures ret != -1 ==> NextRound(f, p, rank) == g
    ensures ret == -1 ==>
      var c := f.tree.kids[p][0];
      && c in f.tree.up && c in f.refs.list && (f.refs.list[c] != [] ==> f.refs.list[c][0] in f.tree.up)
      && p in g.tree.up && c in Live(g) && c in g.tree.up && c !in g.tree.out && c !in g.refs.target && c != g.nullCtx && p in Live(g)
      && (g.nullCtx == NULL || g.nullCtx in g.tree.kids)
      && var a := Adopter(g, p, Holder(f, c));
      && (a == NULL || (a in Live(g) && a !in g.refs.target))
      && NextRound(f, p, rank) == Stolen(g, a, c)
  {
    hide Inv, Ranked, Shrinks, OnlyHandlesGone, Mobile, Adopter, Holder, Stolen;
    var c := f.tree.kids[p][0];
    HolderOk(f, p, c, rank);
    if ret == -1 {
      AdopterOk(f, p, c, rank, g);
      ParentStays(f, p, c, rank, g);
    }
  }

  lemma StolenOut(f: Forest, q: Addr, c: Addr)
    requires Inv(f) && c in Live(f) && c in f.tree.up && c !in f.tree.out && (q == NULL || q in Live(f))
    requires f.nullCtx == NULL || f.nullCtx in f.tree.kids
    ensures Stolen(f, q, c).tree.out == f.tree.out && Live(Stolen(f, q, c)) == Live(f)
  {
    hide Inv, Move, TreeInv;
    StolenShrinks(f, q, c);
    hide Shrinks;
    SameOut(f, Stolen(f, q, c));
  }

  lemma FreeAgain(f: Forest, p: Addr, rank: map<Addr, int>, h: Addr, g: Forest, e: Forest, ret: int)
    requires Inv(f) && p in Live(f) && p != f.nullCtx && Ranked(f, rank, p) && p in f.refs.list && f.refs.list[p] != []
    requires h == f.refs.list[p][0] && h in f.refs.target && HandleGone(f, h, g, 0) && Above(f.tree, p, h)
    requires ChunkFreed(g, p, rank, e, ret)
    ensures ChunkFreed(f, p, rank, e, ret)
  {
    hide Ranked, HandleFreed, Above, Shrinks;
    FreeLosesHandle(f, p, rank);
  }

  lemma WalkStart(t: Tree, a: Addr)
    ensures Above(t, a, a)
  {
    assert UpN(t, a, 0) == a;
  }

  lemma TopFacts(l: Links, k: Hooks, d: map<Addr, Destructor>, sized: set<Addr>, calls: seq<Addr>, f: Forest)
    requires Represents(l, k, d, sized, calls, f)
    ensures NULL !in f.tree.up && f.tree.up.Keys == Live(f)
  {
    hide SibRep, RefRep, DtorRep;
    KeysAgree(f);
  }

  lemma ParentRank(f: Forest, a: Addr, rank: map<Addr, int>, x: Addr)
    requires Ranked(f, rank, x) && a in f.tree.up && f.tree.up[a] != NULL
    ensures Rk(rank, f.tree.up[a]) < Rk(rank, a)
  {
  }

  /** Whoever is above the parent of `a` is above `a`. */
  lemma WalkOn(t: Tree, a: Addr)
    requires a in t.up
    ensures forall z :: Above(t, z, t.up[a]) ==> Above(t, z, a)
  {
    forall z | Above(t, z, t.up[a]) ensures Above(t, z, a) {
      var n: nat :| UpN(t, t.up[a], n) == z;
      UpShift(t, a, n);
    }
  }

  lemma RanTree(f: Forest, p: Addr)
    requires p in f.dtor && (p in f.refs.target ==> f.refs.target[p] in f.refs.list)
    ensures Ran(f, p).tree == f.tree && Ran(f, p).nullCtx == f.nullCtx
  {
  }
}
