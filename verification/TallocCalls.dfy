/**
 Calls of the allocator from outside: what makes them safe, and that it holds.
 */
module TallocCalls {
  import opened Seqs
  import opened ChildLists
  import opened RefLists
  import opened Forests
  import opened Ownership
  import opened Siblings
  import opened RefLinks
  import opened Walks
  import opened Fences
  import opened StaleReads
  import opened TallocSteps
  import opened Operations
  import opened Acyclicity
  import opened Unlinking

  lemma SubtreeClosed(f: Forest, p: Addr)
    requires Inv(f) && p in Live(f)
    ensures Closed(f.tree, Subtree(f, p)) && p in Subtree(f, p)
  {
    KeysAgree(f);
    AboveEnds(f.tree, p);
    hide RefsInv, Above;
    forall a, c | a in Subtree(f, p) && a in f.tree.kids && c in f.tree.kids[a] ensures c in Subtree(f, p) {
      assert KidsOk(f.tree, a);
      if c != p {
        AboveStep(f.tree, p, c);
      }
    }
  }

  /** Neither the parent of `p` nor a sibling lies below `p`. */
  lemma OutsideSubtree(f: Forest, p: Addr, rank: map<Addr, int>)
    requires Inv(f) && p in f.tree.up && Ranked(f, rank, p)
    ensures !Above(f.tree, p, f.tree.up[p])
    ensures forall y :: y in f.tree.up && f.tree.up[y] == f.tree.up[p] && y != p ==> !Above(f.tree, p, y)
  {
    KeysAgree(f);
    AboveEnds(f.tree, p);
    RankBelow(f, p, f.tree.up[p], rank);
    hide Inv, Above;
    forall y | y in f.tree.up && f.tree.up[y] == f.tree.up[p] && y != p ensures !Above(f.tree, p, y) {
      AboveStep(f.tree, p, y);
    }
  }

  /** The `prev` field of a chunk in a list, and where the chunk it holds hangs. */
  lemma PrevField(l: Links, f: Forest, p: Addr)
    requires Inv(f) && SibRep(l, f.tree) && f.tree.out == {} && p in Live(f) && p in f.tree.up
    ensures p in l.prev && l.prev[p] == Predecessor(f.tree, p)
    ensures l.prev[p] != NULL ==> l.prev[p] in f.tree.up && f.tree.up[l.prev[p]] == f.tree.up[p] && l.prev[p] != p
  {
    KeysAgree(f);
    hide RefsInv, ListsRep;
    if f.tree.up[p] != NULL {
      ChunkAt(l, f.tree, p);
      assert KidsOk(f.tree, f.tree.up[p]);
      assert l.prev[p] != NULL ==> l.prev[p] in f.tree.kids[f.tree.up[p]];
    }
  }

  /** The fence of a free from outside. */
  lemma FenceOfCall(l: Links, f: Forest, p: Addr, rank: map<Addr, int>)
    requires Inv(f) && SibRep(l, f.tree) && f.tree.out == {} && p in Live(f) && p !in f.refs.target && Ranked(f, rank, p)
    ensures var b, m := Subtree(f, p), Back(p, Predecessor(f.tree, p));
      Fenced(l.prev, f, b, m) && InFence(f, b, p) && Entry(l.prev, f, b, m, p)
  {
    hide TreeInv, RefsInv, Above, Closed, SibRep, Ranked;
    KeysAgree(f);
    SubtreeClosed(f, p);
    OutsideSubtree(f, p, rank);
    PrevField(l, f, p);
  }

  lemma FenceOfHandle(l: Links, f: Forest, h: Addr)
    requires Inv(f) && f.tree.out == {} && h in f.refs.target
    ensures Fenced(l.prev, f, Live(f), Back(NULL, NULL)) && InFence(f, Live(f), h)
  {
    KeysAgree(f);
    HandleFacts(f, h);
    hide RefsInv;
    forall a, c | a in f.tree.kids && c in f.tree.kids[a] ensures c in Live(f) {
      assert KidsOk(f.tree, a);
    }
  }

  function DtorOf(d: Destructor): Dtor {
    match d
    case User(accepts) => if accepts then Accepts else Refuses
    case _ => NoDtor
  }

  lemma RepSetDtor(l: Links, k: Hooks, d: map<Addr, Destructor>, sized: set<Addr>, calls: seq<Addr>, f: Forest, p: Addr, own: Destructor)
    requires Represents(l, k, d, sized, calls, f) && p in Live(f) && p !in f.refs.target && (own.Unset? || own.User?)
    ensures Represents(l, k, d[p := own], sized, calls, f.(dtor := f.dtor[p := DtorOf(own)]))
  {
    hide SibRep, RefRep, TreeInv, RefsInv;
  }

  /** The handle at position `i` of the references to `p`, and its fields. */
  lemma HandleAt(k: Hooks, f: Forest, p: Addr, i: nat)
    requires RefRep(k, f.refs) && Inv(f) && p in f.refs.list && i < |f.refs.list[p]|
    ensures var h := f.refs.list[p][i];
      && h in f.refs.target && f.refs.target[h] == p && h in Live(f) && h in f.tree.up && h != NULL && h != f.nullCtx
      && h in k.next && k.next[h] == At(f.refs.list[p], i + 1) && h in f.refs.list
  {
    var h := f.refs.list[p][i];
    assert ListOk(f.refs, p) && h in f.refs.list[p];
    HandleFacts(f, h);
    assert HookList(k, p, f.refs.list[p]);
    hide HookLists, TreeInv, RefsInv;
  }

  lemma HandleGoneFacts(f: Forest, h: Addr, g: Forest, ret: int)
    requires h in f.refs.target && HandleGone(f, h, g, ret)
    ensures h in f.dtor && h in f.tree.up && f.refs.target[h] in f.refs.list && g == HandleFreed(f, h) && ret == 0 && g.tree.out == f.tree.out
  {
    HandleFreedOk(f, h);
    hide Inv;
    SameOut(f, g);
  }

  /** NULL and the null context are the same context. */
  lemma SameContext(f: Forest, ctx: Addr, p: Addr)
    requires Inv(f) && p in f.refs.list
    ensures Unreferenced(f, Context(f, ctx), p) == Unreferenced(f, ctx, p)
  {
  }

  lemma StillSettled(f: Forest, g: Forest, p: Addr)
    requires Settled(f, p) && Settled(g, p) && Shrinks(f, g)
    ensures g.tree.out == f.tree.out && g.nullCtx == f.nullCtx
  {
  }

  lemma UnreferencedNothing(f: Forest, ctx: Addr, p: Addr)
    requires Inv(f) && Settled(f, p) && Unreferenced(f, ctx, p).1 != 0
    ensures Unreferenced(f, ctx, p) == (f, -1)
  {
  }

  /** What handing `p` to the context of its newest reference comes to. */
  ghost predicate InheritedBy(f: Forest, p: Addr, g: Forest, ret: int)
    requires Inv(f)
  {
    && Settled(f, p) && f.refs.list[p] != [] && f.refs.list[p][0] in f.tree.up
    && var q := f.tree.up[f.refs.list[p][0]];
    var r := Unreferenced(f, q, p);
    if r.1 != 0 then (g, ret) == (f, -1)
    else
      && p in r.0.tree.up && (q == NULL || q in r.0.tree.kids) && (r.0.nullCtx == NULL || r.0.nullCtx in r.0.tree.kids)
      && g == Stolen(r.0, q, p) && ret == 0
  }

  /** The removal of an owner, step by step. */
  lemma OwnerRemovedSteps(f: Forest, ctx: Addr, p: Addr)
    requires Freeable(f, p) && Settled(f, p)
    ensures var r := Unreferenced(f, ctx, p);
      && (r.1 == 0 ==> OwnerRemoved(f, ctx, p) == r)
      && (r.1 != 0 && f.tree.up[p] != Context(f, ctx) ==> OwnerRemoved(f, ctx, p) == (f, -1))
      && (r.1 != 0 && f.tree.up[p] == Context(f, ctx) && f.refs.list[p] == [] ==> OwnerRemoved(f, ctx, p) == FreeOf(f, p))
      && (r.1 != 0 && f.tree.up[p] == Context(f, ctx) && f.refs.list[p] != [] ==>
            forall g, ret :: InheritedBy(f, p, g, ret) ==> (g, ret) == OwnerRemoved(f, ctx, p))
  {
    hide Inv, FreeOf, Unreferenced, Stolen;
  }

  /** Where a count starts. */
  lemma CountFacts(l: Links, k: Hooks, d: map<Addr, Destructor>, sized: set<Addr>, calls: seq<Addr>, f: Forest, p: Addr)
    requires Represents(l, k, d, sized, calls, f) && p in Live(f)
    ensures Inv(f) && SibRep(l, f.tree) && p in sized && p in l.child && l.child[p] == At(f.tree.kids[p], 0)
  {
    hide Inv, RefRep, DtorRep;
    ListOf(l, f.tree, p);
  }
}
