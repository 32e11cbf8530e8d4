/**
 The whole state of the allocator as a value, and the meaning of freeing a chunk:
 `Free` and `Drain` follow the two mutually dependent parts of the recursive free.
 Chunks that are being emptied are in `tree.out`.
 */
module Forests {
  import opened Seqs
  import opened ChildLists
  import opened RefLists

  /** The fixed decision of a chunk's destructor. A reference handle has its own destructor,
      recorded by `refs.target`. */
  datatype Dtor = NoDtor | Accepts | Refuses

  /** `nullCtx` is the static null context (NULL when it was never enabled); `calls` lists the
      destructors that ran and accepted. */
  datatype Forest = Forest(tree: Tree, refs: Refs, dtor: map<Addr, Dtor>, nullCtx: Addr, calls: seq<Addr>)

  function Live(f: Forest): set<Addr> { f.tree.kids.Keys }

  ghost predicate HandleOk(f: Forest, h: Addr) {
    && h in f.tree.kids && f.tree.kids[h] == [] && h !in f.tree.out
    && h in f.refs.list && f.refs.list[h] == []
    && h in f.dtor && f.dtor[h] == NoDtor
  }

  ghost predicate NullCtxOk(f: Forest) {
    f.nullCtx != NULL ==>
      && f.nullCtx in f.tree.up && f.tree.up[f.nullCtx] == NULL
      && f.nullCtx !in f.tree.out && f.nullCtx !in f.refs.target
      && f.nullCtx in f.refs.list && f.refs.list[f.nullCtx] == []
  }

  ghost predicate Inv(f: Forest) {
    && Live(f) == f.refs.list.Keys == f.dtor.Keys
    && TreeInv(f.tree) && RefsInv(f.refs)
    && (forall h :: h in f.refs.target ==> HandleOk(f, h))
    && (forall p :: p in f.tree.out && p in f.tree.up ==> f.tree.up[p] !in f.refs.target)
    && NullCtxOk(f)
  }

  // ------------------------------------------------------------------ edits

  /** The destructor of `p` ran and accepted. */
  function Ran(f: Forest, p: Addr): Forest
    requires p in f.dtor && (p in f.refs.target ==> f.refs.target[p] in f.refs.list)
  {
    if p in f.refs.target then f.(refs := Unhook(f.refs, p))
    else if f.dtor[p] == Accepts then f.(dtor := f.dtor[p := NoDtor], calls := f.calls + [p])
    else f
  }

  /** `p` is off its sibling list and about to be emptied. */
  function Unlinked(f: Forest, p: Addr): Forest
    requires p in f.tree.up
  {
    f.(tree := Detach(f.tree, p))
  }

  /** The memory of `p` is given back. */
  function Released(f: Forest, p: Addr): Forest {
    f.(tree := TreeRemove(f.tree, p), refs := RefsRemove(f.refs, p), dtor := f.dtor - {p})
  }

  /** `c` moves to the head of the children of `q`; NULL stands for the null context. */
  function Stolen(f: Forest, q: Addr, c: Addr): Forest
    requires c in f.tree.up && (q == NULL || q in f.tree.kids) && (f.nullCtx == NULL || f.nullCtx in f.tree.kids)
  {
    var q1 := if q == NULL then f.nullCtx else q;
    if c == q1 then f else f.(tree := Move(f.tree, q1, c))
  }

  /** Freeing a handle, which has neither children nor references of its own. */
  function HandleFreed(f: Forest, h: Addr): Forest
    requires h in f.refs.target && f.refs.target[h] in f.refs.list && h in f.dtor && h in f.tree.up
  {
    Released(Unlinked(Ran(f, h), h), h)
  }

  // ------------------------------------------------------------------ ancestors

  /** The chunk `n` steps up from `a`; NULL once above the top. */
  function UpN(t: Tree, a: Addr, n: nat): Addr {
    if n == 0 then a
    else var b := UpN(t, a, n - 1); if b in t.up then t.up[b] else NULL
  }

  /** `p` is `a` or one of its ancestors. */
  ghost predicate Above(t: Tree, p: Addr, a: Addr) {
    exists n: nat :: UpN(t, a, n) == p
  }

  /** One step of the walk to the top. */
  lemma AboveStep(t: Tree, p: Addr, a: Addr)
    requires a in t.up && a != p
    ensures Above(t, p, a) <==> Above(t, p, t.up[a])
  {
    if Above(t, p, a) {
      var n: nat :| UpN(t, a, n) == p;
      assert UpN(t, a, 0) == a;
      UpShift(t, a, n - 1);
    }
    if Above(t, p, t.up[a]) {
      var n: nat :| UpN(t, t.up[a], n) == p;
      UpShift(t, a, n);
    }
  }

  lemma {:induction false} UpShift(t: Tree, a: Addr, n: nat)
    requires a in t.up
    ensures UpN(t, a, n + 1) == UpN(t, t.up[a], n)
  {
    if n == 0 {
      assert UpN(t, a, 0) == a;
    } else {
      UpShift(t, a, n - 1);
    }
  }

  lemma {:induction false} NothingAboveNull(t: Tree, n: nat)
    requires NULL !in t.up
    ensures UpN(t, NULL, n) == NULL
  {
    if n > 0 {
      NothingAboveNull(t, n - 1);
    }
  }

  lemma AboveEnds(t: Tree, p: Addr)
    requires NULL !in t.up && p != NULL
    ensures Above(t, p, p) && !Above(t, p, NULL)
  {
    assert UpN(t, p, 0) == p;
    if Above(t, p, NULL) {
      var n: nat :| UpN(t, NULL, n) == p;
      NothingAboveNull(t, n);
    }
  }

  lemma {:induction false} UpAdd(t: Tree, x: Addr, n: nat, m: nat)
    ensures UpN(t, x, n + m) == UpN(t, UpN(t, x, n), m)
  {
    if m > 0 {
      UpAdd(t, x, n, m - 1);
      assert n + m - 1 == n + (m - 1);
    } else {
      assert UpN(t, UpN(t, x, n), 0) == UpN(t, x, n);
    }
  }

  lemma AboveTransitive(t: Tree, a: Addr, b: Addr, c: Addr)
    requires Above(t, a, b) && Above(t, b, c)
    ensures Above(t, a, c)
  {
    var m: nat :| UpN(t, b, m) == a;
    var n: nat :| UpN(t, c, n) == b;
    UpAdd(t, c, n, m);
    assert UpN(t, c, n + m) == a;
  }

  /** Two chunks above the same one are above one another. */
  lemma Comparable(t: Tree, a: Addr, b: Addr, x: Addr)
    requires Above(t, a, x) && Above(t, b, x)
    ensures Above(t, a, b) || Above(t, b, a)
  {
    var n: nat :| UpN(t, x, n) == a;
    var m: nat :| UpN(t, x, m) == b;
    if n <= m {
      UpAdd(t, x, n, m - n);
      assert UpN(t, a, m - n) == b;
    } else {
      UpAdd(t, x, m, n - m);
      assert UpN(t, b, n - m) == a;
    }
  }

  /** The chunks below `p`, with `p`. */
  ghost function Subtree(f: Forest, p: Addr): set<Addr> {
    set x | x in Live(f) && Above(f.tree, p, x)
  }

  /** Losing chunks only cuts ways up short. */
  lemma {:induction false} LessUp(t: Tree, t': Tree, w: set<Addr>, x: Addr, n: nat)
    requires t'.up == t.up - w && NULL !in t.up
    ensures UpN(t', x, n) == NULL || UpN(t', x, n) == UpN(t, x, n)
  {
    if n > 0 {
      LessUp(t, t', w, x, n - 1);
    } else {
      assert UpN(t', x, 0) == x == UpN(t, x, 0);
    }
  }

  lemma AboveLess(t: Tree, t': Tree, w: set<Addr>, p: Addr, x: Addr)
    requires t'.up == t.up - w && NULL !in t.up && p != NULL && Above(t', p, x)
    ensures Above(t, p, x)
  {
    var n: nat :| UpN(t', x, n) == p;
    LessUp(t, t', w, x, n);
  }

  // ------------------------------------------------------------------ acyclic ownership

  function Rk(rank: map<Addr, int>, a: Addr): nat {
    if a in rank && rank[a] >= 0 then rank[a] else 0
  }

  /** `rank` grows along every ownership edge: from parent to child and from the context of a
      handle to the handle's target, except the references to `x`. Nothing owns the null context. */
  ghost predicate Ranked(f: Forest, rank: map<Addr, int>, x: Addr) {
    && (forall a :: a in f.tree.up && f.tree.up[a] != NULL ==> Rk(rank, f.tree.up[a]) < Rk(rank, a))
    && (forall h :: h in f.refs.target && h in f.tree.up && f.tree.up[h] != NULL && f.refs.target[h] != x ==>
          Rk(rank, f.tree.up[h]) < Rk(rank, f.refs.target[h]))
    && (f.nullCtx != NULL ==> forall a :: a in f.tree.up && a != f.nullCtx ==> Rk(rank, f.nullCtx) < Rk(rank, a))
  }

  // ------------------------------------------------------------------ free

  /** How many chunks can still be freed; the termination measure of the recursion. */
  function Mobile(f: Forest): nat {
    |Live(f) - f.tree.out|
  }

  /** Who takes child `c` over if it cannot be freed: the context of its newest reference, else the null context. */
  function Holder(f: Forest, c: Addr): Addr
    requires c in f.refs.list && (f.refs.list[c] != [] ==> f.refs.list[c][0] in f.tree.up)
  {
    if f.refs.list[c] == [] then f.nullCtx
    else
      var q := f.tree.up[f.refs.list[c][0]];
      if q != NULL then q else f.nullCtx
  }

  /** The null context as choice gives way to the parent of the chunk that is being emptied. */
  function Adopter(f: Forest, p: Addr, q: Addr): Addr
    requires p in f.tree.up
  {
    if q == f.nullCtx && f.tree.up[p] in f.tree.kids then f.tree.up[p] else q
  }

  /** What freeing never does: bring chunks to life, end or re-parent a chunk that is being
      emptied, add references to an unreferenced chunk, or change a survivor's destructor. */
  ghost predicate Shrinks(f: Forest, g: Forest) {
    && g.nullCtx == f.nullCtx && g.tree.out == f.tree.out
    && Live(g) <= Live(f)
    && (forall x :: x in g.tree.out && x in g.tree.up && x in f.tree.up ==> g.tree.up[x] == f.tree.up[x])
    && (forall x :: x in g.dtor ==> x in f.dtor && g.dtor[x] == f.dtor[x])
    && (forall x :: x in g.refs.list ==> x in f.refs.list && (f.refs.list[x] == [] ==> g.refs.list[x] == []))
    && (forall x :: x in g.refs.target ==> x in f.refs.target && g.refs.target[x] == f.refs.target[x])
    && (forall x :: x in f.refs.target ==> x in g.refs.target || x !in Live(g))
  }

  /** A refused free may cost one chunk its newest reference, and then no chunk but the handles goes. */
  ghost predicate OnlyHandlesGone(f: Forest, g: Forest) {
    && (forall x :: x in Live(f) && x !in f.refs.target ==> x in Live(g))
    && (forall x :: x in g.tree.up ==> x in f.tree.up && g.tree.up[x] == f.tree.up[x])
  }

  ghost predicate FreePost(f: Forest, p: Addr, rank: map<Addr, int>, g: Forest, ret: int) {
    && Inv(g) && Shrinks(f, g)
    && Ranked(g, rank, p) && (Ranked(f, rank, NULL) ==> Ranked(g, rank, NULL))
    && (ret == 0 || ret == -1)
    && (ret == 0 && p !in f.tree.out ==> p !in Live(g))
    && (ret == -1 ==> OnlyHandlesGone(f, g) && p !in f.refs.target && (g == f || Mobile(g) < Mobile(f)))
    && (ret == -1 && p in f.refs.list && f.refs.list[p] != [] ==> Mobile(g) < Mobile(f))
  }

  ghost predicate DrainPost(f: Forest, p: Addr, rank: map<Addr, int>, g: Forest) {
    && Inv(g) && Shrinks(f, g) && Ranked(g, rank, NULL) && p in g.tree.kids && g.tree.kids[p] == []
  }

  // ------------------------------------------------------------------ one lemma per step of the recursion

  lemma ShrinksTransitive(f: Forest, g: Forest, h: Forest)
    requires Shrinks(f, g) && Shrinks(g, h) && Inv(f) && Inv(g) && Inv(h)
    ensures Shrinks(f, h)
  {
  }

  lemma MobileShrinks(f: Forest, g: Forest, x: Addr)
    requires Shrinks(f, g)
    ensures Mobile(g) <= Mobile(f)
    ensures x in Live(f) && x !in f.tree.out && x !in Live(g) ==> Mobile(g) < Mobile(f)
  {
    var a, b := Live(f) - f.tree.out, Live(g) - g.tree.out;
    assert b <= a;
    SubsetSize(b, a);
    if x in Live(f) && x !in f.tree.out && x !in Live(g) {
      assert b <= a - {x};
      SubsetSize(b, a - {x});
    }
  }

  lemma {:induction false} SubsetSize(b: set<Addr>, a: set<Addr>)
    requires b <= a
    ensures |b| <= |a|
  {
    assert a == b + (a - b);
  }

  lemma RanInv(f: Forest, p: Addr)
    requires Inv(f) && p in Live(f)
    ensures Inv(Ran(f, p)) && p !in Ran(f, p).refs.target
  {
    if p in f.refs.target {
      UnhookInv(f.refs, p);
    }
  }

  lemma UnlinkedInv(f: Forest, p: Addr)
    requires Inv(f) && p in Live(f) && p !in f.refs.target && p != f.nullCtx
    ensures Inv(Unlinked(f, p))
  {
    DetachInv(f.tree, p);
  }

  lemma ReleasedInv(f: Forest, p: Addr)
    requires Inv(f) && p in f.tree.out && p !in f.refs.target && p != f.nullCtx
    requires p in Live(f) && f.tree.kids[p] == [] && f.refs.list[p] == []
    ensures Inv(Released(f, p))
  {
    TreeRemoveInv(f.tree, p);
    RefsRemoveInv(f.refs, p);
  }

  lemma KeysAgree(f: Forest)
    requires Inv(f)
    ensures Live(f) == f.tree.up.Keys == f.refs.list.Keys == f.dtor.Keys && f.tree.out <= Live(f) && NULL !in Live(f)
  {
    assert forall a :: a in f.tree.up ==> UpOk(f.tree, a);
  }

  lemma StolenInv(f: Forest, q: Addr, c: Addr)
    requires Inv(f) && c in Live(f) && c != f.nullCtx
    requires q == NULL || (q in Live(f) && q !in f.refs.target)
    ensures Inv(Stolen(f, q, c)) && Live(Stolen(f, q, c)) == Live(f)
  {
    var q1 := if q == NULL then f.nullCtx else q;
    hide TreeInv, RefsInv, Move, HandleOk;
    KeysAgree(f);
    if c != q1 {
      MoveInv(f.tree, q1, c);
      StolenHandles(f, q1, c);
    }
  }

  lemma StolenShrinks(f: Forest, q: Addr, c: Addr)
    requires Inv(f) && c in Live(f) && c !in f.tree.out
    requires q == NULL || q in Live(f)
    ensures Shrinks(f, Stolen(f, q, c)) && Live(Stolen(f, q, c)) == Live(f)
  {
    hide RefsInv, HandleOk;
    var q1 := if q == NULL then f.nullCtx else q;
    if c != q1 {
      MoveInv(f.tree, q1, c);
      hide TreeInv, Move, Inv;
    }
  }

  lemma StolenHandles(f: Forest, q: Addr, c: Addr)
    requires Inv(f) && c in Live(f) && c != q && (q == NULL || (q in Live(f) && q !in f.refs.target))
    ensures forall h :: h in f.refs.target ==> HandleOk(f.(tree := Move(f.tree, q, c)), h)
  {
    hide TreeInv, RefsInv;
  }

  /** Everything up to the loop: the destructor ran, the chunk is off its list and marked. */
  function Emptying(f: Forest, p: Addr): Forest
    requires p in f.dtor && p in f.tree.up && (p in f.refs.target ==> f.refs.target[p] in f.refs.list)
  {
    Unlinked(Ran(f, p), p)
  }

  lemma EmptyingInv(f: Forest, p: Addr)
    requires Inv(f) && p in Live(f) && p != f.nullCtx
    ensures Inv(Emptying(f, p))
  {
    RanInv(f, p);
    UnlinkedInv(Ran(f, p), p);
  }

  /** What emptying changes outside the child lists. */
  lemma EmptyingFacts(f: Forest, p: Addr)
    requires Inv(f) && p in Live(f)
    ensures var g := Emptying(f, p);
      && g.nullCtx == f.nullCtx && Live(g) == Live(f) && g.tree.up == f.tree.up && g.tree.out == f.tree.out + {p}
      && g.dtor.Keys == f.dtor.Keys && (forall x :: x in f.dtor && x != p ==> g.dtor[x] == f.dtor[x])
      && g.refs.list.Keys == f.refs.list.Keys
      && (forall x :: x in f.refs.list && f.refs.list[x] == [] ==> g.refs.list[x] == [])
      && g.refs.target == f.refs.target - {p}
  {
    hide TreeInv, HandleOk;
  }

  lemma EmptyingMobile(f: Forest, p: Addr)
    requires Inv(f) && p in Live(f) && p !in f.tree.out
    ensures Mobile(Emptying(f, p)) < Mobile(f)
  {
    EmptyingFacts(f, p);
    hide Inv, Emptying;
    var a, b := Live(f) - f.tree.out, Live(Emptying(f, p)) - Emptying(f, p).tree.out;
    assert b <= a - {p};
    SubsetSize(b, a - {p});
  }

  /** Releasing the emptied chunk `p` brings the state back below the one before the free. */
  lemma ReleasedShrinks(f: Forest, p: Addr, g: Forest)
    requires Inv(f) && p in Live(f) && p !in f.tree.out
    requires Shrinks(Emptying(f, p), g)
    ensures Shrinks(f, Released(g, p))
  {
    EmptyingFacts(f, p);
    hide Inv, Emptying;
  }

  /** The chunk `p` is emptied: releasing it completes a successful free. */
  lemma FreeCompletes(f: Forest, p: Addr, rank: map<Addr, int>, g: Forest)
    requires Inv(f) && p in Live(f) && p != f.nullCtx && p !in f.tree.out && f.refs.list[p] == []
    requires DrainPost(Emptying(f, p), p, rank, g)
    ensures FreePost(f, p, rank, Released(g, p), 0)
  {
    ReleasedShrinks(f, p, g);
    EmptyingFacts(f, p);
    assert p in Live(g) && g.refs.list[p] == [] && p !in g.refs.target;
    ReleasedInv(g, p);
    ReleasedRanked(g, p, rank, p);
    ReleasedRanked(g, p, rank, NULL);
    hide Inv, Shrinks, Emptying, Ranked;
  }

  lemma ReleasedRanked(f: Forest, p: Addr, rank: map<Addr, int>, x: Addr)
    requires Inv(f) && Ranked(f, rank, NULL)
    ensures Ranked(Released(f, p), rank, x)
  {
    assert forall h :: h in f.refs.target ==> f.refs.target[h] in f.refs.list && f.refs.target[h] in f.tree.up;
  }

  lemma HandleFreedInv(f: Forest, h: Addr)
    requires Inv(f) && h in f.refs.target
    ensures Inv(HandleFreed(f, h))
  {
    EmptyingInv(f, h);
    EmptyingFacts(f, h);
    assert HandleOk(f, h);
    HandleEmpty(f, h);
    ReleasedInv(Emptying(f, h), h);
    hide Inv;
  }

  lemma HandleFreedOk(f: Forest, h: Addr)
    requires Inv(f) && h in f.refs.target
    ensures var g := HandleFreed(f, h);
      Inv(g) && Shrinks(f, g) && Live(g) == Live(f) - {h} && OnlyHandlesGone(f, g) && Mobile(g) < Mobile(f)
  {
    hide Inv, Ran, Unlinked, Emptying;
    IsHandle(f, h);
    HandleFreedInv(f, h);
    EmptyingFacts(f, h);
    HandleFreedIs(f, h);
    ReleasedShrinks(f, h, Emptying(f, h));
    MobileShrinks(f, HandleFreed(f, h), h);
  }

  lemma IsHandle(f: Forest, h: Addr)
    requires Inv(f) && h in f.refs.target
    ensures HandleOk(f, h) && h in f.tree.up && f.refs.target[h] in f.refs.list
  {
    KeysAgree(f);
  }

  lemma HandleFreedIs(f: Forest, h: Addr)
    requires h in f.refs.target && f.refs.target[h] in f.refs.list && h in f.dtor && h in f.tree.up
    ensures HandleFreed(f, h) == Released(Emptying(f, h), h)
  {
  }

  lemma HandleEmpty(f: Forest, h: Addr)
    requires Inv(f) && h in f.refs.target
    ensures Emptying(f, h).tree.kids[h] == []
  {
    hide RefsInv;
    assert HandleOk(f, h);
  }

  lemma HandleFreedRanked(f: Forest, h: Addr, rank: map<Addr, int>, x: Addr)
    requires Inv(f) && h in f.refs.target && Ranked(f, rank, x)
    ensures Ranked(HandleFreed(f, h), rank, x)
  {
    EmptyingFacts(f, h);
    assert HandleOk(f, h);
    hide Inv, Ran, Unlinked;
  }

  lemma EmptyingRanked(f: Forest, p: Addr, rank: map<Addr, int>)
    requires Inv(f) && p in Live(f) && Ranked(f, rank, p) && f.refs.list[p] == []
    ensures Ranked(Emptying(f, p), rank, NULL)
  {
    EmptyingFacts(f, p);
    assert forall h :: h in f.refs.target ==> f.refs.target[h] != p;
    hide Inv, Ran, Unlinked;
  }

  /** One reference less: the free is refused, and only the handle is gone. */
  lemma FreeLosesHandle(f: Forest, p: Addr, rank: map<Addr, int>)
    requires Inv(f) && p in Live(f) && Ranked(f, rank, p) && f.refs.list[p] != []
    ensures f.refs.list[p][0] in f.refs.target && f.refs.target[f.refs.list[p][0]] == p
    ensures FreePost(f, p, rank, HandleFreed(f, f.refs.list[p][0]), -1)
  {
    var h := f.refs.list[p][0];
    assert ListOk(f.refs, p) && h in f.refs.list[p];
    assert p !in f.refs.target;
    HandleFreedOk(f, h);
    HandleFreedRanked(f, h, rank, p);
    if Ranked(f, rank, NULL) {
      HandleFreedRanked(f, h, rank, NULL);
    }
    hide Inv, Shrinks, Ranked, HandleFreed, OnlyHandlesGone;
  }

  /** The round of the loop in which child `c` of `p` could not be freed. */
  ghost predicate RefusedRound(f: Forest, p: Addr, c: Addr, rank: map<Addr, int>, f1: Forest) {
    && Inv(f) && p in Live(f) && p in f.tree.out && p != f.nullCtx && Ranked(f, rank, NULL)
    && f.tree.kids[p] != [] && c == f.tree.kids[p][0]
    && FreePost(f, c, rank, f1, -1)
  }

  lemma HolderOk(f: Forest, p: Addr, c: Addr, rank: map<Addr, int>)
    requires Inv(f) && p in Live(f) && p in f.tree.out && p != f.nullCtx && Ranked(f, rank, NULL)
    requires f.tree.kids[p] != [] && c == f.tree.kids[p][0]
    ensures c in Live(f) && c in f.tree.up && f.tree.up[c] == p && c !in f.tree.out && c != f.nullCtx
    ensures c in f.refs.list && (f.refs.list[c] != [] ==> f.refs.list[c][0] in f.tree.up)
    ensures var q := Holder(f, c);
      q == NULL || (q in Live(f) && q !in f.refs.target && Rk(rank, q) < Rk(rank, c))
    ensures f.refs.list[c] == [] ==> Holder(f, c) != p
  {
    assert KidsOk(f.tree, p) && c in f.tree.kids[p];
    assert p in f.tree.up && UpOk(f.tree, p) && p != NULL;
    if f.refs.list[c] != [] {
      var h := f.refs.list[c][0];
      assert ListOk(f.refs, c) && h in f.refs.list[c];
      assert HandleOk(f, h) && UpOk(f.tree, h);
    }
  }

  lemma AdopterOk(f: Forest, p: Addr, c: Addr, rank: map<Addr, int>, f1: Forest)
    requires RefusedRound(f, p, c, rank, f1)
    ensures c in f.tree.up && c in f.refs.list && (f.refs.list[c] != [] ==> f.refs.list[c][0] in f.tree.up)
    ensures c in Live(f1) && c in f1.tree.up && p in f1.tree.up && f1.tree.up[c] == p && c !in f1.tree.out
    ensures c != f1.nullCtx && c !in f1.refs.target && p != f1.nullCtx && (f1.nullCtx == NULL || f1.nullCtx in f1.tree.kids)
    ensures var a := Adopter(f1, p, Holder(f, c));
      a == NULL || (a in Live(f1) && a !in f1.refs.target && Rk(rank, a) < Rk(rank, c))
    ensures f.refs.list[c] == [] ==> Adopter(f1, p, Holder(f, c)) != p
  {
    HolderOk(f, p, c, rank);
  }

  lemma StolenRanked(f: Forest, q: Addr, c: Addr, rank: map<Addr, int>)
    requires Inv(f) && c in Live(f) && Ranked(f, rank, NULL) && c !in f.refs.target && c != f.nullCtx
    requires q == NULL || (q in Live(f) && Rk(rank, q) < Rk(rank, c))
    ensures Ranked(Stolen(f, q, c), rank, NULL)
  {
    var q1 := if q == NULL then f.nullCtx else q;
    if c != q1 {
      MoveInv(f.tree, q1, c);
      hide TreeInv, RefsInv, Move, HandleOk;
    }
  }

  lemma StolenShortens(f: Forest, p: Addr, q: Addr, c: Addr)
    requires Inv(f) && c in Live(f) && p in Live(f) && f.tree.up[c] == p && c !in f.tree.out && c != f.nullCtx
    requires q != c && (q == NULL || q in Live(f)) && q != p && f.nullCtx != p
    ensures p in Stolen(f, q, c).tree.kids && |Stolen(f, q, c).tree.kids[p]| < |f.tree.kids[p]|
  {
    assert p in f.tree.up && UpOk(f.tree, p) && UpOk(f.tree, c) && c in f.tree.kids[p];
    DropShrinks(f.tree.kids[p], c);
  }

  lemma StolenRound(f: Forest, p: Addr, a: Addr, c: Addr, rank: map<Addr, int>)
    requires Inv(f) && Ranked(f, rank, NULL) && c in Live(f) && c !in f.tree.out && c !in f.refs.target
    requires c != f.nullCtx && p != f.nullCtx && p in Live(f) && c in f.tree.up && f.tree.up[c] == p
    requires a == NULL || (a in Live(f) && a !in f.refs.target && Rk(rank, a) < Rk(rank, c))
    ensures f.nullCtx == NULL || f.nullCtx in f.tree.kids
    ensures var g := Stolen(f, a, c);
      && Inv(g) && Shrinks(f, g) && Ranked(g, rank, NULL) && p in Live(g) && Mobile(g) <= Mobile(f)
      && (a != p ==> |g.tree.kids[p]| < |f.tree.kids[p]|)
  {
    StolenInv(f, a, c);
    StolenShrinks(f, a, c);
    StolenRanked(f, a, c, rank);
    if a != p {
      StolenShortens(f, p, a, c);
    }
    ShrinksMobile(f, Stolen(f, a, c));
    hide Stolen, Shrinks, Ranked, Live, TreeInv, RefsInv;
  }

  /** A refused child leaves the list of `p` or takes a handle with it: the round makes progress. */
  lemma RefusedRoundOk(f: Forest, p: Addr, c: Addr, rank: map<Addr, int>, f1: Forest)
    requires RefusedRound(f, p, c, rank, f1)
    ensures c in f.tree.up && c in f.refs.list && (f.refs.list[c] != [] ==> f.refs.list[c][0] in f.tree.up)
    ensures p in f1.tree.up && c in f1.tree.up && (f1.nullCtx == NULL || f1.nullCtx in f1.tree.kids)
    ensures var a := Adopter(f1, p, Holder(f, c));
      && (a == NULL || a in f1.tree.kids)
      && var g := Stolen(f1, a, c);
      && Inv(g) && Shrinks(f, g) && Ranked(g, rank, NULL) && p in Live(g)
      && (Mobile(g) < Mobile(f) || (Mobile(g) == Mobile(f) && |g.tree.kids[p]| < |f.tree.kids[p]|))
  {
    hide Inv, Shrinks, Ranked, Stolen, Adopter, Holder, Mobile, OnlyHandlesGone;
    HolderOk(f, p, c, rank);
    AdopterOk(f, p, c, rank, f1);
    assert Ranked(f1, rank, NULL);
    assert p in Live(f1) by { ParentStays(f, p, c, rank, f1); }
    var a := Adopter(f1, p, Holder(f, c));
    StolenRound(f1, p, a, c, rank);
    ShrinksTransitive(f, f1, Stolen(f1, a, c));
    ShrinksMobile(f, f1);
  }

  lemma ParentStays(f: Forest, p: Addr, c: Addr, rank: map<Addr, int>, f1: Forest)
    requires RefusedRound(f, p, c, rank, f1)
    ensures p in Live(f1) && p in f1.tree.up
  {
  }

  lemma ShrinksMobile(f: Forest, g: Forest)
    requires Shrinks(f, g)
    ensures Mobile(g) <= Mobile(f)
  {
    MobileShrinks(f, g, NULL);
  }

  lemma FreedRound(f: Forest, p: Addr, c: Addr, rank: map<Addr, int>, f1: Forest)
    requires Inv(f) && p in Live(f) && p in f.tree.out && p != f.nullCtx && Ranked(f, rank, NULL)
    requires f.tree.kids[p] != [] && c == f.tree.kids[p][0]
    requires FreePost(f, c, rank, f1, 0)
    ensures Inv(f1) && Shrinks(f, f1) && Ranked(f1, rank, NULL) && p in Live(f1) && Mobile(f1) < Mobile(f)
  {
    HolderOk(f, p, c, rank);
    hide Ranked;
    MobileShrinks(f, f1, c);
  }

  lemma DrainAgain(f: Forest, g: Forest, p: Addr, rank: map<Addr, int>, h: Forest)
    requires Inv(f) && Inv(g) && Shrinks(f, g) && DrainPost(g, p, rank, h)
    ensures DrainPost(f, p, rank, h)
  {
    ShrinksTransitive(f, g, h);
    hide Inv, Shrinks, Ranked;
  }

  lemma ShrinksItself(f: Forest)
    requires Inv(f)
    ensures Shrinks(f, f)
  {
  }

  lemma FreeRetried(f: Forest, p: Addr, rank: map<Addr, int>, f1: Forest, g: Forest, ret: int)
    requires Inv(f) && FreePost(f, p, rank, f1, -1) && Mobile(f1) < Mobile(f) && FreePost(f1, p, rank, g, ret)
    ensures FreePost(f, p, rank, g, ret)
  {
    hide Inv, Ranked, Shrinks, OnlyHandlesGone, Mobile;
    ShrinksTransitive(f, f1, g);
    ShrinksMobile(f1, g);
    SameOut(f, f1);
    if ret == -1 {
      OnlyHandlesTransitive(f, f1, g);
    }
  }

  lemma SameOut(f: Forest, g: Forest)
    requires Shrinks(f, g)
    ensures f.tree.out == g.tree.out && f.nullCtx == g.nullCtx
  {
  }

  lemma OnlyHandlesTransitive(f: Forest, g: Forest, h: Forest)
    requires Shrinks(f, g) && OnlyHandlesGone(f, g) && OnlyHandlesGone(g, h)
    ensures OnlyHandlesGone(f, h)
  {
  }

  /**
   Freeing `p`. A referenced chunk loses its newest handle, and the free goes on only when that
   handle hangs below the chunk itself. A chunk that is already being emptied is left alone. A
   refusing destructor stops the free. Otherwise the chunk is emptied and released.
   `rank` only witnesses that ownership is acyclic.
   */
  ghost function Free(f: Forest, p: Addr, rank: map<Addr, int>): (r: (Forest, int))
    requires Inv(f) && p in Live(f) && p != f.nullCtx && Ranked(f, rank, p)
    ensures FreePost(f, p, rank, r.0, r.1)
    decreases Mobile(f), 0, 0
  {
    if f.refs.list[p] != [] then
      FreeLosesHandle(f, p, rank);
      var h := f.refs.list[p][0];
      var f1 := HandleFreed(f, h);
      if Above(f.tree, p, h) then
        assert p in Live(f1) && p != f1.nullCtx;
        var r := Free(f1, p, rank);
        FreeRetried(f, p, rank, f1, r.0, r.1);
        r
      else (f1, -1)
    else if p in f.tree.out then
      ShrinksItself(f);
      (f, 0)
    else if f.dtor[p] == Refuses then
      ShrinksItself(f);
      (f, -1)
    else
      var f1 := Emptying(f, p);
      EmptyingInv(f, p);
      EmptyingMobile(f, p);
      EmptyingFacts(f, p);
      EmptyingRanked(f, p, rank);
      var g := Drain(f1, p, rank);
      FreeCompletes(f, p, rank, g);
      (Released(g, p), 0)
  }

  /** The loop that empties `p`, whose LOOP mark is set: each round takes the head child and frees it, or finds it a new owner. */
  ghost function Drain(f: Forest, p: Addr, rank: map<Addr, int>): (r: Forest)
    requires Inv(f) && p in Live(f) && p in f.tree.out && p != f.nullCtx && Ranked(f, rank, NULL)
    ensures DrainPost(f, p, rank, r)
    decreases Mobile(f), 1, |f.tree.kids[p]|
  {
    if f.tree.kids[p] == [] then
      ShrinksItself(f);
      f
    else
      var c := f.tree.kids[p][0];
      HolderOk(f, p, c, rank);
      RankedAny(f, rank, c);
      var r := Free(f, c, rank);
      var g := DrainRound(f, p, c, rank, r);
      var h := Drain(g, p, rank);
      DrainAgain(f, g, p, rank, h);
      h
  }

  lemma RankedAny(f: Forest, rank: map<Addr, int>, x: Addr)
    requires Ranked(f, rank, NULL) && Inv(f)
    ensures Ranked(f, rank, x)
  {
    assert forall h :: h in f.refs.target ==> f.refs.target[h] in f.refs.list && f.refs.target[h] in f.tree.up;
  }

  /** The state after one round, `r` being what freeing the child came to. */
  ghost function DrainRound(f: Forest, p: Addr, c: Addr, rank: map<Addr, int>, r: (Forest, int)): (g: Forest)
    requires Inv(f) && p in Live(f) && p in f.tree.out && p != f.nullCtx && Ranked(f, rank, NULL)
    requires f.tree.kids[p] != [] && c == f.tree.kids[p][0]
    requires FreePost(f, c, rank, r.0, r.1)
    ensures Inv(g) && Shrinks(f, g) && Ranked(g, rank, NULL) && p in Live(g)
    ensures Mobile(g) < Mobile(f) || (Mobile(g) == Mobile(f) && |g.tree.kids[p]| < |f.tree.kids[p]|)
  {
    if r.1 == -1 then
      RefusedRoundOk(f, p, c, rank, r.0);
      Stolen(r.0, Adopter(r.0, p, Holder(f, c)), c)
    else
      FreedRound(f, p, c, rank, r.0);
      r.0
  }
}
