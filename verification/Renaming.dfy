/**
 Moving a chunk to another address: the same forest up to the renaming, and the fields that
 spell it out.
 */
module Renaming {
  import opened Seqs
  import opened Tlist
  import opened ChildLists
  import opened RefLists
  import opened Forests
  import opened Siblings
  import opened RefLinks
  import opened TallocSteps
  import opened Acyclicity
  import opened TopLevel
  import opened Walks

  function Re(x: Addr, was: Addr, now: Addr): Addr {
    if x == was then now else x
  }

  function ReSeq(s: seq<Addr>, was: Addr, now: Addr): (r: seq<Addr>)
    ensures |r| == |s| && forall i :: 0 <= i < |s| ==> r[i] == Re(s[i], was, now)
  {
    seq(|s|, i requires 0 <= i < |s| => Re(s[i], was, now))
  }

  /** The entry of `was` now belongs to `now`. */
  function ReKey<T>(m: map<Addr, T>, was: Addr, now: Addr): (r: map<Addr, T>)
    requires now !in m
    ensures r.Keys == if was in m then m.Keys - {was} + {now} else m.Keys
    ensures forall x :: x in m ==> Re(x, was, now) in r && r[Re(x, was, now)] == m[x]
  {
    if was in m then (m - {was})[now := m[was]] else m
  }

  function ReValues(m: map<Addr, Addr>, was: Addr, now: Addr): (r: map<Addr, Addr>)
    ensures r.Keys == m.Keys && forall x :: x in m ==> r[x] == Re(m[x], was, now)
  {
    map x | x in m :: Re(m[x], was, now)
  }

  function ReMap(m: map<Addr, Addr>, was: Addr, now: Addr): (r: map<Addr, Addr>)
    requires now !in m
    ensures r.Keys == if was in m then m.Keys - {was} + {now} else m.Keys
    ensures forall x :: x in m ==> Re(x, was, now) in r && r[Re(x, was, now)] == Re(m[x], was, now)
  {
    ReKey(ReValues(m, was, now), was, now)
  }

  function ReTree(t: Tree, was: Addr, now: Addr): Tree
    requires now !in t.kids && now !in t.up
  {
    var kids := map a | a in t.kids :: ReSeq(t.kids[a], was, now);
    Tree(ReKey(kids, was, now), ReMap(t.up, was, now), set x | x in t.out :: Re(x, was, now))
  }

  /** `f` with chunk `was` at `now`. */
  function Renamed(f: Forest, was: Addr, now: Addr): Forest
    requires now !in f.tree.kids && now !in f.tree.up && now !in f.refs.list && now !in f.dtor
  {
    f.(tree := ReTree(f.tree, was, now),
       refs := Refs(ReKey(f.refs.list, was, now), ReValues(f.refs.target, was, now)),
       dtor := ReKey(f.dtor, was, now))
  }

  /** `f` may have its chunk `p` moved to the free address `a`. */
  ghost predicate Movable(f: Forest, p: Addr, a: Addr) {
    && Inv(f) && f.tree.out == {} && p in Live(f) && p != f.nullCtx && p !in f.refs.target
    && p in f.refs.list && f.refs.list[p] == [] && a !in Live(f) && a != NULL
    && a !in f.tree.up && a !in f.refs.list && a !in f.dtor
  }

  lemma ReNoDup(s: seq<Addr>, p: Addr, a: Addr)
    requires NoDup(s) && a !in s
    ensures NoDup(ReSeq(s, p, a))
  {
    forall i | 0 <= i < |s| ensures s[i] != a {
      assert s[i] in s;
    }
  }

  lemma RenamedKids(t: Tree, p: Addr, a: Addr, x: Addr)
    requires TreeInv(t) && t.out == {} && a !in t.kids && a !in t.up && x in t.kids && p != NULL
    ensures var t', y := ReTree(t, p, a), Re(x, p, a); y in t'.kids && t'.kids[y] == ReSeq(t.kids[x], p, a) && KidsOk(t', y)
  {
    assert KidsOk(t, x);
    var s, t', y := t.kids[x], ReTree(t, p, a), Re(x, p, a);
    ReNoDup(s, p, a);
    forall c | c in t'.kids[y] ensures c in t'.up && t'.up[c] == y {
      var i :| 0 <= i < |s| && c == Re(s[i], p, a);
      assert s[i] in s;
    }
  }

  lemma RenamedUp(t: Tree, p: Addr, a: Addr, x: Addr)
    requires TreeInv(t) && t.out == {} && a !in t.kids && a !in t.up && x in t.up && p != NULL && a != NULL
    ensures var t', y := ReTree(t, p, a), Re(x, p, a); y in t'.up && t'.up[y] == Re(t.up[x], p, a) && UpOk(t', y)
  {
    assert UpOk(t, x);
    var q := t.up[x];
    if q != NULL {
      var i :| 0 <= i < |t.kids[q]| && t.kids[q][i] == x;
      assert ReSeq(t.kids[q], p, a)[i] == Re(x, p, a);
    }
  }

  lemma RenamedTreeInv(t: Tree, p: Addr, a: Addr)
    requires TreeInv(t) && t.out == {} && a !in t.kids && a !in t.up && p in t.kids && p != NULL && a != NULL
    ensures TreeInv(ReTree(t, p, a))
  {
    hide KidsOk, UpOk;
    var t' := ReTree(t, p, a);
    forall y | y in t'.kids ensures KidsOk(t', y) {
      RenamedKids(t, p, a, Re(y, a, p));
    }
    forall y | y in t'.up ensures UpOk(t', y) {
      RenamedUp(t, p, a, Re(y, a, p));
    }
  }

  lemma TargetsStay(f: Forest, p: Addr, a: Addr)
    requires Movable(f, p, a)
    ensures Renamed(f, p, a).refs.target == f.refs.target
  {
    forall h | h in f.refs.target ensures f.refs.target[h] != p {
      assert h in f.refs.list[f.refs.target[h]];
    }
    assert ReValues(f.refs.target, p, a) == f.refs.target;
  }

  lemma RenamedRefsInv(f: Forest, p: Addr, a: Addr)
    requires Movable(f, p, a)
    ensures RefsInv(Renamed(f, p, a).refs)
  {
    hide TreeInv, ReTree, ListOk, ReKey, ReValues, HandleOk;
    TargetsStay(f, p, a);
    var r := Renamed(f, p, a).refs;
    forall y | y in r.list ensures ListOk(r, y) {
      RenamedListOk(f, p, a, Re(y, a, p));
    }
    forall h | h in f.refs.target ensures f.refs.target[h] in r.list && h in r.list[f.refs.target[h]] {
      NotTarget(f, p, h);
      assert Re(f.refs.target[h], p, a) == f.refs.target[h];
    }
  }

  lemma RenamedListOk(f: Forest, p: Addr, a: Addr, x: Addr)
    requires Movable(f, p, a) && x in f.refs.list
    ensures var r, y := Renamed(f, p, a).refs, Re(x, p, a); y in r.list && ListOk(r, y)
  {
    TargetsStay(f, p, a);
    assert ListOk(f.refs, x);
    HeadIn(f.refs.list[p]);
    hide TreeInv, ReTree, NoDup;
  }

  lemma RenamedHandle(f: Forest, p: Addr, a: Addr, h: Addr)
    requires Movable(f, p, a) && h in f.refs.target
    ensures HandleOk(Renamed(f, p, a), h)
  {
    assert HandleOk(f, h);
    assert Re(h, p, a) == h;
    hide TreeInv, RefsInv;
  }

  /** The moved forest is as sound as before. */
  lemma RenamedInv(f: Forest, p: Addr, a: Addr)
    requires Movable(f, p, a)
    ensures Inv(Renamed(f, p, a)) && Renamed(f, p, a).tree.out == {}
    ensures Live(Renamed(f, p, a)) == Live(f) - {p} + {a}
  {
    KeysAgree(f);
    RenamedTreeInv(f.tree, p, a);
    RenamedRefsInv(f, p, a);
    TargetsStay(f, p, a);
    hide TreeInv, RefsInv, HandleOk;
    forall h | h in f.refs.target ensures HandleOk(Renamed(f, p, a), h) {
      RenamedHandle(f, p, a, h);
    }
    RenamedNullCtx(f, p, a);
  }

  lemma RenamedNullCtx(f: Forest, p: Addr, a: Addr)
    requires Movable(f, p, a)
    ensures NullCtxOk(Renamed(f, p, a))
  {
    KeysAgree(f);
    TargetsStay(f, p, a);
    assert Re(f.nullCtx, p, a) == f.nullCtx;
    hide TreeInv, RefsInv, HandleOk;
  }

  lemma RenamedAcyclic(f: Forest, p: Addr, a: Addr)
    requires Movable(f, p, a) && Acyclic(f)
    ensures Acyclic(Renamed(f, p, a))
  {
    var rank :| Ranked(f, rank, NULL);
    RenamedRanked(f, p, a, rank);
  }

  /** The edges of the moved forest are the renamed edges. */
  lemma RenamedEdges(f: Forest, p: Addr, a: Addr)
    requires Movable(f, p, a)
    ensures var g := Renamed(f, p, a);
      && p !in g.tree.up && (forall y :: y in g.tree.up ==> Re(y, a, p) in f.tree.up && g.tree.up[y] == Re(f.tree.up[Re(y, a, p)], p, a))
      && (forall x :: x in f.tree.up ==> x in Live(f) && (f.tree.up[x] == NULL || f.tree.up[x] in Live(f)))
      && (forall h :: h in f.refs.target ==>
            h in f.tree.up && f.refs.target[h] in Live(f) && f.refs.target[h] != p && h != p && h != a && f.refs.target[h] != a)
      && g.refs.target == f.refs.target && g.nullCtx == f.nullCtx && f.nullCtx != p && f.nullCtx != a
      && (f.nullCtx == NULL || f.nullCtx in Live(f)) && p in Live(f) && a !in Live(f) && a != NULL && p != NULL && NULL !in Live(f)
  {
    hide TreeInv, RefsInv, HandleOk;
    KeysAgree(f);
    TargetsStay(f, p, a);
    forall h | h in f.refs.target
      ensures h in f.tree.up && f.refs.target[h] in Live(f) && f.refs.target[h] != p && h in Live(f)
    {
      HandleFacts(f, h);
      NotTarget(f, p, h);
    }
    forall x | x in f.tree.up ensures f.tree.up[x] == NULL || f.tree.up[x] in Live(f) {
      UpLive(f, x);
    }
    NullCtxLive(f);
  }

  lemma NotTarget(f: Forest, p: Addr, h: Addr)
    requires Inv(f) && p in f.refs.list && f.refs.list[p] == [] && h in f.refs.target
    ensures f.refs.target[h] != p
  {
    assert h in f.refs.list[f.refs.target[h]];
  }

  lemma RenamedRanked(f: Forest, p: Addr, a: Addr, rank: map<Addr, int>)
    requires Movable(f, p, a) && Ranked(f, rank, NULL)
    ensures Ranked(Renamed(f, p, a), rank[a := Rk(rank, p)], NULL)
  {
    hide Inv, Renamed, Movable, Rk;
    MovableFacts(f, p, a);
    RenamedEdges(f, p, a);
    var g, r := Renamed(f, p, a), rank[a := Rk(rank, p)];
    forall x | x in Live(f) ensures Rk(r, Re(x, p, a)) == Rk(rank, x) {
      MovedRank(rank, p, a, x);
    }
    forall y | y in g.tree.up && g.tree.up[y] != NULL ensures Rk(r, g.tree.up[y]) < Rk(r, y) {
      assert Re(Re(y, a, p), p, a) == y;
    }
    forall h | h in f.refs.target ensures h in g.tree.up ==> g.tree.up[h] == Re(f.tree.up[h], p, a) && Re(f.refs.target[h], p, a) == f.refs.target[h] {
    }
    if f.nullCtx != NULL {
      MovedRank(rank, p, a, f.nullCtx);
    }
  }

  lemma RenamedRooted(f: Forest, p: Addr, a: Addr)
    requires Movable(f, p, a) && Rooted(f)
    ensures Rooted(Renamed(f, p, a))
  {
    hide Inv, Renamed;
    RenamedEdges(f, p, a);
  }

  lemma MovableFacts(f: Forest, p: Addr, a: Addr)
    requires Movable(f, p, a)
    ensures a !in f.tree.kids && a !in f.tree.up && a !in f.refs.list && a !in f.dtor
  {
  }

  lemma MovedRank(rank: map<Addr, int>, p: Addr, a: Addr, x: Addr)
    requires x != a
    ensures Rk(rank[a := Rk(rank, p)], Re(x, p, a)) == Rk(rank, x)
  {
  }

  // ------------------------------------------------------------------ the fields

  function ReLinks(l: Links, was: Addr, now: Addr): Links
    requires now !in l.next && now !in l.prev && now !in l.parent && now !in l.child
  {
    Links(ReMap(l.next, was, now), ReMap(l.prev, was, now), ReMap(l.parent, was, now), ReMap(l.child, was, now))
  }

  lemma ReAt(s: seq<Addr>, i: int, p: Addr, a: Addr)
    requires p != NULL
    ensures At(ReSeq(s, p, a), i) == Re(At(s, i), p, a)
  {
  }

  lemma RenamedLinked(next: map<Addr, Addr>, prev: map<Addr, Addr>, p: Addr, a: Addr, s: seq<Addr>)
    requires Linked(next, prev, s) && a !in next && a !in prev && p != NULL && a != NULL
    ensures Linked(ReMap(next, p, a), ReMap(prev, p, a), ReSeq(s, p, a))
  {
    var s' := ReSeq(s, p, a);
    hide ReSeq, ReMap, At, NoDup;
    assert NoDup(s') by { assert a !in s; ReNoDup(s, p, a); }
    forall i: int ensures At(s', i) == Re(At(s, i), p, a) {
      ReAt(s, i, p, a);
    }
  }

  lemma RenamedList(l: Links, p: Addr, a: Addr, x: Addr, s: seq<Addr>)
    requires ListRep(l, x, s) && a !in l.next && a !in l.prev && a !in l.parent && a !in l.child && p != NULL && a != NULL
    ensures ListRep(ReLinks(l, p, a), Re(x, p, a), ReSeq(s, p, a))
  {
    hide Linked, ReSeq, ReMap, At;
    RenamedLinked(l.next, l.prev, p, a, s);
    ReAt(s, 0, p, a);
  }

  lemma RenamedLists(l: Links, f: Forest, p: Addr, a: Addr)
    requires Movable(f, p, a) && SibRep(l, f.tree) && a !in l.next && a !in l.prev && a !in l.parent && a !in l.child && p != NULL
    ensures ListsRep(ReLinks(l, p, a), ReTree(f.tree, p, a))
  {
    hide Inv, ListRep, ReSeq, ReMap, ReLinks;
    var l', t' := ReLinks(l, p, a), ReTree(f.tree, p, a);
    forall y | y in t'.kids ensures ListRep(l', y, t'.kids[y]) {
      ListOf(l, f.tree, Re(y, a, p));
      RenamedList(l, p, a, Re(y, a, p), f.tree.kids[Re(y, a, p)]);
    }
  }

  lemma RenamedTop(l: Links, p: Addr, a: Addr, x: Addr)
    requires TopRep(l, x) && a !in l.next && a !in l.prev && a !in l.parent && a !in l.child && p != NULL
    ensures TopRep(ReLinks(l, p, a), Re(x, p, a))
  {
  }

  lemma RenamedOthers(l: Links, f: Forest, p: Addr, a: Addr)
    requires Movable(f, p, a) && SibRep(l, f.tree) && a !in l.next && a !in l.prev && a !in l.parent && a !in l.child && p != NULL
    ensures OthersRep(ReLinks(l, p, a), ReTree(f.tree, p, a))
  {
    hide Inv, Domains, ListsRep, TopRep, ReLinks, ReTree;
    MovableFacts(f, p, a);
    RenamedEdges(f, p, a);
    RenamedOut(f.tree, p, a);
    var l', t' := ReLinks(l, p, a), ReTree(f.tree, p, a);
    forall y | y in t'.up && t'.up[y] == NULL ensures TopRep(l', y) {
      var x := Re(y, a, p);
      assert Re(x, p, a) == y && x in f.tree.up && f.tree.up[x] == NULL;
      RenamedTop(l, p, a, x);
    }
  }

  lemma RenamedOut(t: Tree, p: Addr, a: Addr)
    requires a !in t.kids && a !in t.up && t.out == {}
    ensures ReTree(t, p, a).out == {}
  {
  }

  lemma RenamedSibRep(l: Links, f: Forest, p: Addr, a: Addr)
    requires Movable(f, p, a) && SibRep(l, f.tree)
    ensures a !in l.next && a !in l.prev && a !in l.parent && a !in l.child
    ensures SibRep(ReLinks(l, p, a), ReTree(f.tree, p, a))
  {
    hide TreeInv, RefsInv, ListsRep, OthersRep, ReSeq;
    KeysAgree(f);
    RenamedLists(l, f, p, a);
    RenamedOthers(l, f, p, a);
  }

  function ReHooks(k: Hooks, was: Addr, now: Addr): Hooks
    requires now !in k.refs && now !in k.next && now !in k.prev && now !in k.ptr
  {
    Hooks(ReKey(k.refs, was, now), ReKey(k.next, was, now), ReKey(k.prev, was, now), ReKey(k.ptr, was, now))
  }

  lemma RenamedHooks(k: Hooks, f: Forest, p: Addr, a: Addr)
    requires Movable(f, p, a) && RefRep(k, f.refs) && a !in k.refs && a !in k.next && a !in k.prev && a !in k.ptr
    ensures RefRep(ReHooks(k, p, a), Renamed(f, p, a).refs)
  {
    hide Inv, ReTree, HookLists, HookList, ReHooks;
    TargetsStay(f, p, a);
    RenamedHookDomains(k, f, p, a);
    var k', r' := ReHooks(k, p, a), Renamed(f, p, a).refs;
    forall y | y in r'.list ensures HookList(k', y, r'.list[y]) {
      RenamedHookList(k, f, p, a, Re(y, a, p));
    }
    AllHooked(k', r');
  }

  lemma RenamedHookDomains(k: Hooks, f: Forest, p: Addr, a: Addr)
    requires Movable(f, p, a) && HookDomains(k, f.refs) && a !in k.refs && a !in k.next && a !in k.prev && a !in k.ptr
    ensures HookDomains(ReHooks(k, p, a), Refs(ReKey(f.refs.list, p, a), f.refs.target))
  {
    hide Inv;
    forall h | h in f.refs.target ensures Re(h, p, a) == h {
    }
  }

  lemma HandlesOther(f: Forest, p: Addr, x: Addr)
    requires RefsInv(f.refs) && p !in f.refs.target && x in f.refs.list
    ensures forall i :: 0 <= i < |f.refs.list[x]| ==> f.refs.list[x][i] != p
  {
    assert ListOk(f.refs, x);
    forall i | 0 <= i < |f.refs.list[x]| ensures f.refs.list[x][i] != p {
      assert f.refs.list[x][i] in f.refs.list[x];
    }
  }

  lemma RenamedHookList(k: Hooks, f: Forest, p: Addr, a: Addr, x: Addr)
    requires Movable(f, p, a) && HookLists(k, f.refs) && a !in k.refs && a !in k.next && a !in k.prev && a !in k.ptr && x in f.refs.list
    ensures Re(x, p, a) in ReKey(f.refs.list, p, a) && ReKey(f.refs.list, p, a)[Re(x, p, a)] == f.refs.list[x]
    ensures HookList(ReHooks(k, p, a), Re(x, p, a), f.refs.list[x])
  {
    hide TreeInv, NullCtxOk, HandleOk, RefsInv;
    HandlesOther(f, p, x);
    assert HookList(k, x, f.refs.list[x]);
    KeyMoved(k.next, p, a, f.refs.list[x]);
    KeyMoved(k.prev, p, a, f.refs.list[x]);
    hide ReKey, HookLists;
    assert ReKey(k.refs, p, a)[Re(x, p, a)] == k.refs[x];
  }

  lemma KeyMoved(m: map<Addr, Addr>, p: Addr, a: Addr, s: seq<Addr>)
    requires a !in m && forall i :: 0 <= i < |s| ==> s[i] != p && s[i] in m
    ensures forall i :: 0 <= i < |s| ==> s[i] in ReKey(m, p, a) && ReKey(m, p, a)[s[i]] == m[s[i]]
  {
    forall i | 0 <= i < |s| ensures Re(s[i], p, a) == s[i] {
    }
  }

  lemma RenamedDtor(d: map<Addr, Destructor>, f: Forest, p: Addr, a: Addr)
    requires Movable(f, p, a) && DtorRep(d, f.dtor, f.refs.target) && a !in d
    ensures DtorRep(ReKey(d, p, a), ReKey(f.dtor, p, a), f.refs.target)
  {
    assert a !in f.refs.target by { KeysAgree(f); assert a in f.refs.target ==> HandleOk(f, a); }
    hide Inv;
    var d', r := ReKey(d, p, a), ReKey(f.dtor, p, a);
    forall y | y in r ensures d'[y] == DestructorOf(r, f.refs.target, y) {
      assert Re(Re(y, a, p), p, a) == y;
    }
  }

  lemma RepRenamed(l: Links, k: Hooks, d: map<Addr, Destructor>, sized: set<Addr>, calls: seq<Addr>, f: Forest, p: Addr, a: Addr)
    requires Represents(l, k, d, sized, calls, f) && Movable(f, p, a)
    ensures a !in l.next && a !in l.prev && a !in l.parent && a !in l.child
    ensures a !in k.refs && a !in k.next && a !in k.prev && a !in k.ptr && a !in d
    ensures Represents(ReLinks(l, p, a), ReHooks(k, p, a), ReKey(d, p, a), sized - {p} + {a}, calls, Renamed(f, p, a))
  {
    hide Inv, SibRep, RefRep, DtorRep, HandleOk, ReKey, ReLinks, ReTree, Movable;
    MovableFacts(f, p, a);
    RepFacts(l, k, d, sized, calls, f);
    FreshBody(l, k, d, sized, calls, f, p, a);
    RenamedInv(f, p, a);
    RenamedSibRep(l, f, p, a);
    RenamedHooks(k, f, p, a);
    TargetsStay(f, p, a);
    RenamedDtor(d, f, p, a);
  }

  lemma FreshBody(l: Links, k: Hooks, d: map<Addr, Destructor>, sized: set<Addr>, calls: seq<Addr>, f: Forest, p: Addr, a: Addr)
    requires Represents(l, k, d, sized, calls, f) && Movable(f, p, a)
    ensures a !in Live(f) && a !in k.next && a !in k.prev && a !in k.ptr && p in Live(f)
    ensures ReKey(k.ptr, p, a).Keys <= Live(f) - {p} + {a}
  {
  }

  // ------------------------------------------------------------------ patching the neighbours

  /** Who points at whom among chunks that hang in lists. */
  lemma Neighbours(l: Links, f: Forest, x: Addr, y: Addr)
    requires SibRep(l, f.tree) && Inv(f) && f.tree.out == {} && x in Live(f) && y in Live(f)
    ensures x in l.next && x in l.prev && x in l.parent && x in l.child && y in l.prev && y in l.next && y in l.child && y in l.parent
    ensures l.next[x] == y <==> l.prev[y] == x
    ensures l.child[x] == y <==> l.parent[y] == x
  {
    KeysAgree(f);
    hide RefsInv, ListsRep;
    PointsBack(l, f, x, y);
    PointsForth(l, f, x, y);
    if f.tree.up[y] != NULL {
      ChunkAt(l, f.tree, y);
    }
    ListOf(l, f.tree, x);
    assert KidsOk(f.tree, x);
  }

  lemma PointsBack(l: Links, f: Forest, x: Addr, y: Addr)
    requires SibRep(l, f.tree) && Inv(f) && f.tree.out == {} && x in f.tree.up && x in l.next && y in l.prev && y != NULL
    ensures l.next[x] == y ==> l.prev[y] == x
  {
    if f.tree.up[x] != NULL {
      ChunkAt(l, f.tree, x);
      hide SibRep, Inv;
    } else {
      assert TopRep(l, x);
    }
  }

  lemma PointsForth(l: Links, f: Forest, x: Addr, y: Addr)
    requires SibRep(l, f.tree) && Inv(f) && f.tree.out == {} && y in f.tree.up && x in l.next && y in l.prev && x != NULL
    ensures l.prev[y] == x ==> l.next[x] == y
  {
    if f.tree.up[y] != NULL {
      ChunkAt(l, f.tree, y);
      hide SibRep, Inv;
    } else {
      assert TopRep(l, y);
    }
  }

  /** Exactly the chunk `inv[p]` holds a pointer to `p` in `m`. */
  ghost predicate OnlyFrom(m: map<Addr, Addr>, p: Addr, x: Addr) {
    && (x == NULL || (x in m && x != p))
    && NULL !in m && forall y :: y in m ==> (m[y] == p <==> y == x)
  }

  lemma PatchOne(m: map<Addr, Addr>, x: Addr, p: Addr, a: Addr)
    requires OnlyFrom(m, p, x) && a !in m
    ensures (if x != NULL then ReKey(m, p, a)[x := a] else ReKey(m, p, a)) == ReMap(m, p, a)
  {
    var r := if x != NULL then ReKey(m, p, a)[x := a] else ReKey(m, p, a);
    assert r.Keys == ReMap(m, p, a).Keys;
    forall z | z in r ensures r[z] == ReMap(m, p, a)[z] {
      assert Re(Re(z, a, p), p, a) == z;
      assert ReMap(m, p, a)[z] == Re(m[Re(z, a, p)], p, a);
      assert ReKey(m, p, a)[z] == m[Re(z, a, p)];
    }
  }

  lemma LinkKeys(l: Links, f: Forest)
    requires SibRep(l, f.tree) && Inv(f)
    ensures l.next.Keys == l.prev.Keys == l.parent.Keys == l.child.Keys == Live(f) && NULL !in Live(f)
  {
    KeysAgree(f);
  }

  lemma OnlyNeighbours(l: Links, f: Forest, p: Addr)
    requires SibRep(l, f.tree) && Inv(f) && f.tree.out == {} && p in Live(f)
    ensures p in l.next && p in l.prev && p in l.parent && p in l.child
    ensures OnlyFrom(l.next, p, l.prev[p]) && OnlyFrom(l.child, p, l.parent[p])
  {
    hide Inv, SibRep;
    LinkKeys(l, f);
    PointersLive(l, f, p);
    forall x | x in Live(f) ensures (l.next[x] == p <==> x == l.prev[p]) && (l.child[x] == p <==> x == l.parent[p]) {
      Neighbours(l, f, x, p);
    }
  }

  lemma OnlyNeighboursBack(l: Links, f: Forest, p: Addr)
    requires SibRep(l, f.tree) && Inv(f) && f.tree.out == {} && p in Live(f)
    ensures p in l.next && p in l.prev && p in l.parent && p in l.child
    ensures OnlyFrom(l.prev, p, l.next[p]) && OnlyFrom(l.parent, p, l.child[p])
  {
    hide Inv, SibRep;
    LinkKeys(l, f);
    PointersLive(l, f, p);
    forall x | x in Live(f) ensures (l.prev[x] == p <==> x == l.next[p]) && (l.parent[x] == p <==> x == l.child[p]) {
      Neighbours(l, f, p, x);
    }
  }

  /** Every list field of a chunk holds NULL or the address of another live chunk. */
  lemma PointersLive(l: Links, f: Forest, p: Addr)
    requires SibRep(l, f.tree) && Inv(f) && f.tree.out == {} && p in Live(f)
    ensures p in l.next && p in l.prev && p in l.parent && p in l.child
    ensures forall y :: y in {l.next[p], l.prev[p], l.parent[p], l.child[p]} ==> y == NULL || (y in Live(f) && y != p)
  {
    KeysAgree(f);
    assert UpOk(f.tree, p) && KidsOk(f.tree, p);
    hide RefsInv, ListsRep;
    ListOf(l, f.tree, p);
    if f.tree.up[p] != NULL {
      ChunkAt(l, f.tree, p);
      var s := f.tree.kids[f.tree.up[p]];
      assert KidsOk(f.tree, f.tree.up[p]);
      assert forall i :: 0 <= i < |s| ==> s[i] in s;
    }
  }

  /** Moving the header and patching the four neighbours renames every pointer. */
  lemma PatchesRename(l: Links, f: Forest, p: Addr, a: Addr, l': Links)
    requires SibRep(l, f.tree) && Movable(f, p, a)
    requires a !in l.next && a !in l.prev && a !in l.parent && a !in l.child
    requires p in l.next && p in l.prev && p in l.parent && p in l.child
    requires l'.next == if l.prev[p] != NULL then ReKey(l.next, p, a)[l.prev[p] := a] else ReKey(l.next, p, a)
    requires l'.prev == if l.next[p] != NULL then ReKey(l.prev, p, a)[l.next[p] := a] else ReKey(l.prev, p, a)
    requires l'.parent == if l.child[p] != NULL then ReKey(l.parent, p, a)[l.child[p] := a] else ReKey(l.parent, p, a)
    requires l'.child == if l.parent[p] != NULL then ReKey(l.child, p, a)[l.parent[p] := a] else ReKey(l.child, p, a)
    ensures l' == ReLinks(l, p, a)
  {
    hide Inv, SibRep, OnlyFrom, ReKey, ReMap;
    OnlyNeighbours(l, f, p);
    OnlyNeighboursBack(l, f, p);
    PatchOne(l.next, l.prev[p], p, a);
    PatchOne(l.prev, l.next[p], p, a);
    PatchOne(l.parent, l.child[p], p, a);
    PatchOne(l.child, l.parent[p], p, a);
  }

  /** The fields once the header was copied to `a` and its old place given up. */
  function MovedLinks(l: Links, p: Addr, a: Addr): Links
    requires a !in l.next && a !in l.prev && a !in l.parent && a !in l.child
  {
    Links(ReKey(l.next, p, a), ReKey(l.prev, p, a), ReKey(l.parent, p, a), ReKey(l.child, p, a))
  }

  lemma IsMovable(f: Forest, p: Addr, a: Addr)
    requires Inv(f) && f.tree.out == {} && p in Live(f) && p != f.nullCtx && p !in f.refs.target
    requires p in f.refs.list && f.refs.list[p] == [] && a !in Live(f) && a != NULL
    ensures Movable(f, p, a)
  {
    KeysAgree(f);
  }

  lemma MovedLive(f: Forest, p: Addr, a: Addr)
    requires Inv(f)
    ensures Movable(f, p, a) ==> a in Live(Renamed(f, p, a))
  {
    if Movable(f, p, a) {
      RenamedInv(f, p, a);
    }
  }

  lemma RenamedFrame<T>(f: Forest, p: Addr, a: Addr, size: map<Addr, T>)
    requires Movable(f, p, a) && size.Keys == Live(f)
    ensures Renamed(f, p, a).nullCtx == f.nullCtx && Renamed(f, p, a).tree.out == {}
    ensures a !in size && ReKey(size, p, a).Keys == size.Keys - {p} + {a}
  {
    hide Inv;
    RenamedInv(f, p, a);
  }

  /** The fields after the neighbours of `a` were pointed at it. */
  function Patched(l: Links, a: Addr): Links
    requires a in l.next && a in l.prev && a in l.parent && a in l.child
  {
    Links(if l.prev[a] != NULL then l.next[l.prev[a] := a] else l.next,
          if l.next[a] != NULL then l.prev[l.next[a] := a] else l.prev,
          if l.child[a] != NULL then l.parent[l.child[a] := a] else l.parent,
          if l.parent[a] != NULL then l.child[l.parent[a] := a] else l.child)
  }

  /** A chunk that stays where it was is what its neighbours point at already. */
  lemma PatchedSame(l: Links, f: Forest, p: Addr)
    requires SibRep(l, f.tree) && Inv(f) && f.tree.out == {} && p in Live(f)
    ensures p in l.next && p in l.prev && p in l.parent && p in l.child && l.parent[p] != p && l.prev[p] != p
    ensures Patched(l, p) == l
  {
    hide Inv, SibRep;
    OnlyNeighbours(l, f, p);
    OnlyNeighboursBack(l, f, p);
  }

  lemma KeysMoved(l: Links, f: Forest, p: Addr, a: Addr)
    requires SibRep(l, f.tree) && Movable(f, p, a)
    ensures a !in l.next && a !in l.prev && a !in l.parent && a !in l.child
    ensures p in l.next && p in l.prev && p in l.parent && p in l.child
    ensures var l1 := MovedLinks(l, p, a);
      && a in l1.next && a in l1.prev && a in l1.parent && a in l1.child
      && l1.next[a] == l.next[p] && l1.prev[a] == l.prev[p] && l1.parent[a] == l.parent[p] && l1.child[a] == l.child[p]
      && l1.parent[a] != a && l1.prev[a] != a
  {
    hide Inv, SibRep;
    LinkKeys(l, f);
    PointersLive(l, f, p);
    assert Re(p, p, a) == a;
  }

  lemma PatchedRename(l: Links, f: Forest, p: Addr, a: Addr)
    requires SibRep(l, f.tree) && Movable(f, p, a) && a !in l.next && a !in l.prev && a !in l.parent && a !in l.child
    ensures var l1 := MovedLinks(l, p, a);
      && a in l1.next && a in l1.prev && a in l1.parent && a in l1.child
      && Patched(l1, a) == ReLinks(l, p, a)
  {
    hide Inv, SibRep, ReLinks, ReKey;
    KeysMoved(l, f, p, a);
    var l1 := MovedLinks(l, p, a);
    PatchesRename(l, f, p, a, Patched(l1, a));
  }
}
