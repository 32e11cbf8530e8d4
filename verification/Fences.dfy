/**
 Where the `prev` fields of the chunks that are being emptied may point. A fence `b` is closed under
 children and holds everything the free can release apart from handles. Only the chunk that the free
 started with can point back to anything, and what it points at lies outside the fence.
 */
module Fences {
  import opened Seqs
  import opened ChildLists
  import opened RefLists
  import opened Forests
  import opened Siblings
  import opened Walks
  import opened StaleReads

  ghost predicate Closed(t: Tree, b: set<Addr>) {
    forall a, c :: a in b && a in t.kids && c in t.kids[a] ==> c in b
  }

  /** The `prev` field that chunk `p` has, or will have, while it is being emptied. */
  function BackOf(m: Back, p: Addr): Addr {
    if p == m.at then m.to else NULL
  }

  ghost predicate Fenced(prev: map<Addr, Addr>, f: Forest, b: set<Addr>, m: Back) {
    && Closed(f.tree, b) && m.to !in b && m.to !in f.tree.out
    && (forall x :: x in f.tree.out && x in prev ==> prev[x] == BackOf(m, x))
    && (forall x :: x in f.tree.out && x in f.tree.up ==> f.tree.up[x] in f.tree.out || f.tree.up[x] !in b)
  }

  ghost predicate InFence(f: Forest, b: set<Addr>, p: Addr) {
    p in b || (p in f.refs.target && f.refs.target[p] in b)
  }

  /** What must hold of the chunk `p` before it can be emptied: only where the free started need it have a predecessor. */
  ghost predicate Entry(prev: map<Addr, Addr>, f: Forest, b: set<Addr>, m: Back, p: Addr) {
    && p in b && p in prev && p in f.tree.up && prev[p] == BackOf(m, p) && (p == m.at || m.at in f.tree.out)
    && (f.tree.up[p] in f.tree.out || f.tree.up[p] !in b)
  }

  ghost predicate NotUp(f: Forest, p: Addr) {
    forall x :: x in f.tree.out && x != p && x in f.tree.up ==> f.tree.up[x] != p
  }

  lemma FenceShields(l: Links, f: Forest, b: set<Addr>, m: Back, p: Addr)
    requires Inv(f) && Fenced(l.prev, f, b, m) && InFence(f, b, p) && p in Live(f) && p !in f.tree.out
    ensures p != NULL && NotUp(f, p) && (p in b ==> NotStale(l, f.tree, p))
  {
    KeysAgree(f);
  }

  /** Going from `p` to being emptied. */
  lemma FenceEmptying(prev: map<Addr, Addr>, prev': map<Addr, Addr>, f: Forest, b: set<Addr>, m: Back, p: Addr)
    requires Inv(f) && p in Live(f) && p !in f.refs.target
    requires Fenced(prev, f, b, m) && Entry(prev, f, b, m, p)
    requires SameOn(prev, prev', f.tree.out + {p}) && prev'.Keys == prev.Keys
    ensures Fenced(prev', Emptying(f, p), b, m)
  {
    EmptyingFacts(f, p);
    FenceDetach(f, b, p);
    assert Emptying(f, p).refs == f.refs;
    hide Inv, Closed;
  }

  lemma FenceDetach(f: Forest, b: set<Addr>, p: Addr)
    requires Inv(f) && p in Live(f) && p !in f.refs.target && Closed(f.tree, b)
    ensures Closed(Emptying(f, p).tree, b)
  {
    hide TreeInv, RefsInv;
    KeysAgree(f);
  }

  lemma FenceStolen(prev: map<Addr, Addr>, prev': map<Addr, Addr>, f: Forest, b: set<Addr>, m: Back, q: Addr, c: Addr)
    requires Inv(f) && c in Live(f) && c !in f.tree.out && c in b && (q == NULL || q in Live(f))
    requires f.nullCtx == NULL || f.nullCtx in f.tree.kids
    requires Fenced(prev, f, b, m) && SameOn(prev, prev', f.tree.out) && prev'.Keys == prev.Keys
    ensures Fenced(prev', Stolen(f, q, c), b, m)
  {
    var q1 := if q == NULL then f.nullCtx else q;
    if c != q1 {
      MoveInv(f.tree, q1, c);
      ClosedMove(f.tree, b, q1, c);
      hide Inv, Move, Closed;
    }
  }

  lemma ClosedMove(t: Tree, b: set<Addr>, q: Addr, c: Addr)
    requires TreeInv(t) && Closed(t, b) && c in b && c in t.up && (q == NULL || q in t.kids)
    ensures Closed(Move(t, q, c), b)
  {
    hide TreeInv;
  }

  lemma FenceReleased(prev: map<Addr, Addr>, prev': map<Addr, Addr>, f: Forest, b: set<Addr>, m: Back, p: Addr)
    requires Fenced(prev, f, b, m) && NotUp(f, p) && SameOn(prev, prev', f.tree.out - {p}) && prev'.Keys <= prev.Keys
    requires f.tree.out <= prev.Keys
    ensures Fenced(prev', Released(f, p), b, m)
  {
  }

  lemma FenceHandleFreed(prev: map<Addr, Addr>, prev': map<Addr, Addr>, f: Forest, b: set<Addr>, m: Back, h: Addr)
    requires Inv(f) && h in f.refs.target && h in Live(f) && Fenced(prev, f, b, m)
    requires SameOn(prev, prev', f.tree.out) && f.tree.out <= prev.Keys
    ensures Fenced(prev', HandleFreed(f, h), b, m)
  {
    EmptyingFacts(f, h);
    assert HandleOk(f, h);
    var g := HandleFreed(f, h);
    assert g.tree.out == f.tree.out && g.tree.up == f.tree.up - {h} && g.refs.target == f.refs.target - {h};
    assert Closed(g.tree, b) by { HandleFreedClosed(f, h, b); }
    hide Inv, Closed, HandleFreed;
  }

  lemma HandleFreedClosed(f: Forest, h: Addr, b: set<Addr>)
    requires Inv(f) && h in f.refs.target && h in f.tree.up && Closed(f.tree, b)
    ensures Closed(HandleFreed(f, h).tree, b)
  {
    hide TreeInv, RefsInv;
  }

  lemma ShieldKept(f: Forest, p: Addr)
    requires Inv(f) && p in Live(f) && NotUp(f, p)
    ensures NotUp(Emptying(f, p), p)
  {
    EmptyingFacts(f, p);
    hide Inv;
  }

  lemma ShieldAtEnd(l: Links, f: Forest, g: Forest, b: set<Addr>, m: Back, p: Addr)
    requires Inv(f) && NotUp(f, p) && Shrinks(f, g) && Fenced(l.prev, g, b, m) && p in b && f.tree.out <= f.tree.up.Keys
    ensures g.tree.out <= g.tree.up.Keys ==> NotUp(g, p)
  {
    hide Inv, Closed;
  }

  /** A child of `p` may be freed inside the fence: it heads its list and `p` is being emptied. */
  lemma EntryOfChild(l: Links, f: Forest, b: set<Addr>, m: Back, p: Addr)
    requires Inv(f) && SibRep(l, f.tree) && Fenced(l.prev, f, b, m) && p in b && p in Live(f) && p in f.tree.out && f.tree.kids[p] != []
    requires m.at in f.tree.out
    ensures l.child.Keys == Live(f) && l.child[p] == f.tree.kids[p][0] && Entry(l.prev, f, b, m, f.tree.kids[p][0])
    ensures f.tree.kids[p][0] != NULL
  {
    hide RefsInv, TreeInv, KidsOk, ListRep, ListsRep, OthersRep, Closed;
    AllKidsOk(f.tree, p);
    ChildUp(f.tree, p, 0);
    KeysAgree(f);
    ListOf(l, f.tree, p);
    ListHead(l, p, f.tree.kids[p]);
    InClosed(f.tree, b, p, f.tree.kids[p][0]) by { var c := AtIn(f.tree.kids[p], 0); }
  }

  lemma ListHead(l: Links, a: Addr, s: seq<Addr>)
    requires ListRep(l, a, s) && s != []
    ensures a in l.child && l.child[a] == s[0] && s[0] != NULL && s[0] in l.prev && l.prev[s[0]] == NULL
  {
  }

  lemma InClosed(t: Tree, b: set<Addr>, a: Addr, c: Addr)
    requires Closed(t, b) && a in b && a in t.kids && c in t.kids[a]
    ensures c in b
  {
  }

  /** A walk through the chunk where the free started reads the header of the chunk it points back to: when that
      one is not alive, the header has been given back. */
  lemma BackReleased(l: Links, f: Forest, b: set<Addr>, m: Back)
    requires Inv(f) && SibRep(l, f.tree) && Fenced(l.prev, f, b, m) && m.at in f.tree.out
    ensures m.at in l.prev && l.prev[m.at] == m.to && l.prev.Keys == Live(f)
    ensures (m.to == NULL || m.to in l.prev) <==> Alive(f, m.to)
  {
    KeysAgree(f);
    hide TreeInv, RefsInv, Closed;
  }

  /** A chunk that is being emptied can be walked through as long as what it points back to is alive. */
  lemma BackWalkable(l: Links, f: Forest, b: set<Addr>, m: Back, x: Addr)
    requires Inv(f) && SibRep(l, f.tree) && Fenced(l.prev, f, b, m) && x in f.tree.out && (x == m.at ==> Alive(f, m.to))
    ensures Walkable(l, f.tree, x)
  {
    KeysAgree(f);
    hide TreeInv, RefsInv, ListsRep, Closed;
  }
}
