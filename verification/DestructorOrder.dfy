/**
 Without references, the destructors that run and accept during a free do so in pre-order of the
 tree pruned at the refusing chunks.
 */
module DestructorOrder {
  import opened Seqs
  import opened ChildLists
  import opened RefLists
  import opened Forests
  import opened Ownership
  import opened FreeRounds
  import opened FreeTheorem
  import opened ChildOrder
  import opened DownSets

  /** Children are live and rank between their parent and `top`. */
  ghost predicate Graded(f: Forest, rank: map<Addr, int>, top: nat) {
    forall a :: a in f.tree.kids ==> a in f.dtor && Rk(rank, a) <= top && AllBelow(f, rank, Rk(rank, a), f.tree.kids[a])
  }

  ghost predicate AllBelow(f: Forest, rank: map<Addr, int>, k: nat, s: seq<Addr>) {
    forall i :: 0 <= i < |s| ==> s[i] in f.tree.kids && k < Rk(rank, s[i])
  }

  /** The chunks with a destructor of their own, from `p` down to the refusing chunks, parents first. */
  ghost function PreOrder(f: Forest, p: Addr, rank: map<Addr, int>, top: nat): seq<Addr>
    requires Graded(f, rank, top) && p in f.tree.kids
    decreases top - Rk(rank, p), 1, 0
  {
    if f.dtor[p] == Refuses then []
    else (if f.dtor[p] == Accepts then [p] else []) + PreOrders(f, Rk(rank, p), f.tree.kids[p], rank, top)
  }

  ghost function PreOrders(f: Forest, k: nat, s: seq<Addr>, rank: map<Addr, int>, top: nat): seq<Addr>
    requires Graded(f, rank, top) && AllBelow(f, rank, k, s) && k <= top
    decreases top - k, 0, |s|
  {
    if s == [] then [] else PreOrder(f, s[0], rank, top) + PreOrders(f, k, s[1..], rank, top)
  }

  ghost predicate Bounded(f: Forest, rank: map<Addr, int>, top: nat) {
    forall a :: a in f.tree.kids ==> Rk(rank, a) <= top
  }

  lemma IsGraded(f: Forest, rank: map<Addr, int>, top: nat)
    requires Inv(f) && Ranked(f, rank, NULL) && Bounded(f, rank, top)
    ensures Graded(f, rank, top)
  {
    KeysAgree(f);
    forall a, i | a in f.tree.kids && 0 <= i < |f.tree.kids[a]|
      ensures f.tree.kids[a][i] in f.tree.kids && Rk(rank, a) < Rk(rank, f.tree.kids[a][i])
    {
      assert KidsOk(f.tree, a);
      ChildUp(f.tree, a, i);
    }
  }

  // ------------------------------------------------------------------ what leaves the order alone

  /** The subtree of `y` is the same in both states. */
  ghost predicate SameBelow(f: Forest, g: Forest, y: Addr) {
    forall z :: z in f.tree.kids && z !in f.tree.out && Above(f.tree, y, z) ==>
      z in g.tree.kids && g.tree.kids[z] == f.tree.kids[z] && z in f.dtor && z in g.dtor && g.dtor[z] == f.dtor[z]
  }

  lemma BelowChild(f: Forest, y: Addr, c: Addr)
    requires c in f.tree.up && f.tree.up[c] == y
    ensures forall z :: Above(f.tree, c, z) ==> Above(f.tree, y, z)
  {
    forall z | Above(f.tree, c, z) ensures Above(f.tree, y, z) {
      var n: nat :| UpN(f.tree, z, n) == c;
      assert UpN(f.tree, z, n + 1) == y;
    }
  }

  lemma SelfAbove(t: Tree, y: Addr)
    ensures Above(t, y, y)
  {
    assert UpN(t, y, 0) == y;
  }

  lemma {:induction false} PreOrderSame(f: Forest, g: Forest, y: Addr, rank: map<Addr, int>, top: nat)
    requires Inv(f) && Graded(f, rank, top) && Graded(g, rank, top) && y in f.tree.kids && y !in f.tree.out && SameBelow(f, g, y)
    ensures y in g.tree.kids && PreOrder(g, y, rank, top) == PreOrder(f, y, rank, top)
    decreases top - Rk(rank, y), 1, 0
  {
    SelfAbove(f.tree, y);
    assert y in g.tree.kids && g.tree.kids[y] == f.tree.kids[y];
    KidsSameBelow(f, g, y);
    hide Inv, SameBelow, AllBelow;
    PreOrdersSame(f, g, Rk(rank, y), f.tree.kids[y], rank, top);
  }

  lemma KidsSameBelow(f: Forest, g: Forest, y: Addr)
    requires Inv(f) && y in f.tree.kids && SameBelow(f, g, y)
    ensures forall i :: 0 <= i < |f.tree.kids[y]| ==>
      f.tree.kids[y][i] !in f.tree.out && SameBelow(f, g, f.tree.kids[y][i])
  {
    forall i | 0 <= i < |f.tree.kids[y]|
      ensures f.tree.kids[y][i] !in f.tree.out && SameBelow(f, g, f.tree.kids[y][i])
    {
      var c := f.tree.kids[y][i];
      assert KidsOk(f.tree, y) && c in f.tree.kids[y];
      hide Above, RefsInv;
      BelowChild(f, y, c);
    }
  }

  lemma {:induction false} PreOrdersSame(f: Forest, g: Forest, k: nat, s: seq<Addr>, rank: map<Addr, int>, top: nat)
    requires Inv(f) && Graded(f, rank, top) && Graded(g, rank, top) && AllBelow(f, rank, k, s) && k <= top
    requires forall i :: 0 <= i < |s| ==> s[i] !in f.tree.out && SameBelow(f, g, s[i])
    ensures AllBelow(g, rank, k, s) && PreOrders(g, k, s, rank, top) == PreOrders(f, k, s, rank, top)
    decreases top - k, 0, |s|
  {
    hide Inv, SameBelow, Graded;
    if s != [] {
      PreOrderSame(f, g, s[0], rank, top);
      PreOrdersSame(f, g, k, s[1..], rank, top);
      assert AllBelow(g, rank, k, s) by {
        forall i | 0 <= i < |s| ensures s[i] in g.tree.kids && k < Rk(rank, s[i]) {
          if i > 0 {
            assert s[1..][i - 1] == s[i];
          }
        }
      }
    }
  }

  /** Refusing chunks at the front add nothing. */
  lemma {:induction false} RefusersSilent(f: Forest, k: nat, pre: seq<Addr>, s: seq<Addr>, rank: map<Addr, int>, top: nat)
    requires Graded(f, rank, top) && AllBelow(f, rank, k, pre + s) && AllBelow(f, rank, k, s) && k <= top
    requires forall i :: 0 <= i < |pre| ==> pre[i] in f.dtor && f.dtor[pre[i]] == Refuses
    ensures PreOrders(f, k, pre + s, rank, top) == PreOrders(f, k, s, rank, top)
  {
    hide Graded;
    if pre == [] {
      assert pre + s == s;
    } else {
      assert (pre + s)[1..] == pre[1..] + s && (pre + s)[0] == pre[0];
      assert AllBelow(f, rank, k, pre[1..] + s) by {
        forall i | 0 <= i < |pre[1..] + s| ensures (pre[1..] + s)[i] in f.tree.kids && k < Rk(rank, (pre[1..] + s)[i]) {
          assert (pre[1..] + s)[i] == (pre + s)[i + 1];
        }
      }
      RefusersSilent(f, k, pre[1..], s, rank, top);
    }
  }

  // ------------------------------------------------------------------ one round

  /** After a round that dealt with the head child `c`, the later children of `p` are as they were,
      and what came in front of them refuses. */
  ghost predicate RestKept(f: Forest, g: Forest, p: Addr, pre: seq<Addr>)
    requires p in f.tree.kids && p in g.tree.kids && f.tree.kids[p] != []
  {
    var rest := f.tree.kids[p][1..];
    && g.tree.kids[p] == pre + rest
    && (forall i :: 0 <= i < |pre| ==> pre[i] in g.dtor && g.dtor[pre[i]] == Refuses)
    && (forall i :: 0 <= i < |rest| ==> rest[i] !in f.tree.out && SameBelow(f, g, rest[i]))
  }

  lemma RestOrder(f: Forest, g: Forest, p: Addr, pre: seq<Addr>, rank: map<Addr, int>, top: nat)
    requires Inv(f) && Graded(f, rank, top) && Graded(g, rank, top) && p in f.tree.kids && p in g.tree.kids
    requires f.tree.kids[p] != [] && RestKept(f, g, p, pre)
    ensures f.tree.kids[p][0] in f.tree.kids
    ensures PreOrders(f, Rk(rank, p), f.tree.kids[p], rank, top)
         == PreOrder(f, f.tree.kids[p][0], rank, top) + PreOrders(g, Rk(rank, p), g.tree.kids[p], rank, top)
  {
    var s := f.tree.kids[p];
    var rest, k := s[1..], Rk(rank, p);
    assert AllBelow(f, rank, k, s);
    assert AllBelow(f, rank, k, rest) by {
      forall i | 0 <= i < |rest| ensures rest[i] in f.tree.kids && k < Rk(rank, rest[i]) {
        assert rest[i] == s[i + 1];
      }
    }
    hide Inv, SameBelow;
    PreOrdersSame(f, g, k, rest, rank, top);
    RefusersSilent(g, k, pre, rest, rank, top);
  }

  /** The state of a reference-free forest whose chunk `p` is being emptied. */
  ghost predicate Plain(f: Forest, p: Addr, rank: map<Addr, int>, top: nat) {
    Emptied(f, p, rank) && f.refs.target == map[] && Bounded(f, rank, top) && StackAbove(f, p, rank)
  }

  /** No chunk that is being emptied ranks higher than `p`. */
  ghost predicate StackAbove(f: Forest, p: Addr, rank: map<Addr, int>) {
    forall x :: x in f.tree.out ==> Rk(rank, x) <= Rk(rank, p)
  }

  lemma PlainFacts(f: Forest, p: Addr, rank: map<Addr, int>, top: nat)
    requires Plain(f, p, rank, top) && f.tree.kids[p] != []
    ensures var c := f.tree.kids[p][0];
      && c in Live(f) && c in f.tree.up && f.tree.up[c] == p && c !in f.tree.out && c != f.nullCtx
      && c in f.refs.list && f.refs.list[c] == [] && c in f.dtor && p in f.tree.up && p != NULL
      && NoDup(f.tree.kids[p]) && NULL !in f.tree.up && Settled(f, c)
      && (forall i :: 0 <= i < |f.tree.kids[p]| ==> f.tree.kids[p][i] in f.tree.up && f.tree.up[f.tree.kids[p][i]] == p && f.tree.kids[p][i] !in f.tree.out)
  {
    HolderOk(f, p, f.tree.kids[p][0], rank);
    KeysAgree(f);
    assert KidsOk(f.tree, p) && UpOk(f.tree, p) && ListOk(f.refs, f.tree.kids[p][0]);
    HeadIn(f.refs.list[f.tree.kids[p][0]]);
    forall i | 0 <= i < |f.tree.kids[p]|
      ensures f.tree.kids[p][i] in f.tree.up && f.tree.up[f.tree.kids[p][i]] == p && f.tree.kids[p][i] !in f.tree.out
    {
      assert f.tree.kids[p][i] in f.tree.kids[p];
    }
  }

  lemma RankUpTo(f: Forest, y: Addr, a: Addr, rank: map<Addr, int>)
    requires NULL !in f.tree.up && Ranked(f, rank, NULL) && a in f.tree.up && y != NULL && Above(f.tree, y, a) && y != a
    ensures f.tree.up[a] != NULL && Rk(rank, y) <= Rk(rank, f.tree.up[a]) && Rk(rank, y) < Rk(rank, a)
  {
    var n: nat :| UpN(f.tree, a, n) == y;
    assert UpN(f.tree, a, 0) == a;
    RankFalls(f, a, n - 1, rank);
  }

  lemma RefuserLeavesRest(f: Forest, p: Addr, rank: map<Addr, int>, top: nat)
    requires Plain(f, p, rank, top) && f.tree.kids[p] != [] && f.tree.kids[p][0] in f.dtor && f.dtor[f.tree.kids[p][0]] == Refuses
    ensures var g := NextRound(f, p, rank); p in g.tree.kids && RestKept(f, g, p, []) && g.calls == f.calls
  {
    hide DrainRound, Free, Drain, Inv, Ranked, SameBelow, Stolen, Adopter;
    PlainFacts(f, p, rank, top);
    var c := f.tree.kids[p][0];
    RoundRefused(f, p, c, rank);
    var a := Adopter(f, p, f.nullCtx);
    AdopterRank(f, p, rank);
    StolenTail(f, p, a, c);
    forall i | 0 <= i < |f.tree.kids[p][1..]|
      ensures f.tree.kids[p][1..][i] !in f.tree.out && SameBelow(f, Stolen(f, a, c), f.tree.kids[p][1..][i])
    {
      StolenElsewhere(f, p, a, c, f.tree.kids[p][i + 1], rank);
    }
  }

  lemma StolenTail(f: Forest, p: Addr, a: Addr, c: Addr)
    requires p in f.tree.kids && NoDup(f.tree.kids[p]) && f.tree.kids[p] != [] && c == f.tree.kids[p][0] && c in f.tree.up && f.tree.up[c] == p
    requires (a == NULL || a in f.tree.kids) && (f.nullCtx == NULL || f.nullCtx in f.tree.kids)
    requires var q := if a == NULL then f.nullCtx else a; q != p && q != c
    ensures var g := Stolen(f, a, c); p in g.tree.kids && g.tree.kids[p] == [] + f.tree.kids[p][1..] && g.calls == f.calls
  {
    DropHead(f.tree.kids[p]);
  }

  lemma AdopterRank(f: Forest, p: Addr, rank: map<Addr, int>)
    requires Emptied(f, p, rank)
    ensures p in f.tree.up && var a := Adopter(f, p, f.nullCtx); var q := if a == NULL then f.nullCtx else a;
      && q != p && (a == NULL || a in Live(f)) && (q != NULL ==> Rk(rank, q) < Rk(rank, p))
      && (f.nullCtx == NULL || f.nullCtx in f.tree.kids) && q !in f.tree.kids[p]
  {
    KeysAgree(f);
    assert KidsOk(f.tree, p);
    assert UpOk(f.tree, p);
  }

  lemma StolenElsewhere(f: Forest, p: Addr, a: Addr, c: Addr, y: Addr, rank: map<Addr, int>)
    requires Emptied(f, p, rank) && c in f.tree.up && f.tree.up[c] == p && y in f.tree.up && f.tree.up[y] == p
    requires (a == NULL || a in f.tree.kids) && (f.nullCtx == NULL || f.nullCtx in f.tree.kids)
    requires var q := if a == NULL then f.nullCtx else a; q != p && (q != NULL ==> Rk(rank, q) < Rk(rank, p))
    ensures SameBelow(f, Stolen(f, a, c), y)
  {
    KeysAgree(f);
    var q := if a == NULL then f.nullCtx else a;
    assert p != NULL && y != NULL;
    hide Inv, Drop;
    forall z | z in f.tree.kids && z !in f.tree.out && Above(f.tree, y, z)
      ensures z != p && z != q
    {
      if z != y {
        hide Above;
        RankUpTo(f, y, z, rank);
      }
    }
  }

  // ------------------------------------------------------------------ a round that frees the child

  /** Freeing child `c` leaves the subtrees of its siblings alone. */
  lemma {:induction false} SiblingAlive(f: Forest, p: Addr, c: Addr, y: Addr, z: Addr, g: Forest, rank: map<Addr, int>)
    requires Emptied(f, p, rank) && f.refs.target == map[] && StackAbove(f, p, rank) && c in f.tree.up && f.tree.up[c] == p && c != y
    requires y in f.tree.up && f.tree.up[y] == p && y !in f.tree.out && z in f.tree.up && z !in f.tree.out && Above(f.tree, y, z)
    requires Shrinks(f, g) && p in Live(g) && Swept(f, g, Dead(f, g, c), p, c)
    ensures z in Live(g) && z != c
    decreases Rk(rank, z)
  {
    KeysAgree(f);
    assert p != NULL && y != NULL;
    NotThroughSibling(f, p, c, y, rank);
    PlainSettled(f, z);
    assert Rk(rank, p) < Rk(rank, y);
    hide Above, Ranked;
    if z != y {
      AboveStep(f.tree, y, z);
      RankUpTo(f, y, z, rank);
      var q := f.tree.up[z];
      UpSettled(f, z);
      SiblingAlive(f, p, c, y, q, g, rank);
    }
    if z !in Live(g) {
      assert Lost(f, Dead(f, g, c), z);
      assert Owners(f, z)[0] == f.tree.up[z];
      HeadDropped(Owners(f, z), Dead(f, g, c));
    }
  }

  lemma HeadDropped(s: seq<Addr>, w: set<Addr>)
    requires s != [] && Drop(s, w) == []
    ensures s[0] in w
  {
  }

  lemma UpSettled(f: Forest, z: Addr)
    requires Inv(f) && z in f.tree.up && z !in f.tree.out && f.tree.up[z] != NULL
    ensures f.tree.up[z] in f.tree.up
  {
    assert UpOk(f.tree, z);
  }

  lemma PlainSettled(f: Forest, z: Addr)
    requires Inv(f) && f.refs.target == map[] && z in Live(f) && z !in f.tree.out
    ensures Settled(f, z) && Owners(f, z) == [f.tree.up[z]]
  {
    KeysAgree(f);
    assert ListOk(f.refs, z);
    HeadIn(f.refs.list[z]);
  }

  lemma NotThroughSibling(f: Forest, p: Addr, c: Addr, y: Addr, rank: map<Addr, int>)
    requires NULL !in f.tree.up && Ranked(f, rank, NULL) && c in f.tree.up && f.tree.up[c] == p && y in f.tree.up && f.tree.up[y] == p
    requires c != y && p != NULL
    ensures !Above(f.tree, y, c)
  {
    if Above(f.tree, y, c) {
      RankUpTo(f, y, c, rank);
    }
  }

  /** What freeing child `c` of `p` comes to in a forest without references. */
  ghost predicate ChildGone(f: Forest, p: Addr, c: Addr, g: Forest, rank: map<Addr, int>) {
    && Emptied(f, p, rank) && f.refs.target == map[] && StackAbove(f, p, rank) && c in f.tree.up && f.tree.up[c] == p
    && Inv(g) && Shrinks(f, g) && p in Live(g) && c !in Live(g) && Swept(f, g, Dead(f, g, c), p, c)
  }

  /** Only refusing chunks change their parent, and `p` gets them. */
  lemma NewChild(f: Forest, p: Addr, c: Addr, g: Forest, rank: map<Addr, int>, a: Addr, pre: seq<Addr>, x: Addr)
    requires ChildGone(f, p, c, g, rank) && a in f.tree.kids && a in g.tree.kids && GrownBy(f, g, a, pre) && x in pre
    ensures a == p && x in g.dtor && g.dtor[x] == Refuses
  {
    hide Ranked, Drop, Inv, Shrinks, Owners, Emptied, StackAbove, Settled;
    EmptiedFacts(f, p, rank);
    PlainLess(f, g);
    assert x in g.tree.kids[a];
    KidFacts(g, a, x);
    PlainSettled(f, x);
    PlainSettled(g, x);
    assert Kept(f, g, Dead(f, g, c), p, x);
    DropOne(f.tree.up[x], Dead(f, g, c));
  }

  lemma EmptiedFacts(f: Forest, p: Addr, rank: map<Addr, int>)
    requires Emptied(f, p, rank)
    ensures Inv(f)
  {
  }

  lemma PlainLess(f: Forest, g: Forest)
    requires Inv(f) && Inv(g) && Shrinks(f, g) && f.refs.target == map[]
    ensures g.refs.target == map[] && g.tree.out == f.tree.out && Live(g) <= Live(f) && Live(g) == g.tree.up.Keys == g.dtor.Keys
    ensures f.tree.up.Keys == Live(f) == f.dtor.Keys && forall x :: x in Live(g) ==> g.dtor[x] == f.dtor[x]
  {
    KeysAgree(f);
    KeysAgree(g);
    assert forall x :: x !in g.refs.target;
  }

  lemma KidFacts(g: Forest, a: Addr, x: Addr)
    requires Inv(g) && a in g.tree.kids && x in g.tree.kids[a]
    ensures x in g.tree.up && g.tree.up[x] == a && x !in g.tree.out && x in Live(g)
  {
    assert KidsOk(g.tree, a);
    KeysAgree(g);
  }

  lemma DropOne(x: Addr, w: set<Addr>)
    ensures Drop([x], w) == if x in w then [] else [x]
  {
  }

  lemma SiblingKids(f: Forest, p: Addr, c: Addr, y: Addr, z: Addr, g: Forest, rank: map<Addr, int>)
    requires ChildGone(f, p, c, g, rank) && c != y && y in f.tree.up && f.tree.up[y] == p && y !in f.tree.out
    requires z in f.tree.up && z !in f.tree.out && Above(f.tree, y, z) && Grown(f, g, z)
    ensures z in f.tree.kids && z in g.tree.kids && g.tree.kids[z] == f.tree.kids[z]
  {
    KeysAgree(f);
    assert KidsOk(f.tree, z) && p != NULL && y != NULL;
    var pre :| GrownBy(f, g, z, pre);
    if z != y {
      RankUpTo(f, y, z, rank);
    }
    assert z != p;
    hide Ranked, Drop, Swept, Shrinks, Above;
    HeadIn(pre);
    if pre != [] {
      NewChild(f, p, c, g, rank, z, pre, pre[0]);
    }
    forall i | 0 <= i < |f.tree.kids[z]| ensures f.tree.kids[z][i] !in Live(f) - Live(g) {
      var k := f.tree.kids[z][i];
      assert k in f.tree.kids[z];
      BelowAgain(f, y, z, k);
      SiblingAlive(f, p, c, y, k, g, rank);
    }
    DropNone(f.tree.kids[z], Live(f) - Live(g));
  }

  lemma BelowAgain(f: Forest, y: Addr, z: Addr, k: Addr)
    requires k in f.tree.up && f.tree.up[k] == z && Above(f.tree, y, z)
    ensures Above(f.tree, y, k)
  {
    if k == y {
      SelfAbove(f.tree, y);
    } else {
      AboveStep(f.tree, y, k);
    }
  }

  lemma SiblingSame(f: Forest, p: Addr, c: Addr, y: Addr, g: Forest, rank: map<Addr, int>)
    requires ChildGone(f, p, c, g, rank) && c != y && y in f.tree.up && f.tree.up[y] == p && y !in f.tree.out
    requires forall z :: z in Live(g) ==> Grown(f, g, z)
    ensures SameBelow(f, g, y)
  {
    KeysAgree(f);
    KeysAgree(g);
    hide Ranked, Drop, Swept, Above, Grown, Inv;
    forall z | z in f.tree.kids && z !in f.tree.out && Above(f.tree, y, z)
      ensures z in g.tree.kids && g.tree.kids[z] == f.tree.kids[z] && z in f.dtor && z in g.dtor && g.dtor[z] == f.dtor[z]
    {
      SiblingAlive(f, p, c, y, z, g, rank);
      SiblingKids(f, p, c, y, z, g, rank);
    }
  }

  /** After child `c` was freed the rest of the children of `p` are as they were. */
  lemma FreedRest(f: Forest, p: Addr, g: Forest, rank: map<Addr, int>, top: nat) returns (pre: seq<Addr>)
    requires Plain(f, p, rank, top) && f.tree.kids[p] != [] && ChildGone(f, p, f.tree.kids[p][0], g, rank)
    requires forall z :: z in Live(g) ==> Grown(f, g, z)
    ensures p in g.tree.kids && RestKept(f, g, p, pre)
  {
    PlainFacts(f, p, rank, top);
    var s, c := f.tree.kids[p], f.tree.kids[p][0];
    hide Ranked, Swept, Shrinks, Inv, Drop, SameBelow;
    assert Grown(f, g, p);
    pre :| GrownBy(f, g, p, pre);
    forall i | 0 <= i < |pre| ensures pre[i] in g.dtor && g.dtor[pre[i]] == Refuses {
      assert pre[i] in pre;
      NewChild(f, p, c, g, rank, p, pre, pre[i]);
    }
    forall i | 0 <= i < |s[1..]|
      ensures s[1..][i] !in f.tree.out && SameBelow(f, g, s[1..][i]) && s[1..][i] in Live(g)
    {
      assert s[1..][i] == s[i + 1] && s[0] != s[i + 1];
      SiblingSame(f, p, c, s[i + 1], g, rank);
      SelfAbove(f.tree, s[i + 1]);
      SiblingAlive(f, p, c, s[i + 1], s[i + 1], g, rank);
    }
    DropTail(s, Live(f) - Live(g));
  }

  lemma DropTail(s: seq<Addr>, w: set<Addr>)
    requires s != [] && s[0] in w && forall i :: 0 <= i < |s[1..]| ==> s[1..][i] !in w
    ensures Drop(s, w) == s[1..]
  {
    DropNone(s[1..], w);
  }

  // ------------------------------------------------------------------ the whole free

  lemma RoundOrder(f: Forest, p: Addr, g: Forest, pre: seq<Addr>, rank: map<Addr, int>, top: nat)
    requires Plain(f, p, rank, top) && f.tree.kids[p] != [] && Inv(g) && Shrinks(f, g) && Ranked(g, rank, NULL) && p in Live(g)
    requires RestKept(f, g, p, pre)
    ensures Graded(f, rank, top) && Graded(g, rank, top) && Plain(g, p, rank, top) && f.tree.kids[p][0] in f.tree.kids
    ensures AllBelow(f, rank, Rk(rank, p), f.tree.kids[p]) && AllBelow(g, rank, Rk(rank, p), g.tree.kids[p])
    ensures PreOrders(f, Rk(rank, p), f.tree.kids[p], rank, top)
         == PreOrder(f, f.tree.kids[p][0], rank, top) + PreOrders(g, Rk(rank, p), g.tree.kids[p], rank, top)
  {
    PlainLess(f, g);
    SameOut(f, g);
    hide Inv, Shrinks, Ranked, SameBelow;
    IsGraded(f, rank, top);
    IsGraded(g, rank, top);
    RestOrder(f, g, p, pre, rank, top);
  }

  /** Emptying `p` runs the destructors below its children, child by child. */
  lemma {:induction false} DrainCalls(f: Forest, p: Addr, rank: map<Addr, int>, top: nat)
    requires Plain(f, p, rank, top)
    ensures Graded(f, rank, top) && AllBelow(f, rank, Rk(rank, p), f.tree.kids[p])
    ensures Drain(f, p, rank).calls == f.calls + PreOrders(f, Rk(rank, p), f.tree.kids[p], rank, top)
    decreases Mobile(f), 1, |f.tree.kids[p]|
  {
    hide Inv, Ranked, Shrinks, Drain, Free, NextRound, RestKept, AllBelow;
    IsGraded(f, rank, top);
    if f.tree.kids[p] == [] {
      DrainNothing(f, p, rank);
    } else {
      DrainStep(f, p, rank);
      var g := NextRound(f, p, rank);
      var pre := RoundCalls(f, p, rank, top);
      RoundOrder(f, p, g, pre, rank, top);
      DrainCalls(g, p, rank, top);
    }
  }

  lemma {:induction false} RoundCalls(f: Forest, p: Addr, rank: map<Addr, int>, top: nat) returns (pre: seq<Addr>)
    requires Plain(f, p, rank, top) && f.tree.kids[p] != []
    ensures Graded(f, rank, top) && f.tree.kids[p][0] in f.tree.kids
    ensures var g := NextRound(f, p, rank);
      && p in g.tree.kids && RestKept(f, g, p, pre) && g.calls == f.calls + PreOrder(f, f.tree.kids[p][0], rank, top)
    decreases Mobile(f), 1, 0
  {
    hide Inv, Ranked, Shrinks, Drain, Free, RestKept, DrainRound;
    IsGraded(f, rank, top);
    PlainFacts(f, p, rank, top);
    var c := f.tree.kids[p][0];
    if f.dtor[c] == Refuses {
      RefuserLeavesRest(f, p, rank, top);
      pre := [];
    } else {
      RoundAccepted(f, p, c, rank);
      FreeCalls(f, c, rank, top);
      var g := Free(f, c, rank).0;
      ChildGoneHolds(f, p, c, rank, top);
      forall z | z in Live(g) ensures Grown(f, g, z) {
        FreeGrows(f, c, rank, z);
      }
      pre := FreedRest(f, p, g, rank, top);
    }
  }

  lemma ChildGoneHolds(f: Forest, p: Addr, c: Addr, rank: map<Addr, int>, top: nat)
    requires Plain(f, p, rank, top) && HeadChild(f, p, c) && c in f.dtor && f.dtor[c] != Refuses
    ensures c in Live(f) && c != f.nullCtx && Ranked(f, rank, c) && ChildGone(f, p, c, Free(f, c, rank).0, rank)
  {
    hide Inv, Ranked, Drain, Free, Swept, DrainRound, Down;
    PlainFacts(f, p, rank, top);
    RoundAccepted(f, p, c, rank);
    SubtreeDown(f, c);
    FreeSweeps(f, c, rank, Subtree(f, c));
    FreedRound(f, p, c, rank, Free(f, c, rank).0);
  }

  /** The destructors that a free of the unreferenced chunk `p` runs successfully, in order. */
  lemma {:induction false} FreeCalls(f: Forest, p: Addr, rank: map<Addr, int>, top: nat)
    requires Inv(f) && p in Live(f) && p != f.nullCtx && Ranked(f, rank, NULL) && Ranked(f, rank, p)
    requires f.refs.target == map[] && Bounded(f, rank, top) && p !in f.tree.out
    requires forall x :: x in f.tree.out ==> Rk(rank, x) < Rk(rank, p)
    requires p in f.dtor && f.dtor[p] != Refuses
    ensures Graded(f, rank, top) && Free(f, p, rank).0.calls == f.calls + PreOrder(f, p, rank, top)
    decreases Mobile(f), 0, 0
  {
    IsGraded(f, rank, top);
    PlainSettled(f, p);
    assert f.refs.list[p] == [] by { NoList(f, p); }
    FreeStep(f, p, rank);
    EmptyingPlain(f, p, rank, top);
    var e := Emptying(f, p);
    hide Inv, Ranked, Drain, Free, Emptying, AllBelow;
    DrainCalls(e, p, rank, top);
    EmptyingOrder(f, p, rank, top);
  }

  lemma NoList(f: Forest, p: Addr)
    requires Inv(f) && f.refs.target == map[] && p in f.refs.list
    ensures f.refs.list[p] == []
  {
    assert ListOk(f.refs, p);
    if f.refs.list[p] != [] {
      Targets(f.refs, p, 0);
    }
  }

  lemma EmptyingPlain(f: Forest, p: Addr, rank: map<Addr, int>, top: nat)
    requires Inv(f) && p in Live(f) && p != f.nullCtx && Ranked(f, rank, p) && Ranked(f, rank, NULL) && f.refs.target == map[]
    requires Bounded(f, rank, top) && p !in f.tree.out && p in f.refs.list && f.refs.list[p] == [] && p in f.dtor && f.dtor[p] != Refuses
    requires forall x :: x in f.tree.out ==> Rk(rank, x) < Rk(rank, p)
    ensures p in f.tree.up && Plain(Emptying(f, p), p, rank, top)
  {
    hide Inv, Ranked, Emptying, Free, Drain;
    KeysAgree(f);
    EmptyingFacts(f, p);
    FreeStep(f, p, rank);
  }

  lemma EmptyingOrder(f: Forest, p: Addr, rank: map<Addr, int>, top: nat)
    requires Inv(f) && p in Live(f) && p in f.tree.up && Ranked(f, rank, NULL) && f.refs.target == map[]
    requires Bounded(f, rank, top) && p !in f.tree.out && p in f.dtor && f.dtor[p] != Refuses
    requires Inv(Emptying(f, p)) && Ranked(Emptying(f, p), rank, NULL)
    ensures Graded(f, rank, top)
    ensures var e := Emptying(f, p);
      && p in e.tree.kids && Graded(e, rank, top) && AllBelow(e, rank, Rk(rank, p), e.tree.kids[p])
      && f.calls + PreOrder(f, p, rank, top) == e.calls + PreOrders(e, Rk(rank, p), e.tree.kids[p], rank, top)
  {
    hide Inv, Ranked, Emptying, SameBelow, Graded, AllBelow, PreOrder, PreOrders, Bounded;
    var e := Emptying(f, p);
    IsGraded(f, rank, top);
    EmptyingFacts(f, p);
    IsGraded(e, rank, top);
    EmptyingBelow(f, p, rank);
    EmptyingOwn(f, p);
    GradedAt(f, p, rank, top);
    PreOrderStep(f, p, rank, top);
    PreOrdersSame(f, e, Rk(rank, p), f.tree.kids[p], rank, top);
  }

  lemma PreOrderStep(f: Forest, p: Addr, rank: map<Addr, int>, top: nat)
    requires Graded(f, rank, top) && p in f.tree.kids && p in f.dtor && f.dtor[p] != Refuses
    ensures AllBelow(f, rank, Rk(rank, p), f.tree.kids[p]) && Rk(rank, p) <= top
    ensures PreOrder(f, p, rank, top)
         == (if f.dtor[p] == Accepts then [p] else []) + PreOrders(f, Rk(rank, p), f.tree.kids[p], rank, top)
  {
  }

  lemma GradedAt(f: Forest, p: Addr, rank: map<Addr, int>, top: nat)
    requires Graded(f, rank, top) && p in f.tree.kids
    ensures AllBelow(f, rank, Rk(rank, p), f.tree.kids[p]) && Rk(rank, p) <= top && p in f.dtor
  {
  }

  lemma EmptyingOwn(f: Forest, p: Addr)
    requires Inv(f) && p in Live(f) && p in f.tree.up && p in f.dtor && f.refs.target == map[] && f.dtor[p] != Refuses
    ensures p in Emptying(f, p).tree.kids && Emptying(f, p).tree.kids[p] == f.tree.kids[p]
    ensures Emptying(f, p).calls == f.calls + if f.dtor[p] == Accepts then [p] else []
  {
    assert UpOk(f.tree, p);
  }

  lemma EmptyingBelow(f: Forest, p: Addr, rank: map<Addr, int>)
    requires Inv(f) && p in Live(f) && p in f.tree.up && p !in f.tree.out && Ranked(f, rank, NULL) && f.refs.target == map[] && p in f.dtor
    ensures forall i :: 0 <= i < |f.tree.kids[p]| ==>
      f.tree.kids[p][i] !in f.tree.out && SameBelow(f, Emptying(f, p), f.tree.kids[p][i])
  {
    KeysAgree(f);
    assert KidsOk(f.tree, p) && p != NULL;
    hide Inv, Above;
    forall i | 0 <= i < |f.tree.kids[p]|
      ensures f.tree.kids[p][i] !in f.tree.out && SameBelow(f, Emptying(f, p), f.tree.kids[p][i])
    {
      assert f.tree.kids[p][i] in f.tree.kids[p];
      EmptyingElsewhere(f, p, f.tree.kids[p][i], rank);
    }
  }

  lemma EmptyingElsewhere(f: Forest, p: Addr, y: Addr, rank: map<Addr, int>)
    requires Inv(f) && p in Live(f) && p in f.tree.up && Ranked(f, rank, NULL) && f.refs.target == map[] && p in f.dtor
    requires y in f.tree.up && f.tree.up[y] == p
    ensures SameBelow(f, Emptying(f, p), y)
  {
    KeysAgree(f);
    assert p != NULL && y != NULL;
    hide RefsInv, TreeInv, Drop;
    forall z | z in f.tree.kids && z !in f.tree.out && Above(f.tree, y, z)
      ensures z != p && z != f.tree.up[p]
    {
      if z != y {
        hide Above;
        RankUpTo(f, y, z, rank);
      }
    }
  }
}
