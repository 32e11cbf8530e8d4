/** What a steal does to the tree as a whole. */
module StealResults {
  import opened Seqs
  import opened ChildLists
  import opened Forests
  import opened FreeRounds
  import opened Operations
  import opened Acyclicity
  import opened Runs
  import opened Sizes

  /** A steal of `c` outside its own subtree. */
  ghost predicate StealCall(f: Forest, ctx: Addr, c: Addr) {
    Orderly(f) && IsContext(f, ctx) && Subject(f, c) && !Above(f.tree, c, Context(f, ctx))
  }

  lemma StolenUp(f: Forest, ctx: Addr, c: Addr)
    requires StealCall(f, ctx, c)
    ensures f.nullCtx == NULL || f.nullCtx in f.tree.kids
    ensures Stolen(f, ctx, c).tree.up == f.tree.up[c := Context(f, ctx)] && c != NULL && NULL !in f.tree.up
    ensures Context(f, ctx) != c && (Context(f, ctx) == NULL || Context(f, ctx) in Live(f))
  {
    ContextLive(f, ctx);
    KeysAgree(f);
    AboveEnds(f.tree, c);
    hide Inv, Acyclic, Above, Reaches;
    MoveInv(f.tree, Context(f, ctx), c);
  }

  /** The way up from `x` is the same as long as it does not pass `c`. */
  lemma {:induction false} SameWay(t: Tree, t': Tree, c: Addr, q: Addr, x: Addr, n: nat)
    requires t'.up == t.up[c := q] && c in t.up && forall i :: 0 <= i < n ==> UpN(t, x, i) != c
    ensures UpN(t', x, n) == UpN(t, x, n)
  {
    if n > 0 {
      SameWay(t, t', c, q, x, n - 1);
    } else {
      assert UpN(t', x, 0) == x == UpN(t, x, 0);
    }
  }

  lemma OutsideMoved(t: Tree, t': Tree, c: Addr, q: Addr, p: Addr, x: Addr)
    requires t'.up == t.up[c := q] && c in t.up && !Above(t, c, x)
    ensures Above(t', p, x) <==> Above(t, p, x)
  {
    forall n: nat ensures UpN(t', x, n) == UpN(t, x, n) {
      SameWay(t, t', c, q, x, n);
    }
  }

  /** `a` is no ancestor of its own parent. */
  lemma NoLoop(f: Forest, a: Addr)
    requires Orderly(f) && a in f.tree.up
    ensures NULL !in f.tree.up && a != NULL && !Above(f.tree, a, f.tree.up[a])
  {
    var rank :| Ranked(f, rank, NULL);
    KeysAgree(f);
    hide Inv;
    if Above(f.tree, a, f.tree.up[a]) {
      var n: nat :| UpN(f.tree, f.tree.up[a], n) == a;
      UpShift(f.tree, a, n);
      RankFalls(f, a, n, rank);
      Fell(f, a, rank);
    }
  }

  lemma Fell(f: Forest, a: Addr, rank: map<Addr, int>)
    requires Ranked(f, rank, NULL) && a in f.tree.up && f.tree.up[a] != NULL
    ensures !(Rk(rank, a) <= Rk(rank, f.tree.up[a]))
  {
  }

  lemma {:induction false} RelocatesFrom(f: Forest, ctx: Addr, c: Addr, p: Addr, x: Addr, n: nat)
    requires StealCall(f, ctx, c) && x in Live(f) && p in Live(f)
    requires Above(f.tree, c, x) ==> UpN(f.tree, x, n) == c
    ensures f.nullCtx == NULL || f.nullCtx in f.tree.kids
    ensures Above(Stolen(f, ctx, c).tree, p, x) <==>
      if Above(f.tree, c, x) then (Above(f.tree, c, p) && Above(f.tree, p, x)) || Above(f.tree, p, Context(f, ctx))
      else Above(f.tree, p, x)
    decreases n
  {
    hide Inv, Above, Orderly, Stolen;
    StolenUp(f, ctx, c);
    var g, q := Stolen(f, ctx, c), Context(f, ctx);
    LiveUp(f, x);
    LiveUp(f, p);
    if !Above(f.tree, c, x) {
      OutsideMoved(f.tree, g.tree, c, q, p, x);
    } else if x == c {
      OutsideMoved(f.tree, g.tree, c, q, p, q);
      AtMoved(f, g, c, q, p);
    } else {
      BelowMoved(f, c, x, n);
      RelocatesFrom(f, ctx, c, p, f.tree.up[x], n - 1);
      if p == x {
        AboveEnds(f.tree, x);
        AboveEnds(g.tree, x);
      } else {
        AboveStep(f.tree, p, x);
        AboveStep(g.tree, p, x);
      }
    }
  }

  /** A steal moves exactly the subtree of `c`: chunks outside keep their ancestors; those inside keep the
      ones up to `c` and get `q` and the ancestors of `q` in place of the others. */
  lemma StealRelocates(f: Forest, ctx: Addr, c: Addr, p: Addr, x: Addr)
    requires StealCall(f, ctx, c) && x in Live(f) && p in Live(f)
    ensures f.nullCtx == NULL || f.nullCtx in f.tree.kids
    ensures Above(Stolen(f, ctx, c).tree, p, x) <==>
      if Above(f.tree, c, x) then (Above(f.tree, c, p) && Above(f.tree, p, x)) || Above(f.tree, p, Context(f, ctx))
      else Above(f.tree, p, x)
  {
    hide StealCall, Stolen;
    var n: nat :| Above(f.tree, c, x) ==> UpN(f.tree, x, n) == c;
    RelocatesFrom(f, ctx, c, p, x, n);
  }

  lemma LiveUp(f: Forest, x: Addr)
    requires Orderly(f) && x in Live(f)
    ensures x in f.tree.up && x != NULL
  {
    KeysAgree(f);
  }

  /** Above `c` itself there is now `c`, `q` and what is above `q`. */
  lemma AtMoved(f: Forest, g: Forest, c: Addr, q: Addr, p: Addr)
    requires Orderly(f) && c in f.tree.up && p in f.tree.up && g.tree.up == f.tree.up[c := q] && NULL !in f.tree.up
    ensures Above(g.tree, p, c) <==> (Above(f.tree, c, p) && Above(f.tree, p, c)) || Above(g.tree, p, q)
  {
    hide Inv, Above;
    LiveUpKeys(f);
    AboveEnds(f.tree, c);
    AboveEnds(g.tree, c);
    if p != c {
      AboveStep(g.tree, p, c);
      AboveStep(f.tree, p, c);
      NoLoop(f, c);
      NoLoop(f, p);
      NotBoth(f, p, c);
    }
  }

  lemma LiveUpKeys(f: Forest)
    requires Orderly(f)
    ensures Live(f) == f.tree.up.Keys && NULL !in f.tree.up
  {
    KeysAgree(f);
  }

  /** Two chunks are not above each other. */
  lemma NotBoth(f: Forest, p: Addr, c: Addr)
    requires Orderly(f) && p in f.tree.up && c in f.tree.up && p != c
    ensures !(Above(f.tree, c, p) && Above(f.tree, p, c))
  {
    var rank :| Ranked(f, rank, NULL);
    KeysAgree(f);
    hide Inv, Ranked;
    if Above(f.tree, c, p) && Above(f.tree, p, c) {
      var n: nat :| UpN(f.tree, p, n) == c;
      var m: nat :| UpN(f.tree, c, m) == p;
      assert UpN(f.tree, p, 0) == p && UpN(f.tree, c, 0) == c;
      RankFalls(f, p, n - 1, rank);
      RankFalls(f, c, m - 1, rank);
      RankFallsOnce(f, p, rank);
      RankFallsOnce(f, c, rank);
    }
  }

  /** A chunk further down is moved with its parent. */
  lemma BelowMoved(f: Forest, c: Addr, x: Addr, n: nat)
    requires Orderly(f) && c in f.tree.up && x in f.tree.up && x != c && UpN(f.tree, x, n) == c && Above(f.tree, c, x)
    ensures n > 0 && f.tree.up[x] in Live(f) && UpN(f.tree, f.tree.up[x], n - 1) == c && Above(f.tree, c, f.tree.up[x])
  {
    assert UpN(f.tree, x, 0) == x;
    KeysAgree(f);
    UpShift(f.tree, x, n - 1);
    AboveStep(f.tree, c, x);
    AboveEnds(f.tree, c);
    UpLive(f, x);
    hide Inv, Above;
  }

  /** `c` is in front of the children of its new parent; all other lists lose it and keep their order. */
  lemma StealKeepsOrder(f: Forest, ctx: Addr, c: Addr, a: Addr)
    requires StealCall(f, ctx, c) && a in Live(f)
    ensures f.nullCtx == NULL || f.nullCtx in f.tree.kids
    ensures var g := Stolen(f, ctx, c);
      a in g.tree.kids && g.tree.kids[a] == (if a == Context(f, ctx) then [c] else []) + Drop(f.tree.kids[a], {c})
  {
    hide Inv, Orderly, Above, Drop;
    StolenUp(f, ctx, c);
    LiveUp(f, c);
    LiveUp(f, a);
    if a != f.tree.up[c] {
      NotItsChild(f, a, c);
    }
  }

  lemma NotItsChild(f: Forest, a: Addr, c: Addr)
    requires Orderly(f) && a in Live(f) && c in f.tree.up && a != f.tree.up[c]
    ensures Drop(f.tree.kids[a], {c}) == f.tree.kids[a]
  {
    var s := f.tree.kids[a];
    assert KidsOk(f.tree, a);
    forall i | 0 <= i < |s| ensures s[i] !in {c} {
      assert s[i] in s;
    }
    DropNone(s, {c});
  }

  /** Everything below `c` ranks higher by `k`. */
  ghost function Lifted(f: Forest, rank: map<Addr, int>, c: Addr, k: nat): map<Addr, int> {
    map a | a in Live(f) :: if Above(f.tree, c, a) then Rk(rank, a) + k else Rk(rank, a)
  }

  /** A steal of `c` outside its own subtree leaves a tree, whatever the references are. */
  lemma StolenTreeAcyclic(f: Forest, ctx: Addr, c: Addr)
    requires StealCall(f, ctx, c)
    ensures f.nullCtx == NULL || f.nullCtx in f.tree.kids
    ensures TreeAcyclic(Stolen(f, ctx, c).tree)
  {
    hide Inv, Above, Stolen;
    var rank :| Ranked(f, rank, NULL);
    StolenUp(f, ctx, c);
    LiveUpKeys(f);
    AboveEnds(f.tree, c);
    var q, t := Context(f, ctx), Stolen(f, ctx, c).tree;
    var r := Lifted(f, rank, c, Rk(rank, q) + 1);
    forall a | a in t.up && t.up[a] != NULL ensures Rk(r, t.up[a]) < Rk(r, a) {
      if a != c {
        AboveStep(f.tree, c, a);
        UpLive(f, a);
      }
    }
    assert Grows(t, r);
  }

  /** A steal keeps the total size summed over all top-level chunks. */
  lemma StealConserves(f: Forest, ctx: Addr, c: Addr, roots: seq<Addr>, roots': seq<Addr>, size: map<Addr, nat>)
    requires StealCall(f, ctx, c) && Roots(f, roots)
    requires (f.nullCtx == NULL || f.nullCtx in f.tree.kids) && Roots(Stolen(f, ctx, c), roots')
    ensures SumBelow(size, f.tree, roots) == SumBelow(size, Stolen(f, ctx, c).tree, roots')
  {
    hide Inv, Acyclic, Stolen, Roots, TreeAcyclic, Above, Shrinks;
    ContextLive(f, ctx);
    AcyclicTree(f);
    StolenTreeAcyclic(f, ctx, c);
    StolenInv(f, ctx, c);
    StolenShrinks(f, ctx, c);
    SameOut(f, Stolen(f, ctx, c));
    TotalConserved(f, Stolen(f, ctx, c), roots, roots', size);
    SumOfRoots(size, f.tree, roots);
    SumOfRoots(size, Stolen(f, ctx, c).tree, roots');
  }
}
