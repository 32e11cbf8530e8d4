/**
 Acyclic ownership: what keeps it when chunks are created, referenced and moved, and why freeing
 does not depend on how the acyclicity is witnessed.
 */
module Acyclicity {
  import opened Seqs
  import opened ChildLists
  import opened RefLists
  import opened Forests
  import opened FreeRounds
  import opened Operations

  ghost predicate Acyclic(f: Forest) {
    exists rank :: Ranked(f, rank, NULL)
  }

  /** Nothing is being emptied and ownership is acyclic. */
  ghost predicate Orderly(f: Forest) {
    Inv(f) && f.tree.out == {} && Acyclic(f)
  }

  /** `a` owns `x`, as parent or through a reference handle. */
  ghost predicate Edge(f: Forest, a: Addr, x: Addr) {
    && a != NULL
    && (|| (x in f.tree.up && f.tree.up[x] == a)
        || exists h :: h in f.refs.target && f.refs.target[h] == x && h in f.tree.up && f.tree.up[h] == a)
  }

  /** A path along ownership edges. */
  ghost predicate Path(f: Forest, s: seq<Addr>) {
    s != [] && forall i :: 0 < i < |s| ==> Edge(f, s[i - 1], s[i])
  }

  ghost predicate Reaches(f: Forest, p: Addr, x: Addr) {
    exists s :: Path(f, s) && s[0] == p && s[|s| - 1] == x
  }

  lemma ReachesSelf(f: Forest, p: Addr)
    ensures Reaches(f, p, p)
  {
    assert Path(f, [p]);
  }

  lemma ReachesOn(f: Forest, p: Addr, a: Addr, x: Addr)
    requires Reaches(f, p, a) && Edge(f, a, x)
    ensures Reaches(f, p, x)
  {
    hide Edge;
    var s :| Path(f, s) && s[0] == p && s[|s| - 1] == a;
    var r := s + [x];
    forall i | 0 < i < |r| ensures Edge(f, r[i - 1], r[i]) {
      if i < |s| {
        assert r[i] == s[i] && r[i - 1] == s[i - 1];
      } else {
        assert r[i] == x && r[i - 1] == s[|s| - 1];
      }
    }
    assert Path(f, r) && r[0] == p && r[|r| - 1] == x;
  }

  /** Nothing but itself leads to the null context. */
  lemma NullCtxUnreached(f: Forest, p: Addr)
    requires Inv(f) && f.nullCtx != NULL && p != f.nullCtx
    ensures !Reaches(f, p, f.nullCtx)
  {
    assert forall h :: h in f.refs.target ==> h in f.refs.list[f.refs.target[h]];
    assert forall a :: !Edge(f, a, f.nullCtx);
    hide Edge, Inv;
    forall s | Path(f, s) && s[0] == p ensures s[|s| - 1] != f.nullCtx {
      if |s| > 1 {
        PathLast(f, s);
      }
    }
  }

  lemma PathLast(f: Forest, s: seq<Addr>)
    requires Path(f, s) && |s| > 1
    ensures Edge(f, s[|s| - 2], s[|s| - 1])
  {
    var i := |s| - 1;
    assert Edge(f, s[i - 1], s[i]);
  }

  /** Everything that `p` owns, directly or not, ranks higher by `k`. */
  ghost function Raised(f: Forest, rank: map<Addr, int>, p: Addr, k: nat): map<Addr, int> {
    map a | a in Live(f) :: if Reaches(f, p, a) then Rk(rank, a) + k else Rk(rank, a)
  }

  lemma RaisedRanked(f: Forest, rank: map<Addr, int>, p: Addr, k: nat)
    requires Inv(f) && Ranked(f, rank, NULL) && p != f.nullCtx
    ensures Ranked(f, Raised(f, rank, p, k), NULL)
  {
    var r := Raised(f, rank, p, k);
    KeysAgree(f);
    if f.nullCtx != NULL {
      NullCtxUnreached(f, p);
    }
    hide Reaches, TreeInv;
    forall a | a in f.tree.up && f.tree.up[a] != NULL ensures Rk(r, f.tree.up[a]) < Rk(r, a) {
      assert f.tree.up[a] in Live(f) ==> Rk(r, f.tree.up[a]) == r[f.tree.up[a]];
      RaisedEdge(f, rank, p, k, f.tree.up[a], a);
    }
    forall h | h in f.refs.target && h in f.tree.up && f.tree.up[h] != NULL
      ensures Rk(r, f.tree.up[h]) < Rk(r, f.refs.target[h])
    {
      RaisedEdge(f, rank, p, k, f.tree.up[h], f.refs.target[h]);
    }
  }

  lemma RaisedEdge(f: Forest, rank: map<Addr, int>, p: Addr, k: nat, a: Addr, x: Addr)
    requires Edge(f, a, x) && x in Live(f) && Rk(rank, a) < Rk(rank, x)
    ensures var r := Raised(f, rank, p, k); Rk(r, a) < Rk(r, x)
  {
    if Reaches(f, p, a) {
      ReachesOn(f, p, a, x);
    }
    hide Reaches, Edge;
  }

  /** When `p` does not own `q`, `q` can be ranked below `p`. */
  lemma RankBetween(f: Forest, q: Addr, p: Addr) returns (rank: map<Addr, int>)
    requires Inv(f) && Acyclic(f) && p in Live(f) && p != f.nullCtx && !Reaches(f, p, q)
    ensures Ranked(f, rank, NULL) && (q in Live(f) ==> Rk(rank, q) < Rk(rank, p))
  {
    hide Inv, Ranked, Reaches;
    var r :| Ranked(f, r, NULL);
    rank := Raised(f, r, p, Rk(r, q) + 1);
    RaisedRanked(f, r, p, Rk(r, q) + 1);
    ReachesSelf(f, p);
    assert Rk(rank, p) == Rk(r, p) + Rk(r, q) + 1;
    assert q in Live(f) ==> Rk(rank, q) == Rk(r, q);
  }

  /** A steal keeps ownership acyclic when the moved chunk does not own the new parent. */
  lemma StealAcyclic(f: Forest, ctx: Addr, p: Addr)
    requires Inv(f) && Acyclic(f) && IsContext(f, ctx) && p in Live(f) && p !in f.refs.target && p != f.nullCtx
    requires !Reaches(f, p, Context(f, ctx))
    ensures p in f.tree.up && (f.nullCtx == NULL || f.nullCtx in f.tree.kids) && Acyclic(Stolen(f, ctx, p))
  {
    hide Inv, Ranked, Reaches, Stolen;
    KeysAgree(f);
    NullCtxLive(f);
    var rank := RankBetween(f, Context(f, ctx), p);
    StolenRanked(f, ctx, p, rank);
  }

  // ------------------------------------------------------------------ creating chunks and references

  /** A rank for a new child of `q`. */
  ghost function WithChild(f: Forest, rank: map<Addr, int>, q: Addr, a: Addr): map<Addr, int> {
    rank[a := Rk(rank, q) + Rk(rank, f.nullCtx) + 1]
  }

  lemma HandleFacts(f: Forest, h: Addr)
    requires Inv(f) && h in f.refs.target
    ensures h in Live(f) && h in f.tree.up && h in f.dtor && h !in f.tree.out && f.refs.target[h] in f.refs.list
    ensures f.refs.target[h] in Live(f) && f.tree.kids[h] == [] && h in f.refs.list && f.refs.list[h] == []
  {
    assert HandleOk(f, h);
  }

  lemma UpLive(f: Forest, a: Addr)
    requires Inv(f) && a in f.tree.up && a !in f.tree.out
    ensures f.tree.up[a] == NULL || f.tree.up[a] in Live(f)
  {
    assert UpOk(f.tree, a);
  }

  lemma AllocRanked(f: Forest, ctx: Addr, a: Addr, rank: map<Addr, int>)
    requires Inv(f) && Ranked(f, rank, NULL) && f.tree.out == {} && a !in Live(f) && a != NULL && IsContext(f, ctx)
    ensures Context(f, ctx) == NULL || Context(f, ctx) in Live(f)
    ensures Ranked(Allocated(f, ctx, a), WithChild(f, rank, Context(f, ctx), a), NULL)
  {
    hide Inv;
    KeysAgree(f);
    AllocatedInv(f, ctx, a);
    var q := Context(f, ctx);
    var r := WithChild(f, rank, q, a);
    assert forall x :: x in Live(f) ==> Rk(r, x) == Rk(rank, x);
    forall h | h in f.refs.target ensures f.refs.target[h] in Live(f) && h in Live(f) {
      HandleFacts(f, h);
    }
    forall x | x in f.tree.up ensures f.tree.up[x] == NULL || f.tree.up[x] in Live(f) {
      UpLive(f, x);
    }
    NullCtxLive(f);
    hide WithChild, Rk;
    assert q != NULL ==> Rk(r, q) < Rk(r, a) by { WithChildTop(f, rank, q, a); }
    assert f.nullCtx != NULL ==> Rk(r, f.nullCtx) < Rk(r, a) by { WithChildTop(f, rank, q, a); }
  }

  lemma WithChildTop(f: Forest, rank: map<Addr, int>, q: Addr, a: Addr)
    ensures q != a ==> Rk(WithChild(f, rank, q, a), q) < Rk(WithChild(f, rank, q, a), a)
    ensures f.nullCtx != a ==> Rk(WithChild(f, rank, q, a), f.nullCtx) < Rk(WithChild(f, rank, q, a), a)
  {
  }

  lemma NullCtxLive(f: Forest)
    requires Inv(f)
    ensures f.nullCtx == NULL || f.nullCtx in Live(f)
  {
  }

  lemma ReferenceAcyclic(f: Forest, ctx: Addr, p: Addr, h: Addr)
    requires Inv(f) && Acyclic(f) && f.tree.out == {} && h !in Live(f) && h != NULL && IsContext(f, ctx)
    requires p in Live(f) && p !in f.refs.target && p != f.nullCtx && !Reaches(f, p, Context(f, ctx))
    ensures (Context(f, ctx) == NULL || Context(f, ctx) in Live(f)) && p in f.refs.list && Acyclic(Referenced(f, ctx, p, h))
  {
    hide Inv, Ranked, Reaches, Allocated, Referenced, WithChild;
    KeysAgree(f);
    NullCtxLive(f);
    var q := Context(f, ctx);
    var rank := RankBetween(f, q, p);
    AllocRanked(f, ctx, h, rank);
    WithChildSame(f, rank, q, h);
    HookRanked(f, ctx, p, h, WithChild(f, rank, q, h));
  }

  lemma WithChildSame(f: Forest, rank: map<Addr, int>, q: Addr, a: Addr)
    ensures forall x :: x != a ==> Rk(WithChild(f, rank, q, a), x) == Rk(rank, x)
  {
  }

  lemma HookRanked(f: Forest, ctx: Addr, p: Addr, h: Addr, rank: map<Addr, int>)
    requires Inv(f) && h !in Live(f) && h != NULL && p in f.refs.list && (Context(f, ctx) == NULL || Context(f, ctx) in Live(f))
    requires Ranked(Allocated(f, ctx, h), rank, NULL) && (Context(f, ctx) != NULL ==> Rk(rank, Context(f, ctx)) < Rk(rank, p))
    ensures Ranked(Referenced(f, ctx, p, h), rank, NULL)
  {
    hide Inv;
  }

  // ------------------------------------------------------------------ the witness does not matter

  lemma {:induction false} FreeSame(f: Forest, p: Addr, r1: map<Addr, int>, r2: map<Addr, int>)
    requires Inv(f) && p in Live(f) && p != f.nullCtx && Ranked(f, r1, p) && Ranked(f, r2, p)
    ensures Free(f, p, r1) == Free(f, p, r2)
    decreases Mobile(f), 0, 0
  {
    hide Inv, Ranked, Drain, HandleFreed, Above, DrainRound;
    KeysAgree(f);
    if f.refs.list[p] != [] {
      FreeLosesHandle(f, p, r1);
      FreeLosesHandle(f, p, r2);
      var h := f.refs.list[p][0];
      HandleFacts(f, h);
      if Above(f.tree, p, h) {
        FreeSame(HandleFreed(f, h), p, r1, r2);
      }
    } else if p !in f.tree.out && f.dtor[p] != Refuses {
      FreeStep(f, p, r1);
      FreeStep(f, p, r2);
      assert p in f.refs.target ==> f.refs.target[p] in f.refs.list by { if p in f.refs.target { HandleFacts(f, p); } }
      DrainSame(Emptying(f, p), p, r1, r2);
    }
  }

  lemma {:induction false} DrainSame(f: Forest, p: Addr, r1: map<Addr, int>, r2: map<Addr, int>)
    requires Emptied(f, p, r1) && Emptied(f, p, r2)
    ensures Drain(f, p, r1) == Drain(f, p, r2)
    decreases Mobile(f), 1, |f.tree.kids[p]|
  {
    hide Inv, Ranked, Free, Drain, Shrinks, DrainRound;
    if f.tree.kids[p] == [] {
      DrainNothing(f, p, r1);
      DrainNothing(f, p, r2);
    } else {
      var c := f.tree.kids[p][0];
      HolderOk(f, p, c, r1);
      RankedAny(f, r1, c);
      RankedAny(f, r2, c);
      FreeSame(f, c, r1, r2);
      DrainStep(f, p, r1);
      DrainStep(f, p, r2);
      RoundSame(f, p, c, r1, r2, Free(f, c, r1));
      DrainSame(NextRound(f, p, r1), p, r1, r2);
    }
  }

  lemma RoundSame(f: Forest, p: Addr, c: Addr, r1: map<Addr, int>, r2: map<Addr, int>, r: (Forest, int))
    requires Emptied(f, p, r1) && Emptied(f, p, r2) && HeadChild(f, p, c)
    requires FreePost(f, c, r1, r.0, r.1) && FreePost(f, c, r2, r.0, r.1)
    ensures DrainRound(f, p, c, r1, r) == DrainRound(f, p, c, r2, r)
  {
    hide Inv, Ranked, Shrinks;
    HolderOk(f, p, c, r1);
    if r.1 == -1 {
      RefusedRoundOk(f, p, c, r1, r.0);
    }
  }

  // ------------------------------------------------------------------ exactly when a cycle is closed

  lemma EdgeRanks(f: Forest, rank: map<Addr, int>, a: Addr, x: Addr)
    requires Inv(f) && Ranked(f, rank, NULL) && Edge(f, a, x)
    ensures Rk(rank, a) < Rk(rank, x) && x in Live(f)
  {
    KeysAgree(f);
    forall h | h in f.refs.target ensures f.refs.target[h] in Live(f) {
      HandleFacts(f, h);
    }
    hide Inv;
  }

  lemma {:induction false} PathRanks(f: Forest, rank: map<Addr, int>, s: seq<Addr>, n: nat)
    requires Inv(f) && Ranked(f, rank, NULL) && Path(f, s) && n < |s|
    ensures Rk(rank, s[0]) <= Rk(rank, s[n]) && (n > 0 ==> Rk(rank, s[0]) < Rk(rank, s[n]))
  {
    hide Inv, Ranked, Edge;
    if n > 0 {
      PathRanks(f, rank, s, n - 1);
      PathAt(f, s, n);
      EdgeRanks(f, rank, s[n - 1], s[n]);
    }
  }

  lemma PathAt(f: Forest, s: seq<Addr>, i: nat)
    requires Path(f, s) && 0 < i < |s|
    ensures Edge(f, s[i - 1], s[i])
  {
    hide Edge;
  }

  /** A path from `p` survives when the edges into other chunks do. */
  lemma PathSurvives(f: Forest, g: Forest, p: Addr, s: seq<Addr>, rank: map<Addr, int>)
    requires Inv(f) && Ranked(f, rank, NULL) && Path(f, s) && s[0] == p
    requires forall a, x :: Edge(f, a, x) && x != p ==> Edge(g, a, x)
    ensures Path(g, s)
  {
    hide Inv, Ranked, Edge;
    forall i | 0 < i < |s| ensures Edge(g, s[i - 1], s[i]) {
      PathAt(f, s, i);
      PathRanks(f, rank, s, i);
    }
  }

  /** A new edge from `q` to `p` closes a cycle when `p` owned `q`. */
  lemma ClosesCycle(f: Forest, g: Forest, q: Addr, p: Addr)
    requires Inv(f) && Inv(g) && Acyclic(f) && Reaches(f, p, q) && Edge(g, q, p)
    requires forall a, x :: Edge(f, a, x) && x != p ==> Edge(g, a, x)
    ensures !Acyclic(g)
  {
    hide Inv, Ranked, Edge;
    var r0 :| Ranked(f, r0, NULL);
    var s :| Path(f, s) && s[0] == p && s[|s| - 1] == q;
    PathSurvives(f, g, p, s, r0);
    forall rank ensures !Ranked(g, rank, NULL) {
      if Ranked(g, rank, NULL) {
        PathRanks(g, rank, s, |s| - 1);
        EdgeRanks(g, rank, q, p);
      }
    }
  }

  /** A steal keeps ownership acyclic exactly when the moved chunk does not own its new parent, or is the new
      parent, in which case nothing moves. */
  lemma StealKeepsAcyclic(f: Forest, ctx: Addr, p: Addr)
    requires Inv(f) && Acyclic(f) && IsContext(f, ctx) && p in Live(f) && p !in f.refs.target && p != f.nullCtx
    ensures p in f.tree.up && (f.nullCtx == NULL || f.nullCtx in f.tree.kids)
    ensures Acyclic(Stolen(f, ctx, p)) <==> Context(f, ctx) == p || !Reaches(f, p, Context(f, ctx))
  {
    hide Inv, Acyclic, Reaches, Edge;
    KeysAgree(f);
    NullCtxLive(f);
    var q, g := Context(f, ctx), Stolen(f, ctx, p);
    if q != p {
      if Reaches(f, p, q) {
        StolenInv(f, ctx, p);
        NotNullReached(f, p, q);
        StolenEdges(f, ctx, p);
        ClosesCycle(f, g, q, p);
      } else {
        StealAcyclic(f, ctx, p);
      }
    }
  }

  lemma NotNullReached(f: Forest, p: Addr, q: Addr)
    requires Inv(f) && Reaches(f, p, q) && p in Live(f)
    ensures q != NULL
  {
    KeysAgree(f);
    var s :| Path(f, s) && s[0] == p && s[|s| - 1] == q;
    if |s| > 1 {
      PathLast(f, s);
      forall h | h in f.refs.target ensures f.refs.target[h] in Live(f) {
        HandleFacts(f, h);
      }
    }
    hide Inv;
  }

  lemma StolenEdges(f: Forest, ctx: Addr, p: Addr)
    requires Inv(f) && IsContext(f, ctx) && p in f.tree.up && p !in f.refs.target && p != f.nullCtx
    requires f.nullCtx == NULL || f.nullCtx in f.tree.kids
    requires Context(f, ctx) != p && Context(f, ctx) != NULL
    ensures var g := Stolen(f, ctx, p);
      Edge(g, Context(f, ctx), p) && forall a, x :: Edge(f, a, x) && x != p ==> Edge(g, a, x)
  {
    MoveInv(f.tree, Context(f, ctx), p);
    hide Inv, Move;
  }

  /** A reference keeps ownership acyclic exactly when its target does not own the context. */
  lemma ReferenceKeepsAcyclic(f: Forest, ctx: Addr, p: Addr, h: Addr)
    requires Inv(f) && Acyclic(f) && f.tree.out == {} && h !in Live(f) && h != NULL && IsContext(f, ctx)
    requires p in Live(f) && p !in f.refs.target && p != f.nullCtx
    ensures (Context(f, ctx) == NULL || Context(f, ctx) in Live(f)) && p in f.refs.list
    ensures Acyclic(Referenced(f, ctx, p, h)) <==> !Reaches(f, p, Context(f, ctx))
  {
    hide Inv, Acyclic, Reaches, Edge, Referenced;
    KeysAgree(f);
    NullCtxLive(f);
    var q, g := Context(f, ctx), Referenced(f, ctx, p, h);
    if Reaches(f, p, q) {
      ReferencedInv(f, ctx, p, h);
      NotNullReached(f, p, q);
      ReferencedEdges(f, ctx, p, h);
      ClosesCycle(f, g, q, p);
    } else {
      ReferenceAcyclic(f, ctx, p, h);
    }
  }

  lemma ReferencedEdges(f: Forest, ctx: Addr, p: Addr, h: Addr)
    requires Inv(f) && h !in Live(f) && p in f.refs.list && Context(f, ctx) in Live(f) && Context(f, ctx) != NULL
    ensures var g := Referenced(f, ctx, p, h);
      Edge(g, Context(f, ctx), p) && forall a, x :: Edge(f, a, x) && x != p ==> Edge(g, a, x)
  {
    KeysAgree(f);
    forall k | k in f.refs.target ensures k != h {
      HandleFacts(f, k);
    }
    var g := Referenced(f, ctx, p, h);
    assert g.tree.up == f.tree.up[h := Context(f, ctx)] && g.refs.target == f.refs.target[h := p];
    hide Inv, Referenced;
    forall a, x | Edge(f, a, x) && x != p ensures Edge(g, a, x) {
      if !(x in f.tree.up && f.tree.up[x] == a) {
        var k :| k in f.refs.target && f.refs.target[k] == x && k in f.tree.up && f.tree.up[k] == a;
        assert k in g.refs.target && g.tree.up[k] == a;
      }
    }
  }
}
