/**
 What freeing a chunk means for a caller: exactly which chunks go, in terms of reachability over
 child and reference edges, and what is left of the tree.
 */
module FreeResults {
  import opened Seqs
  import opened ChildLists
  import opened RefLists
  import opened Forests
  import opened Ownership
  import opened FreeRounds
  import opened FreeTheorem
  import opened ChildOrder
  import opened DownSets
  import opened StaleReads

  /** A call of free from outside: nothing is being emptied, ownership is acyclic, references to
      chunks below `p` hang from contexts other than the null context, `p` is an unreferenced chunk
      that accepts, and no walk goes through a chunk that this free has released. */
  ghost predicate FreeCall(f: Forest, p: Addr, rank: map<Addr, int>) {
    && Inv(f) && f.tree.out == {} && Ranked(f, rank, NULL) && OwnedIn(f, Subtree(f, p))
    && Settled(f, p) && p != f.nullCtx && f.refs.list[p] == [] && f.dtor[p] != Refuses
    && SafeToFree(f, p)
  }

  ghost function Freed(f: Forest, p: Addr, rank: map<Addr, int>): Forest
    requires FreeCall(f, p, rank)
  {
    RankedAny(f, rank, p);
    Free(f, p, rank).0
  }

  /** All the theorem says about one call. */
  lemma FreedSweeps(f: Forest, p: Addr, rank: map<Addr, int>)
    requires FreeCall(f, p, rank)
    ensures var g := Freed(f, p, rank);
      && Inv(g) && Shrinks(f, g) && g.tree.out == {} && p !in Live(g) && p in Live(f)
      && Swept(f, g, Dead(f, g, p), Fallback(f, p), p)
  {
    RankedAny(f, rank, p);
    assert f.refs.list[p] == [] && p !in f.tree.out && f.dtor[p] != Refuses;
    hide Inv, Ranked, Shrinks, Swept, OwnedIn, Drain, Down;
    SubtreeDown(f, p);
    FreeSweeps(f, p, rank, Subtree(f, p));
    FreeStep(f, p, rank);
    SameOut(f, Free(f, p, rank).0);
  }

  /** `a` is an owner of `x`. */
  ghost predicate Owns(f: Forest, a: Addr, x: Addr)
    requires Settled(f, x)
  {
    a in Owners(f, x)
  }

  /** A chunk other than `p` is released exactly when its destructor accepts and all its owners are released. */
  lemma ReleasedExactly(f: Forest, p: Addr, rank: map<Addr, int>, x: Addr)
    requires FreeCall(f, p, rank) && Settled(f, x) && x != p
    ensures x !in Live(Freed(f, p, rank)) <==>
            f.dtor[x] != Refuses && forall a :: Owns(f, a, x) ==> a in Live(f) && a !in Live(Freed(f, p, rank))
  {
    hide Ranked, Shrinks, Free, Owners, FreeCall;
    FreedSweeps(f, p, rank);
    var g := Freed(f, p, rank);
    var w := Dead(f, g, p);
    assert w == Live(f) - Live(g);
    DropEmpty(Owners(f, x), w);
    if x in Live(g) {
      StaysSettled(f, g, x);
      assert Kept(f, g, w, Fallback(f, p), x);
    } else {
      assert Lost(f, w, x);
    }
  }

  lemma DropEmpty(s: seq<Addr>, w: set<Addr>)
    ensures Drop(s, w) == [] <==> forall a :: a in s ==> a in w
  {
    if Drop(s, w) != [] {
      var a := Drop(s, w)[0];
      assert a in Drop(s, w) && a in s && a !in w;
    } else {
      forall a | a in s ensures a in w {
        assert a !in Drop(s, w);
      }
    }
  }

  lemma StaysSettled(f: Forest, g: Forest, x: Addr)
    requires Inv(g) && Shrinks(f, g) && Settled(f, x) && x in Live(g)
    ensures Settled(g, x)
  {
    KeysAgree(g);
    hide Inv;
  }

  /** A survivor keeps its surviving owners, in the old order; one that lost them all refused, and the old
      parent of `p` (or the null context) took it. */
  lemma SurvivorOwners(f: Forest, p: Addr, rank: map<Addr, int>, x: Addr)
    requires FreeCall(f, p, rank) && Settled(f, x) && x in Live(Freed(f, p, rank))
    ensures Settled(Freed(f, p, rank), x)
    ensures var g := Freed(f, p, rank);
      var left := Drop(Owners(f, x), Live(f) - Live(g));
      if left != [] then Owners(g, x) == left else f.dtor[x] == Refuses && Owners(g, x) == [Fallback(f, p)]
  {
    hide Ranked, Shrinks, Free, Owners, FreeCall;
    FreedSweeps(f, p, rank);
    var g := Freed(f, p, rank);
    assert Dead(f, g, p) == Live(f) - Live(g);
    StaysSettled(f, g, x);
    assert Kept(f, g, Dead(f, g, p), Fallback(f, p), x);
  }

  // ------------------------------------------------------------------ in terms of reachability

  /** A walk along child and reference edges that never enters `p`. */
  ghost predicate Walk(f: Forest, s: seq<Addr>, p: Addr) {
    && s != [] && (forall i :: 0 <= i < |s| ==> Settled(f, s[i]))
    && (forall i :: 0 < i < |s| ==> s[i] != p && Owns(f, s[i - 1], s[i]))
  }

  /** `x` can be reached from a chunk that does not lie below `p`. */
  ghost predicate ReachedFromOutside(f: Forest, p: Addr, x: Addr) {
    exists s :: Walk(f, s, p) && !Above(f.tree, p, s[0]) && s[|s| - 1] == x
  }

  ghost predicate NoneRefuses(f: Forest) {
    forall x :: x in f.dtor ==> f.dtor[x] != Refuses
  }

  lemma SettledLive(f: Forest, x: Addr)
    requires Inv(f) && f.tree.out == {}
    ensures Settled(f, x) <==> x in Live(f) && x !in f.refs.target
  {
    KeysAgree(f);
    hide Inv;
  }

  /** An owner is NULL or another chunk that ranks lower. */
  lemma OwnerRank(f: Forest, a: Addr, x: Addr, rank: map<Addr, int>)
    requires Inv(f) && f.tree.out == {} && Ranked(f, rank, NULL) && Settled(f, x) && Owns(f, a, x)
    ensures a != NULL ==> Settled(f, a) && Rk(rank, a) < Rk(rank, x)
  {
    KeysAgree(f);
    var hs := f.refs.list[x];
    assert UpOk(f.tree, x) && ListOk(f.refs, x);
    var i :| 0 <= i < |Owners(f, x)| && Owners(f, x)[i] == a;
    if a != NULL {
      if i == 0 {
        assert a in f.tree.kids && x in f.tree.kids[a];
        assert a in f.refs.target ==> HandleOk(f, a);
      } else {
        var h := hs[i - 1];
        assert h in hs && HandleOk(f, h) && UpOk(f.tree, h);
        assert Owners(f, x)[i] == Up(f.tree.up, h);
        assert a in f.refs.target ==> HandleOk(f, a);
      }
    }
  }

  /** Handles hang from live contexts and chunks below `p` have a parent: no owner of theirs is NULL. */
  lemma OwnersBelow(f: Forest, p: Addr, x: Addr)
    requires Inv(f) && f.tree.out == {} && OwnedIn(f, Subtree(f, p)) && Settled(f, x) && p != NULL && x != p && Above(f.tree, p, x)
    ensures !Owns(f, NULL, x) && Owns(f, f.tree.up[x], x) && Above(f.tree, p, f.tree.up[x])
  {
    KeysAgree(f);
    AboveStep(f.tree, p, x);
    AboveEnds(f.tree, p);
    assert Owners(f, x)[0] == f.tree.up[x];
    var hs := f.refs.list[x];
    assert ListOk(f.refs, x);
    forall i | 0 <= i < |hs| ensures Up(f.tree.up, hs[i]) != NULL {
      assert hs[i] in hs;
    }
    hide Inv, Above;
  }

  /** Only chunks below `p` are released. */
  lemma {:induction false} ReleasedBelow(f: Forest, p: Addr, rank: map<Addr, int>, x: Addr)
    requires FreeCall(f, p, rank) && Settled(f, x) && x !in Live(Freed(f, p, rank))
    ensures Above(f.tree, p, x)
    decreases Rk(rank, x)
  {
    KeysAgree(f);
    AboveEnds(f.tree, p);
    hide Inv, Ranked, Above, Freed;
    if x != p {
      ReleasedExactly(f, p, rank, x);
      var q := f.tree.up[x];
      assert Owners(f, x)[0] == q;
      assert Owns(f, q, x);
      OwnerRank(f, q, x, rank);
      ReleasedBelow(f, p, rank, q);
      AboveStep(f.tree, p, x);
    }
  }

  lemma WalkPrefix(f: Forest, s: seq<Addr>, p: Addr)
    requires Walk(f, s, p) && |s| > 1
    ensures var r := s[..|s| - 1]; Walk(f, r, p) && r[0] == s[0] && r[|r| - 1] == s[|s| - 2]
    ensures Owns(f, s[|s| - 2], s[|s| - 1]) && s[|s| - 1] != p
  {
    var r := s[..|s| - 1];
    hide Owns, Settled;
    forall i | 0 < i < |r| ensures r[i] != p && Owns(f, r[i - 1], r[i]) {
      assert r[i] == s[i] && r[i - 1] == s[i - 1];
    }
    assert |s| - 2 == (|s| - 1) - 1;
  }

  lemma WalkExtend(f: Forest, r: seq<Addr>, x: Addr, p: Addr)
    requires Walk(f, r, p) && Settled(f, x) && x != p && Owns(f, r[|r| - 1], x)
    ensures var s := r + [x]; Walk(f, s, p) && s[0] == r[0] && s[|s| - 1] == x
  {
    var s := r + [x];
    hide Owns, Settled;
    forall i | 0 < i < |s| ensures s[i] != p && Owns(f, s[i - 1], s[i]) {
      if i < |r| {
        assert s[i] == r[i] && s[i - 1] == r[i - 1];
      }
    }
  }

  /** A released chunk cannot be reached from outside: everything on the way would be released too. */
  lemma {:induction false} ReleasedUnreached(f: Forest, p: Addr, rank: map<Addr, int>, s: seq<Addr>)
    requires FreeCall(f, p, rank) && Walk(f, s, p) && s[|s| - 1] !in Live(Freed(f, p, rank))
    ensures Above(f.tree, p, s[0])
    decreases |s|
  {
    hide FreeCall, Ranked, Above, Freed, Owns, Settled;
    if |s| == 1 {
      ReleasedBelow(f, p, rank, s[0]);
    } else {
      WalkPrefix(f, s, p);
      ReleasedExactly(f, p, rank, s[|s| - 1]);
      ReleasedUnreached(f, p, rank, s[..|s| - 1]);
    }
  }

  /** Some owner of a chunk below `p` that survives survives too. */
  lemma SurvivingOwner(f: Forest, p: Addr, rank: map<Addr, int>, x: Addr) returns (a: Addr)
    requires FreeCall(f, p, rank) && NoneRefuses(f) && Settled(f, x) && x in Live(Freed(f, p, rank)) && Above(f.tree, p, x)
    ensures x != p && Owns(f, a, x) && Settled(f, a) && a in Live(Freed(f, p, rank)) && Rk(rank, a) < Rk(rank, x)
  {
    FreedSweeps(f, p, rank);
    KeysAgree(f);
    hide Inv, Ranked, Freed, Swept, Shrinks, Owns, Above;
    ReleasedExactly(f, p, rank, x);
    OwnersBelow(f, p, x);
    a :| Owns(f, a, x) && !(a in Live(f) && a !in Live(Freed(f, p, rank)));
    OwnerRank(f, a, x, rank);
  }

  /** A surviving chunk is reached from outside when no destructor refuses. */
  lemma {:induction false} SurvivorReached(f: Forest, p: Addr, rank: map<Addr, int>, x: Addr) returns (s: seq<Addr>)
    requires FreeCall(f, p, rank) && NoneRefuses(f) && Settled(f, x) && x in Live(Freed(f, p, rank))
    ensures Walk(f, s, p) && !Above(f.tree, p, s[0]) && s[|s| - 1] == x
    decreases Rk(rank, x)
  {
    hide FreeCall, Ranked, Freed, Owns, Above, Settled;
    s := [x];
    if Above(f.tree, p, x) {
      var a := SurvivingOwner(f, p, rank, x);
      var r := SurvivorReached(f, p, rank, a);
      WalkExtend(f, r, x, p);
      s := r + [x];
    }
  }

  /** Freeing an unreferenced chunk, no destructor refusing, releases exactly the chunks below it that
      cannot be reached, by child or reference edges, from any chunk outside. */
  lemma ReleasesUnreachable(f: Forest, p: Addr, rank: map<Addr, int>, x: Addr)
    requires FreeCall(f, p, rank) && NoneRefuses(f) && Settled(f, x)
    ensures x !in Live(Freed(f, p, rank)) <==> Above(f.tree, p, x) && !ReachedFromOutside(f, p, x)
  {
    hide FreeCall, Above, Freed;
    if x in Live(Freed(f, p, rank)) {
      var s := SurvivorReached(f, p, rank, x);
    } else {
      ReleasedBelow(f, p, rank, x);
      forall s | Walk(f, s, p) && s[|s| - 1] == x ensures Above(f.tree, p, s[0]) {
        ReleasedUnreached(f, p, rank, s);
      }
    }
  }

  // ------------------------------------------------------------------ without references

  /** On the way from `p` down to `x` some chunk other than `p` refuses. */
  ghost predicate Blocked(f: Forest, p: Addr, x: Addr) {
    exists r :: r in f.dtor && r != p && f.dtor[r] == Refuses && Above(f.tree, p, r) && Above(f.tree, r, x)
  }

  lemma StrictlyAbove(f: Forest, p: Addr, a: Addr, rank: map<Addr, int>)
    requires Inv(f) && Ranked(f, rank, NULL) && p != NULL && a in f.tree.up && a != p && Above(f.tree, p, a)
    ensures Rk(rank, p) < Rk(rank, a)
  {
    KeysAgree(f);
    AboveStep(f.tree, p, a);
    AboveEnds(f.tree, p);
    RanksAbove(f, p, f.tree.up[a], rank);
    hide Inv, Above;
  }

  lemma RanksAbove(f: Forest, p: Addr, a: Addr, rank: map<Addr, int>)
    requires NULL !in f.tree.up && Ranked(f, rank, NULL) && p != NULL && Above(f.tree, p, a)
    ensures Rk(rank, p) <= Rk(rank, a)
  {
    var n: nat :| UpN(f.tree, a, n) == p;
    if n > 0 {
      if a in f.tree.up {
        RankFalls(f, a, n - 1, rank);
      } else {
        NothingAboveDead(f.tree, a, n);
      }
    } else {
      assert UpN(f.tree, a, 0) == a;
    }
  }

  lemma {:induction false} NothingAboveDead(t: Tree, a: Addr, n: nat)
    requires NULL !in t.up && a !in t.up && n > 0
    ensures UpN(t, a, n) == NULL
  {
    if n > 1 {
      NothingAboveDead(t, a, n - 1);
    } else {
      assert UpN(t, a, 0) == a;
    }
  }

  lemma BlockedStep(f: Forest, p: Addr, x: Addr)
    requires Inv(f) && x in f.tree.up && x in f.dtor && f.dtor[x] != Refuses
    ensures Blocked(f, p, x) <==> Blocked(f, p, f.tree.up[x])
  {
    hide Inv, Above;
    forall r | r in f.dtor && f.dtor[r] == Refuses
      ensures Above(f.tree, r, x) <==> Above(f.tree, r, f.tree.up[x])
    {
      AboveStep(f.tree, r, x);
    }
  }

  lemma NotBlockedSelf(f: Forest, p: Addr, rank: map<Addr, int>)
    requires Inv(f) && Ranked(f, rank, NULL) && p in Live(f)
    ensures !Blocked(f, p, p)
  {
    KeysAgree(f);
    forall r | r in f.dtor && r != p && Above(f.tree, p, r)
      ensures !Above(f.tree, r, p)
    {
      StrictlyAbove(f, p, r, rank);
      if Above(f.tree, r, p) {
        StrictlyAbove(f, r, p, rank);
      }
    }
  }

  /** Without references a free releases exactly the chunks below `p` with no refusal on the way to them:
      the survivors below `p` are the subtrees of the topmost refusing chunks. */
  lemma {:induction false} ReleasesToRefusers(f: Forest, p: Addr, rank: map<Addr, int>, x: Addr)
    requires FreeCall(f, p, rank) && f.refs.target == map[] && x in Live(f)
    ensures x !in Live(Freed(f, p, rank)) <==> Above(f.tree, p, x) && !Blocked(f, p, x)
    decreases Rk(rank, x)
  {
    hide FreeCall, Inv, Ranked, Above, Freed, Shrinks, Swept, Blocked, Owns, OwnedIn, Settled;
    CallFacts(f, p, rank, x);
    AboveEnds(f.tree, p);
    FreedSweeps(f, p, rank);
    if x == p {
      NotBlockedSelf(f, p, rank);
    } else {
      var q := f.tree.up[x];
      OnlyParentOwns(f, x);
      ReleasedExactly(f, p, rank, x);
      AboveStep(f.tree, p, x);
      if f.dtor[x] == Refuses {
        if Above(f.tree, p, x) {
          RefuserBlocks(f, p, x);
        }
      } else if q != NULL {
        OwnerRank(f, q, x, rank);
        SettledLive(f, q);
        ReleasesToRefusers(f, p, rank, q);
        BlockedStep(f, p, x);
      }
    }
  }

  lemma CallFacts(f: Forest, p: Addr, rank: map<Addr, int>, x: Addr)
    requires FreeCall(f, p, rank) && x in Live(f)
    ensures Inv(f) && f.tree.out == {} && Ranked(f, rank, NULL) && NULL !in f.tree.up && NULL !in Live(f) && p != NULL && p in Live(f)
    ensures x in f.tree.up && x in f.dtor && x in f.refs.list && (f.refs.target == map[] ==> Settled(f, x))
  {
    KeysAgree(f);
    SettledLive(f, x);
    hide Inv, Ranked, OwnedIn;
  }

  lemma RefuserBlocks(f: Forest, p: Addr, x: Addr)
    requires Inv(f) && x in f.dtor && f.dtor[x] == Refuses && x != p && Above(f.tree, p, x)
    ensures Blocked(f, p, x)
  {
    KeysAgree(f);
    AboveEnds(f.tree, x);
  }

  lemma OnlyParentOwns(f: Forest, x: Addr)
    requires Inv(f) && f.refs.target == map[] && Settled(f, x)
    ensures Owners(f, x) == [f.tree.up[x]] && forall a :: Owns(f, a, x) <==> a == f.tree.up[x]
  {
    assert ListOk(f.refs, x);
    HeadIn(f.refs.list[x]);
  }

  /** The parent of a survivor: unchanged while that parent lives, else the old parent of `p`. */
  lemma SurvivorParent(f: Forest, p: Addr, rank: map<Addr, int>, x: Addr)
    requires FreeCall(f, p, rank) && f.refs.target == map[] && x in Live(Freed(f, p, rank))
    ensures var g := Freed(f, p, rank);
      && x in f.tree.up && x in g.tree.up && x in f.dtor
      && g.tree.up[x] == (if f.tree.up[x] in Live(f) - Live(g) then Fallback(f, p) else f.tree.up[x])
      && (f.tree.up[x] in Live(f) - Live(g) ==> f.dtor[x] == Refuses)
  {
    hide FreeCall, Inv, Ranked, Freed, Swept, OwnedIn;
    FreedSweeps(f, p, rank);
    var g := Freed(f, p, rank);
    LiveShrinks(f, g);
    CallFacts(f, p, rank, x);
    SurvivorOwners(f, p, rank, x);
    OnlyParentOwns(f, x);
    assert Owners(g, x)[0] == g.tree.up[x];
  }

  /** A survivor other than the adopter keeps its list of children as it was. */
  lemma SurvivorChildren(f: Forest, p: Addr, rank: map<Addr, int>, x: Addr)
    requires FreeCall(f, p, rank) && f.refs.target == map[] && x in Live(Freed(f, p, rank)) && x != Fallback(f, p)
    ensures x in f.tree.kids && Freed(f, p, rank).tree.kids[x] == f.tree.kids[x]
  {
    hide FreeCall, Inv, Ranked, Freed, Swept, OwnedIn, Fallback;
    FreedSweeps(f, p, rank);
    var g := Freed(f, p, rank);
    LiveShrinks(f, g);
    CallFacts(f, p, rank, x);
    FreedGrows(f, p, rank, x);
    var pre :| GrownBy(f, g, x, pre);
    forall c | c in f.tree.kids[x] ensures c in Live(g) {
      ChildSurvives(f, p, rank, x, c);
    }
    forall i | 0 <= i < |f.tree.kids[x]| ensures f.tree.kids[x][i] !in Live(f) - Live(g) {
      assert f.tree.kids[x][i] in f.tree.kids[x];
    }
    DropNone(f.tree.kids[x], Live(f) - Live(g));
    forall c | c in pre ensures false {
      AdoptedByFallback(f, p, rank, x, pre, c);
    }
    HeadIn(pre);
  }

  lemma FreedGrows(f: Forest, p: Addr, rank: map<Addr, int>, x: Addr)
    requires FreeCall(f, p, rank) && x in Live(Freed(f, p, rank))
    ensures Grown(f, Freed(f, p, rank), x)
  {
    RankedAny(f, rank, p);
    hide Ranked, OwnedIn, Free;
    FreeGrows(f, p, rank, x);
  }

  /** The children of a survivor that is not the parent of `p` survive. */
  lemma ChildSurvives(f: Forest, p: Addr, rank: map<Addr, int>, x: Addr, c: Addr)
    requires FreeCall(f, p, rank) && f.refs.target == map[] && x in Live(Freed(f, p, rank)) && x != Fallback(f, p)
    requires x in f.tree.kids && c in f.tree.kids[x]
    ensures c in Live(Freed(f, p, rank))
  {
    CallFacts(f, p, rank, p);
    assert KidsOk(f.tree, x);
    KeysAgree(f);
    hide FreeCall, Inv, Ranked, Freed, Swept, OwnedIn, Owns;
    CallFacts(f, p, rank, c);
    OnlyParentOwns(f, c);
    assert Owns(f, x, c);
    if c != p {
      ReleasedExactly(f, p, rank, c);
    }
  }

  lemma AdoptedByFallback(f: Forest, p: Addr, rank: map<Addr, int>, x: Addr, pre: seq<Addr>, c: Addr)
    requires FreeCall(f, p, rank) && f.refs.target == map[] && x in Live(Freed(f, p, rank))
    requires x in f.tree.kids && x in Freed(f, p, rank).tree.kids && GrownBy(f, Freed(f, p, rank), x, pre) && c in pre
    ensures x == Fallback(f, p)
  {
    hide FreeCall, Ranked, Freed, Swept, OwnedIn, Fallback, Shrinks;
    FreedSweeps(f, p, rank);
    var g := Freed(f, p, rank);
    assert c in g.tree.kids[x] && KidsOk(g.tree, x);
    KeysAgree(g);
    SurvivorParent(f, p, rank, c);
  }

  /** The children of the old parent of `p`: the adopted chunks, which are the topmost refusing ones,
      in front of its other children. */
  lemma AdopterChildren(f: Forest, p: Addr, rank: map<Addr, int>) returns (pre: seq<Addr>)
    requires FreeCall(f, p, rank) && f.refs.target == map[] && f.tree.up[p] != NULL
    ensures var g, q := Freed(f, p, rank), f.tree.up[p];
      && q in g.tree.kids && q in f.tree.kids && g.tree.kids[q] == pre + Drop(f.tree.kids[q], {p})
      && forall c :: c in pre <==> c in Live(g) && c in f.tree.up && f.tree.up[c] in Live(f) - Live(g)
  {
    hide FreeCall, Inv, Ranked, Freed, Swept, OwnedIn;
    FreedSweeps(f, p, rank);
    CallFacts(f, p, rank, p);
    var g, q := Freed(f, p, rank), f.tree.up[p];
    ParentOutlives(f, p, rank);
    FreedGrows(f, p, rank, q);
    pre :| GrownBy(f, g, q, pre);
    OnlyPGone(f, p, rank, q);
    DropSame(f.tree.kids[q], Live(f) - Live(g), {p});
    forall c ensures c in pre <==> c in Live(g) && c in f.tree.up && f.tree.up[c] in Live(f) - Live(g) {
      AdoptedExactly(f, p, rank, q, pre, c);
    }
  }

  lemma {:induction false} DropSame(s: seq<Addr>, v: set<Addr>, w: set<Addr>)
    requires forall i :: 0 <= i < |s| ==> (s[i] in v <==> s[i] in w)
    ensures Drop(s, v) == Drop(s, w)
  {
    if s != [] {
      DropSame(s[1..], v, w);
    }
  }

  lemma ParentOutlives(f: Forest, p: Addr, rank: map<Addr, int>)
    requires FreeCall(f, p, rank) && f.refs.target == map[] && f.tree.up[p] != NULL
    ensures f.tree.up[p] in Live(Freed(f, p, rank)) && f.tree.up[p] in f.tree.kids
    ensures p in f.tree.kids[f.tree.up[p]] && Fallback(f, p) == f.tree.up[p]
  {
    CallFacts(f, p, rank, p);
    assert UpOk(f.tree, p);
    KeysAgree(f);
    var q := f.tree.up[p];
    hide FreeCall, Inv, Freed, Above, OwnedIn;
    ReleasesToRefusers(f, p, rank, q);
    if Above(f.tree, p, q) {
      RanksAbove(f, p, q, rank);
    }
  }

  lemma OnlyPGone(f: Forest, p: Addr, rank: map<Addr, int>, q: Addr)
    requires FreeCall(f, p, rank) && f.refs.target == map[] && q == f.tree.up[p] && q in f.tree.kids && q in Live(Freed(f, p, rank))
    ensures forall i :: 0 <= i < |f.tree.kids[q]| ==>
      (f.tree.kids[q][i] in Live(f) - Live(Freed(f, p, rank)) <==> f.tree.kids[q][i] in {p})
  {
    CallFacts(f, p, rank, p);
    assert KidsOk(f.tree, q);
    KeysAgree(f);
    FreedSweeps(f, p, rank);
    hide FreeCall, Inv, Freed, Owns, OwnedIn, Swept, Shrinks, Ranked;
    forall i | 0 <= i < |f.tree.kids[q]|
      ensures f.tree.kids[q][i] in Live(f) - Live(Freed(f, p, rank)) <==> f.tree.kids[q][i] in {p}
    {
      var c := f.tree.kids[q][i];
      assert c in f.tree.kids[q];
      if c != p {
        CallFacts(f, p, rank, c);
        OnlyParentOwns(f, c);
        assert Owns(f, q, c);
        ReleasedExactly(f, p, rank, c);
      }
    }
  }

  lemma AdoptedExactly(f: Forest, p: Addr, rank: map<Addr, int>, q: Addr, pre: seq<Addr>, c: Addr)
    requires FreeCall(f, p, rank) && f.refs.target == map[] && f.tree.up[p] != NULL && q == f.tree.up[p]
    requires q in f.tree.kids && q in Freed(f, p, rank).tree.kids && GrownBy(f, Freed(f, p, rank), q, pre)
    ensures var g := Freed(f, p, rank);
      c in pre <==> c in Live(g) && c in f.tree.up && f.tree.up[c] in Live(f) - Live(g)
  {
    hide FreeCall, Ranked, Freed, Swept, OwnedIn, Shrinks;
    FreedSweeps(f, p, rank);
    CallFacts(f, p, rank, p);
    var g := Freed(f, p, rank);
    KeysAgree(f);
    KeysAgree(g);
    assert KidsOk(g.tree, q) && KidsOk(f.tree, q) && q != NULL;
    if c in Live(g) {
      SurvivorParent(f, p, rank, c);
      assert UpOk(g.tree, c);
    }
  }
}
