/**
 Which destructors one free runs successfully: those of the released chunks, each once and before
 the destructors of everything below it.
 */
module DestructorResults {
  import opened Seqs
  import opened ChildLists
  import opened RefLists
  import opened Forests
  import opened FreeTheorem
  import opened FreeResults
  import opened DestructorOrder
  import opened Acyclicity
  import opened Traversal
  import opened StealResults

  ghost function Refusers(f: Forest): set<Addr> {
    set x | x in f.dtor && f.dtor[x] == Refuses
  }

  /** The chunks whose destructor leaves no entry in the log. */
  ghost function Silent(f: Forest): set<Addr> {
    set x | x in f.dtor && f.dtor[x] != Accepts
  }

  /** The marks in `w` are refusing chunks and chunks that rank at most `k`. */
  ghost predicate MarksFit(f: Forest, rank: map<Addr, int>, w: set<Addr>, k: int) {
    Refusers(f) <= w && forall x :: x in w && x in f.tree.kids ==> x in Refusers(f) || Rk(rank, x) <= k
  }

  lemma {:induction false} PreOrderVisits(f: Forest, p: Addr, rank: map<Addr, int>, top: nat, w: set<Addr>)
    requires Graded(f, rank, top) && p in f.tree.kids && MarksFit(f, rank, w, Rk(rank, p) - 1)
    ensures PreOrder(f, p, rank, top) == Drop(Visit(f.tree, p, w), Silent(f))
    decreases top - Rk(rank, p), 1, 0
  {
    hide AllBelow;
    GradedAt(f, p, rank, top);
    if p in w {
      assert p in Refusers(f);
    } else {
      var k, s := Rk(rank, p), f.tree.kids[p];
      PreOrdersVisits(f, k, s, rank, top, w + {p});
      DropConcat([p], Visits(f.tree, s, w + {p}), Silent(f));
    }
  }

  lemma {:induction false} PreOrdersVisits(f: Forest, k: nat, s: seq<Addr>, rank: map<Addr, int>, top: nat, w: set<Addr>)
    requires Graded(f, rank, top) && AllBelow(f, rank, k, s) && k <= top && MarksFit(f, rank, w, k)
    ensures PreOrders(f, k, s, rank, top) == Drop(Visits(f.tree, s, w), Silent(f))
    decreases top - k, 0, |s|
  {
    hide Graded;
    if s != [] {
      PreOrderVisits(f, s[0], rank, top, w);
      PreOrdersVisits(f, k, s[1..], rank, top, w);
      DropConcat(Visit(f.tree, s[0], w), Visits(f.tree, s[1..], w), Silent(f));
    }
  }

  // ------------------------------------------------------------------ parents before children

  /** Nothing comes after something below it. */
  ghost predicate Ordered(t: Tree, s: seq<Addr>) {
    forall i, j :: 0 <= i < j < |s| ==> !Above(t, s[j], s[i])
  }

  lemma OrderedConcat(t: Tree, a: seq<Addr>, b: seq<Addr>)
    requires Ordered(t, a) && Ordered(t, b) && forall x, y :: x in a && y in b ==> !Above(t, y, x)
    ensures Ordered(t, a + b)
  {
    hide Above;
    var s := a + b;
    forall i, j | 0 <= i < j < |s| ensures !Above(t, s[j], s[i]) {
      if j < |a| {
        assert s[i] == a[i] && s[j] == a[j];
      } else if i < |a| {
        assert s[i] in a && s[j] == b[j - |a|] && s[j] in b;
      } else {
        assert s[i] == b[i - |a|] && s[j] == b[j - |a|];
      }
    }
  }

  lemma {:induction false} OrderedDrop(t: Tree, s: seq<Addr>, w: set<Addr>)
    requires Ordered(t, s)
    ensures Ordered(t, Drop(s, w))
  {
    hide Above;
    if s != [] {
      var d := Drop(s[1..], w);
      assert Ordered(t, s[1..]) by {
        forall i, j | 0 <= i < j < |s[1..]| ensures !Above(t, s[1..][j], s[1..][i]) {
          assert s[1..][i] == s[i + 1] && s[1..][j] == s[j + 1];
        }
      }
      OrderedDrop(t, s[1..], w);
      forall x, y | x in [s[0]] && y in d ensures !Above(t, y, x) {
        assert y in s[1..];
        var j :| 0 <= j < |s[1..]| && s[1..][j] == y;
        assert s[j + 1] == y;
      }
      OrderedConcat(t, [s[0]], d);
    }
  }

  lemma SiblingsApart(f: Forest, c: Addr, d: Addr)
    requires Orderly(f) && c in f.tree.up && d in f.tree.up && f.tree.up[c] == f.tree.up[d] && c != d
    ensures !Above(f.tree, c, d) && !Above(f.tree, d, c)
  {
    hide Inv, Above;
    NoLoop(f, c);
    NoLoop(f, d);
    AboveStep(f.tree, c, d);
    AboveStep(f.tree, d, c);
  }

  lemma {:induction false} VisitOrdered(f: Forest, p: Addr, w: set<Addr>)
    requires Orderly(f) && Hung(f.tree)
    ensures Ordered(f.tree, Visit(f.tree, p, w))
    decreases |f.tree.kids.Keys - w|, 0, 0
  {
    hide Orderly, Hung, Above;
    var t := f.tree;
    if p !in w && p in t.kids {
      assert t.kids.Keys - (w + {p}) == (t.kids.Keys - w) - {p};
      NoDupKids(t, p);
      VisitsOrdered(f, p, t.kids[p], w + {p});
      forall x, y | x in [p] && y in Visits(t, t.kids[p], w + {p}) ensures !Above(t, y, x) {
        var i := VisitsFrom(t, t.kids[p], w + {p}, y);
        BelowChildOf(f, p, t.kids[p][i], w + {p}, y);
      }
      OrderedConcat(t, [p], Visits(t, t.kids[p], w + {p}));
    }
  }

  /** What is visited from child `c` of `p` is not above `p`. */
  lemma BelowChildOf(f: Forest, p: Addr, c: Addr, w: set<Addr>, y: Addr)
    requires Orderly(f) && Hung(f.tree) && c in f.tree.up && f.tree.up[c] == p && p in f.tree.kids && y in Visit(f.tree, c, w)
    ensures !Above(f.tree, y, p) && Above(f.tree, c, y)
  {
    hide Orderly, Hung, Visit;
    VisitedAbove(f.tree, c, w, y);
    NoLoop(f, c);
    if Above(f.tree, y, p) {
      AboveTransitive(f.tree, c, y, p);
    }
  }

  lemma VisitedAbove(t: Tree, p: Addr, w: set<Addr>, x: Addr)
    requires Hung(t) && x in Visit(t, p, w)
    ensures Above(t, p, x)
  {
    hide Hung, Visit;
    var n := VisitedUnder(t, p, w, x);
    assert UpN(t, x, n) == p;
  }

  lemma {:induction false} VisitsOrdered(f: Forest, p: Addr, s: seq<Addr>, w: set<Addr>)
    requires Orderly(f) && Hung(f.tree) && NoDup(s) && forall i :: 0 <= i < |s| ==> s[i] in f.tree.up && f.tree.up[s[i]] == p
    ensures Ordered(f.tree, Visits(f.tree, s, w))
    decreases |f.tree.kids.Keys - w|, 1, |s|
  {
    hide Orderly, Hung, Above, Visit;
    var t := f.tree;
    if s != [] {
      NoDupTail(s);
      VisitOrdered(f, s[0], w);
      VisitsOrdered(f, p, s[1..], w);
      forall x, y | x in Visit(t, s[0], w) && y in Visits(t, s[1..], w) ensures !Above(t, y, x) {
        var j := VisitsFrom(t, s[1..], w, y);
        VisitedAbove(t, s[0], w, x);
        VisitedAbove(t, s[1..][j], w, y);
        SiblingsApart(f, s[0], s[1..][j]);
        if Above(t, y, x) {
          AboveTransitive(t, s[1..][j], y, x);
          Comparable(t, s[0], s[1..][j], x);
        }
      }
      OrderedConcat(t, Visit(t, s[0], w), Visits(t, s[1..], w));
    }
  }

  // ------------------------------------------------------------------ the log of one free

  lemma {:induction false} RankLimit(rank: map<Addr, int>, w: set<Addr>) returns (top: nat)
    ensures forall a :: a in w ==> Rk(rank, a) <= top
    decreases |w|
  {
    top := 0;
    if a :| a in w {
      var rest := RankLimit(rank, w - {a});
      top := if rest < Rk(rank, a) then Rk(rank, a) else rest;
    }
  }

  /** Not marked on the way down from `p`: no refusing chunk but perhaps `p` itself is passed. */
  lemma UnmarkedWay(f: Forest, p: Addr, x: Addr)
    requires Orderly(f) && Hung(f.tree) && p in Live(f) && x in Live(f) && p in f.dtor && f.dtor[p] != Refuses
    ensures x in Visit(f.tree, p, Refusers(f)) <==> Above(f.tree, p, x) && !Blocked(f, p, x)
  {
    hide Orderly, Hung, Visit, Blocked;
    var t, w := f.tree, Refusers(f);
    if x in Visit(t, p, w) {
      VisitedAbove(t, p, w, x);
      var n := VisitedUnder(t, p, w, x);
      LiveUpKeys(f);
      UnderFree(f, p, x, n);
    }
    if Above(t, p, x) && !Blocked(f, p, x) {
      var n: nat :| UpN(t, x, n) == p;
      WayLive(t, p, x, n);
      FreeUnder(f, p, x, n);
      UnderVisited(t, p, w, x, n);
    }
  }

  lemma UnderFree(f: Forest, p: Addr, x: Addr, n: nat)
    requires Orderly(f) && Under(f.tree, Refusers(f), p, x, n) && Live(f) == f.tree.up.Keys
    ensures !Blocked(f, p, x)
  {
    var t := f.tree;
    forall r | r in f.dtor && r != p && f.dtor[r] == Refuses && Above(t, p, r) ensures !Above(t, r, x) {
      forall m: nat ensures UpN(t, x, m) != r {
        if m > n {
          UpAdd(t, x, n, m - n);
          assert UpN(t, p, m - n) == UpN(t, x, m);
          if UpN(t, x, m) == r {
            RefuserLive(f, r);
            NotBoth(f, p, r);
          }
        }
      }
    }
    hide Inv;
  }

  lemma RefuserLive(f: Forest, r: Addr)
    requires Orderly(f) && r in f.dtor
    ensures r in f.tree.up
  {
    KeysAgree(f);
  }

  lemma FreeUnder(f: Forest, p: Addr, x: Addr, n: nat)
    requires Under(f.tree, {}, p, x, n) && !Blocked(f, p, x) && p in f.dtor && f.dtor[p] != Refuses
    ensures Under(f.tree, Refusers(f), p, x, n)
  {
    var t := f.tree;
    forall i | 0 <= i <= n ensures UpN(t, x, i) !in Refusers(f) {
      var r := UpN(t, x, i);
      UpAdd(t, x, i, n - i);
      assert UpN(t, r, n - i) == p;
      assert Above(t, p, r) && Above(t, r, x);
    }
  }

  /** The destructors that run successfully while `p` is freed, no chunk being referenced, are those of
      exactly the released chunks that have one. Each runs once, and none after that of a chunk below. */
  lemma FreedDestructors(f: Forest, p: Addr, rank: map<Addr, int>) returns (log: seq<Addr>)
    requires FreeCall(f, p, rank) && f.refs.target == map[]
    ensures Freed(f, p, rank).calls == f.calls + log && NoDup(log)
    ensures forall x :: x in log <==> x in Live(f) && x !in Live(Freed(f, p, rank)) && x in f.dtor && f.dtor[x] == Accepts
    ensures forall i, j :: 0 <= i < j < |log| ==> !Above(f.tree, log[j], log[i])
  {
    hide Inv, Ranked, Orderly, Hung, OwnedIn, Above, Blocked, Visit, Free, Freed;
    CallOrderly(f, p, rank);
    var w := Refusers(f);
    var s := Visit(f.tree, p, w);
    log := Drop(s, Silent(f));
    LogCalls(f, p, rank);
    VisitOnce(f.tree, p, w);
    DropNoDup(s, Silent(f));
    VisitOrdered(f, p, w);
    OrderedDrop(f.tree, s, Silent(f));
    forall x ensures x in log <==> x in Live(f) && x !in Live(Freed(f, p, rank)) && x in f.dtor && f.dtor[x] == Accepts {
      if x in s {
        VisitedLive(f.tree, p, w, x);
      }
      if x in Live(f) {
        UnmarkedWay(f, p, x);
        ReleasesToRefusers(f, p, rank, x);
      }
    }
  }

  lemma VisitedLive(t: Tree, p: Addr, w: set<Addr>, x: Addr)
    requires Hung(t) && x in Visit(t, p, w)
    ensures x in t.kids
  {
    hide Hung, Visit;
    var n := VisitedUnder(t, p, w, x);
    assert UpN(t, x, 0) == x;
  }

  lemma CallOrderly(f: Forest, p: Addr, rank: map<Addr, int>)
    requires FreeCall(f, p, rank)
    ensures Orderly(f) && Hung(f.tree) && p in Live(f) && p in f.dtor && f.dtor[p] != Refuses && Live(f) == f.dtor.Keys
  {
    KeysAgree(f);
    hide Inv, Ranked, OwnedIn;
  }

  lemma LogCalls(f: Forest, p: Addr, rank: map<Addr, int>)
    requires FreeCall(f, p, rank) && f.refs.target == map[]
    ensures Freed(f, p, rank).calls == f.calls + Drop(Visit(f.tree, p, Refusers(f)), Silent(f))
  {
    hide Inv, Ranked, OwnedIn, Visit, Free, Graded, PreOrder;
    RankedAny(f, rank, p);
    var top := RankLimit(rank, f.tree.kids.Keys);
    FreeCalls(f, p, rank, top);
    PreOrderVisits(f, p, rank, top, Refusers(f));
  }
}
