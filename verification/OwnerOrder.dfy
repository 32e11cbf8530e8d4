/**
 Frees in the presence of references: no owner that is still there loses a chunk, and no destructor runs
 after that of a chunk that its chunk owned.
 */
module OwnerOrder {
  import opened Seqs
  import opened ChildLists
  import opened RefLists
  import opened Forests
  import opened FreeRounds
  import opened FreeTheorem
  import opened Acyclicity

  /** Alive, not being emptied, and not the null context. */
  ghost predicate Active(f: Forest, a: Addr) {
    a in Live(f) && a !in f.tree.out && a != f.nullCtx
  }

  /** What an active chunk owned, but perhaps `z`, it still owns, and that is alive. */
  ghost predicate Passed(f: Forest, g: Forest, z: Addr) {
    forall a, x :: Edge(f, a, x) && x !in f.refs.target && x != z && Active(g, a) ==> x in Live(g) && Edge(g, a, x)
  }

  /** From `f` to `g` the destructors in `log` ran successfully: those of the released chunks that have one, each once,
      and none after that of a chunk that its chunk owned in `f`, directly or not. */
  ghost predicate Logged(f: Forest, g: Forest, log: seq<Addr>) {
    && g.calls == f.calls + log && NoDup(log)
    && (forall x :: x in log <==> x in f.dtor && f.dtor[x] == Accepts && x !in Live(g))
    && (forall i, j :: 0 <= i < j < |log| ==> !Reaches(f, log[j], log[i]))
  }

  lemma PassedOn(f: Forest, g: Forest, h: Forest, z: Addr)
    requires Passed(f, g, z) && Passed(g, h, z) && Shrinks(f, g) && Shrinks(g, h)
    ensures Passed(f, h, z)
  {
    hide Edge;
  }

  // ------------------------------------------------------------------ the single edits

  /** Freeing the handle `c`, whose context is not active any more. */
  lemma HandlePasses(f: Forest, c: Addr)
    requires Inv(f) && c in f.refs.target && c in f.tree.up && (f.tree.up[c] in f.tree.out || f.tree.up[c] == f.nullCtx)
    ensures Passed(f, HandleFreed(f, c), NULL) && HandleFreed(f, c).calls == f.calls
  {
    hide Inv, HandleFreed, Edge, Active;
    HandleEdges(f, c);
    var g := HandleFreed(f, c);
    forall a, x | Edge(f, a, x) && x !in f.refs.target && Active(g, a) ensures x in Live(g) && Edge(g, a, x) {
      EdgeLive(f, a, x);
      OtherEdge(f, c, g, a, x);
    }
  }

  lemma OtherEdge(f: Forest, c: Addr, g: Forest, a: Addr, x: Addr)
    requires c in f.tree.up && c in f.refs.target && (f.tree.up[c] in f.tree.out || f.tree.up[c] == f.nullCtx)
    requires g.tree.up == f.tree.up - {c} && g.refs.target == f.refs.target - {c} && g.tree.out == f.tree.out && g.nullCtx == f.nullCtx
    requires Edge(f, a, x) && x !in f.refs.target && Active(g, a)
    ensures Edge(g, a, x)
  {
    if !(x in f.tree.up && f.tree.up[x] == a) {
      var h :| h in f.refs.target && f.refs.target[h] == x && h in f.tree.up && f.tree.up[h] == a;
      assert h in g.refs.target && g.refs.target[h] == x && h in g.tree.up && g.tree.up[h] == a;
    }
  }

  lemma HandleEdges(f: Forest, c: Addr)
    requires Inv(f) && c in f.refs.target
    ensures c in f.dtor && c in f.tree.up && f.refs.target[c] in f.refs.list
    ensures var g := HandleFreed(f, c);
      && g.tree.up == f.tree.up - {c} && g.refs.target == f.refs.target - {c} && Live(g) == Live(f) - {c}
      && g.tree.out == f.tree.out && g.nullCtx == f.nullCtx && g.calls == f.calls && f.dtor[c] == NoDtor && Inv(g)
  {
    IsHandle(f, c);
    HandleFreedOk(f, c);
    hide TreeInv, RefsInv;
  }

  lemma EdgeLive(f: Forest, a: Addr, x: Addr)
    requires Inv(f) && Edge(f, a, x)
    ensures x in Live(f) && x != NULL
  {
    KeysAgree(f);
    forall h | h in f.refs.target ensures f.refs.target[h] in Live(f) {
      HandleFacts(f, h);
    }
    hide Inv;
  }

  /** `c` loses its newest reference `h` and its parent, and goes to `q`: to the context of `h`, if that is active. */
  lemma MovePasses(f: Forest, c: Addr, h: Addr, q: Addr)
    requires Inv(f) && c in Live(f) && c in f.tree.up && c !in f.refs.target && c != f.nullCtx
    requires c !in f.tree.out && (f.tree.up[c] in f.tree.out || f.tree.up[c] == f.nullCtx)
    requires h in f.refs.target && f.refs.target[h] == c && h in f.tree.up
    requires q == NULL || (q in Live(f) && q != h && q != c && q !in f.refs.target)
    requires Active(f, f.tree.up[h]) ==> q == f.tree.up[h]
    ensures h in f.dtor && c in f.refs.list
    ensures var f1 := HandleFreed(f, h);
      && c in f1.tree.up && (q == NULL || q in f1.tree.kids) && (f1.nullCtx == NULL || f1.nullCtx in f1.tree.kids)
      && Passed(f, Stolen(f1, q, c), NULL) && Stolen(f1, q, c).calls == f.calls
  {
    hide Inv, HandleFreed, Stolen, Edge, Active;
    HandleEdges(f, h);
    KeysAgree(f);
    var f1 := HandleFreed(f, h);
    KeysAgree(f1);
    NullCtxLive(f1);
    MoveUp(f1, q, c);
    var g := Stolen(f1, q, c);
    forall a, x | Edge(f, a, x) && x !in f.refs.target && Active(g, a) ensures x in Live(g) && Edge(g, a, x) {
      EdgeLive(f, a, x);
      MovedEdge(f, c, h, q, g, a, x);
    }
  }

  lemma MoveUp(f: Forest, q: Addr, c: Addr)
    requires Inv(f) && c in Live(f) && c in f.tree.up && c != f.nullCtx && c !in f.tree.out
    requires (q == NULL || (q in Live(f) && q != c)) && (f.nullCtx == NULL || f.nullCtx in f.tree.kids)
    ensures var g, q1 := Stolen(f, q, c), if q == NULL then f.nullCtx else q;
      && g.tree.up == f.tree.up[c := q1] && g.refs == f.refs && Live(g) == Live(f) && g.tree.out == f.tree.out && g.nullCtx == f.nullCtx && g.calls == f.calls
  {
    var q1 := if q == NULL then f.nullCtx else q;
    hide RefsInv;
    MoveInv(f.tree, q1, c);
    hide TreeInv;
  }

  lemma MovedEdge(f: Forest, c: Addr, h: Addr, q: Addr, g: Forest, a: Addr, x: Addr)
    requires c in f.tree.up && h in f.tree.up && h in f.refs.target && f.refs.target[h] == c && c != h && NULL !in Live(f) && c !in f.refs.target
    requires f.tree.up[c] in f.tree.out || f.tree.up[c] == f.nullCtx
    requires Active(f, f.tree.up[h]) ==> q == f.tree.up[h]
    requires g.tree.up == (f.tree.up - {h})[c := if q == NULL then f.nullCtx else q]
    requires g.refs.target == f.refs.target - {h} && Live(g) == Live(f) - {h} && g.tree.out == f.tree.out && g.nullCtx == f.nullCtx
    requires Edge(f, a, x) && x !in f.refs.target && Active(g, a)
    ensures Edge(g, a, x)
  {
    if !(x in f.tree.up && f.tree.up[x] == a) {
      var k :| k in f.refs.target && f.refs.target[k] == x && k in f.tree.up && f.tree.up[k] == a;
      if k != h {
        assert k in g.refs.target && g.refs.target[k] == x && k in g.tree.up && g.tree.up[k] == a;
      }
    }
  }

  /** The unreferenced chunk `c` leaves a parent that is not active any more. */
  lemma RefusedPasses(f: Forest, c: Addr, q: Addr)
    requires Inv(f) && c in Live(f) && c in f.tree.up && c != f.nullCtx && c !in f.tree.out && c !in f.refs.target && c in f.refs.list && f.refs.list[c] == []
    requires f.tree.up[c] in f.tree.out || f.tree.up[c] == f.nullCtx
    requires q == NULL || (q in Live(f) && q != c)
    ensures (f.nullCtx == NULL || f.nullCtx in f.tree.kids) && Passed(f, Stolen(f, q, c), NULL) && Stolen(f, q, c).calls == f.calls
  {
    hide Inv, Stolen, Edge, Active;
    NullCtxLive(f);
    MoveUp(f, q, c);
    Unreferenced(f, c);
    var g := Stolen(f, q, c);
    forall a, x | Edge(f, a, x) && x !in f.refs.target && Active(g, a) ensures x in Live(g) && Edge(g, a, x) {
      EdgeLive(f, a, x);
      KeptEdge(f, c, q, g, a, x);
    }
  }

  lemma KeptEdge(f: Forest, c: Addr, q: Addr, g: Forest, a: Addr, x: Addr)
    requires c in f.tree.up && (f.tree.up[c] in f.tree.out || f.tree.up[c] == f.nullCtx) && forall h :: h in f.refs.target ==> f.refs.target[h] != c
    requires g.tree.up == f.tree.up[c := if q == NULL then f.nullCtx else q] && g.refs == f.refs && g.tree.out == f.tree.out && g.nullCtx == f.nullCtx
    requires c !in f.refs.target && Edge(f, a, x) && Active(g, a)
    ensures Edge(g, a, x)
  {
    if !(x in f.tree.up && f.tree.up[x] == a) {
      var k :| k in f.refs.target && f.refs.target[k] == x && k in f.tree.up && f.tree.up[k] == a;
      assert k in g.refs.target && g.refs.target[k] == x && k in g.tree.up && g.tree.up[k] == a;
    }
  }

  lemma Unreferenced(f: Forest, c: Addr)
    requires Inv(f) && c in f.refs.list && f.refs.list[c] == []
    ensures forall h :: h in f.refs.target ==> f.refs.target[h] != c
  {
    forall h | h in f.refs.target ensures f.refs.target[h] != c {
      assert h in f.refs.list[f.refs.target[h]];
    }
    hide TreeInv;
  }

  // ------------------------------------------------------------------ paths

  lemma OwnerNoHandle(f: Forest, a: Addr, x: Addr)
    requires Inv(f) && Edge(f, a, x)
    ensures a !in f.refs.target
  {
    if a in f.refs.target {
      assert HandleOk(f, a);
      forall y | y in f.tree.up ensures f.tree.up[y] != a {
        assert UpOk(f.tree, y);
      }
    }
    hide RefsInv;
  }

  /** What is being emptied, and the null context, ranks at most `k`. */
  ghost predicate Low(f: Forest, rank: map<Addr, int>, k: int) {
    (forall a :: a in f.tree.out ==> Rk(rank, a) <= k) && (f.nullCtx != NULL ==> Rk(rank, f.nullCtx) <= k)
  }

  lemma LowActive(g: Forest, rank: map<Addr, int>, k: int, a: Addr)
    requires Low(g, rank, k) && a in Live(g) && Rk(rank, a) > k && a != NULL
    ensures Active(g, a)
  {
  }

  /** A path that starts high enough at a survivor survives. */
  lemma {:induction false} PathPasses(f: Forest, g: Forest, s: seq<Addr>, n: nat, rank: map<Addr, int>, k: int)
    requires Inv(f) && Ranked(f, rank, NULL) && Path(f, s) && n < |s| && Passed(f, g, NULL) && Low(g, rank, k)
    requires s[0] in Live(g) && Rk(rank, s[0]) > k && s[|s| - 1] !in f.refs.target
    ensures s[n] in Live(g) && (forall i :: 0 < i <= n ==> Edge(g, s[i - 1], s[i]))
    decreases n
  {
    hide Inv, Ranked, Edge, Low, Active;
    if n > 0 {
      PathPasses(f, g, s, n - 1, rank, k);
      PathAt(f, s, n);
      PathRanks(f, rank, s, n - 1);
      EdgeLive(f, s[n - 1], s[n]);
      NotNull(f, s[n - 1], s[n]);
      LowActive(g, rank, k, s[n - 1]);
      if n < |s| - 1 {
        PathAt(f, s, n + 1);
        OwnerNoHandle(f, s[n], s[n + 1]);
      }
    }
  }

  lemma NotNull(f: Forest, a: Addr, x: Addr)
    requires Edge(f, a, x)
    ensures a != NULL
  {
  }

  lemma ReachPasses(f: Forest, g: Forest, y: Addr, x: Addr, rank: map<Addr, int>, k: int)
    requires Inv(f) && Ranked(f, rank, NULL) && Passed(f, g, NULL) && Low(g, rank, k)
    requires Reaches(f, y, x) && y in Live(g) && Rk(rank, y) > k && x !in f.refs.target
    ensures x in Live(g) && Reaches(g, y, x)
  {
    hide Inv, Ranked, Edge, Low, Passed;
    var s :| Path(f, s) && s[0] == y && s[|s| - 1] == x;
    PathPasses(f, g, s, |s| - 1, rank, k);
    assert Path(g, s);
  }

  lemma ReachRanks(f: Forest, rank: map<Addr, int>, y: Addr, x: Addr)
    requires Inv(f) && Ranked(f, rank, NULL) && Reaches(f, y, x)
    ensures Rk(rank, y) <= Rk(rank, x)
  {
    hide Inv, Ranked, Edge;
    var s :| Path(f, s) && s[0] == y && s[|s| - 1] == x;
    PathRanks(f, rank, s, |s| - 1);
  }

  // ------------------------------------------------------------------ logs

  lemma LoggedChunk(f: Forest, g: Forest, log: seq<Addr>, x: Addr)
    requires Inv(f) && Logged(f, g, log) && x in log
    ensures x in Live(f) && x !in Live(g) && x !in f.refs.target && x in f.dtor && f.dtor[x] == Accepts
  {
    KeysAgree(f);
    assert x in f.refs.target ==> HandleOk(f, x);
    hide Inv, Reaches;
  }

  /** Only handles have gone. */
  lemma NoLog(f: Forest, g: Forest)
    requires Inv(f) && g.calls == f.calls && forall x :: x in Live(f) && x !in Live(g) ==> x in f.refs.target
    ensures Logged(f, g, [])
  {
    KeysAgree(f);
    assert forall h :: h in f.refs.target ==> HandleOk(f, h);
    hide Inv, Reaches;
    assert f.calls + [] == f.calls;
  }

  lemma LogsJoin(f: Forest, g: Forest, h: Forest, l1: seq<Addr>, l2: seq<Addr>, rank: map<Addr, int>, k: int)
    requires Inv(f) && Inv(g) && Inv(h) && Ranked(f, rank, NULL) && Shrinks(f, g) && Shrinks(g, h) && Passed(f, g, NULL) && Low(g, rank, k)
    requires Logged(f, g, l1) && Logged(g, h, l2) && forall y :: y in l2 ==> Rk(rank, y) > k
    ensures Logged(f, h, l1 + l2)
  {
    hide Inv, Ranked, Reaches, Low, Passed, Shrinks;
    var log := l1 + l2;
    assert f.calls + l1 + l2 == f.calls + log;
    forall y | y in l2 ensures y in Live(g) && y !in f.refs.target {
      LoggedChunk(g, h, l2, y);
      StillNoHandle(f, g, y);
    }
    JoinMembers(f, g, h, l1, l2);
    forall i, j | 0 <= i < j < |log| ensures log[i] != log[j] && !Reaches(f, log[j], log[i]) {
      if j < |l1| {
        assert log[i] == l1[i] && log[j] == l1[j];
      } else {
        assert log[j] == l2[j - |l1|] && log[j] in l2;
        if i < |l1| {
          assert log[i] == l1[i] && log[i] in l1;
          LoggedChunk(f, g, l1, log[i]);
        } else {
          assert log[i] == l2[i - |l1|] && log[i] in l2;
        }
        if Reaches(f, log[j], log[i]) {
          ReachPasses(f, g, log[j], log[i], rank, k);
        }
      }
    }
  }

  lemma StillNoHandle(f: Forest, g: Forest, y: Addr)
    requires Inv(f) && Inv(g) && Shrinks(f, g) && y in Live(g) && y !in g.refs.target
    ensures y !in f.refs.target
  {
  }

  lemma JoinMembers(f: Forest, g: Forest, h: Forest, l1: seq<Addr>, l2: seq<Addr>)
    requires Inv(f) && Inv(g) && Shrinks(f, g) && Shrinks(g, h) && Logged(f, g, l1) && Logged(g, h, l2)
    ensures forall x :: x in l1 + l2 <==> x in f.dtor && f.dtor[x] == Accepts && x !in Live(h)
  {
    KeysAgree(f);
    KeysAgree(g);
    hide Inv, Reaches;
  }

  // ------------------------------------------------------------------ the recursion

  lemma LowChild(f: Forest, rank: map<Addr, int>, k: int, c: Addr)
    requires Inv(f) && c in Live(f) && Low(f, rank, k) && k <= Rk(rank, c)
    ensures Low(Emptying(f, c), rank, Rk(rank, c)) && c in f.dtor && c in f.tree.up && (c in f.refs.target ==> f.refs.target[c] in f.refs.list)
  {
    KeysAgree(f);
    EmptyingFacts(f, c);
    hide Inv, Emptying;
  }

  /** Emptying `p`: what is logged, and that no active chunk loses what it owns. */
  lemma {:induction false} DrainLog(f: Forest, p: Addr, rank: map<Addr, int>) returns (log: seq<Addr>)
    requires Emptied(f, p, rank) && Low(f, rank, Rk(rank, p))
    ensures Logged(f, Drain(f, p, rank), log) && Passed(f, Drain(f, p, rank), NULL)
    decreases Mobile(f), 1, |f.tree.kids[p]|
  {
    hide Inv, Ranked, Shrinks, Drain, Free, NextRound, Low, Logged, Passed;
    if f.tree.kids[p] == [] {
      DrainNothing(f, p, rank);
      log := [];
      NoLog(f, f);
      PassedSelf(f);
    } else {
      DrainStep(f, p, rank);
      var g := NextRound(f, p, rank);
      var h := Drain(g, p, rank);
      var l1 := RoundLog(f, p, rank);
      LowStays(f, g, rank, Rk(rank, p));
      var l2 := DrainLog(g, p, rank);
      forall y | y in l2 ensures Rk(rank, y) > Rk(rank, p) {
        LoggedChunk(g, h, l2, y);
        DrainReleasesAbove(g, p, rank, y);
      }
      LogsJoin(f, g, h, l1, l2, rank, Rk(rank, p));
      PassedOn(f, g, h, NULL);
      log := l1 + l2;
    }
  }

  lemma PassedSelf(f: Forest)
    requires Inv(f)
    ensures Passed(f, f, NULL)
  {
    hide Inv, Edge;
    forall a, x | Edge(f, a, x) ensures x in Live(f) {
      EdgeLive(f, a, x);
    }
  }

  lemma LowStays(f: Forest, g: Forest, rank: map<Addr, int>, k: int)
    requires Low(f, rank, k) && Shrinks(f, g)
    ensures Low(g, rank, k)
  {
  }

  lemma {:induction false} RoundLog(f: Forest, p: Addr, rank: map<Addr, int>) returns (log: seq<Addr>)
    requires Emptied(f, p, rank) && f.tree.kids[p] != [] && Low(f, rank, Rk(rank, p))
    ensures Logged(f, NextRound(f, p, rank), log) && Passed(f, NextRound(f, p, rank), NULL)
    decreases Mobile(f), 1, 0
  {
    hide Inv, Ranked, Shrinks, Drain, Free, DrainRound, Low, Logged, Passed, HandleFreed, Stolen, Adopter, Holder;
    var c := f.tree.kids[p][0];
    HolderOk(f, p, c, rank);
    KeysAgree(f);
    RankedAny(f, rank, c);
    log := [];
    if c in f.refs.target {
      RoundHandle(f, p, c, rank);
      HandlePasses(f, c);
      HandleEdges(f, c);
      NoLog(f, HandleFreed(f, c));
    } else if f.refs.list[c] != [] {
      RoundReferenced(f, p, c, rank);
      ReferencedLog(f, p, c, rank);
    } else if f.dtor[c] == Refuses {
      RoundRefused(f, p, c, rank);
      RefusedLog(f, p, c, rank);
    } else {
      RoundAccepted(f, p, c, rank);
      ChildRank(f, p, c, rank);
      LowUp(f, rank, Rk(rank, p), Rk(rank, c));
      log := FreeLog(f, c, rank);
      OwnedByGone(f, c, Free(f, c, rank).0);
    }
  }

  lemma LowUp(f: Forest, rank: map<Addr, int>, k: int, m: int)
    requires Low(f, rank, k) && k <= m
    ensures Low(f, rank, m)
  {
  }

  lemma ReferencedLog(f: Forest, p: Addr, c: Addr, rank: map<Addr, int>)
    requires Emptied(f, p, rank) && HeadChild(f, p, c) && c in f.refs.list && f.refs.list[c] != [] && c !in f.refs.target
    ensures c in Live(f) && c != f.nullCtx && Ranked(f, rank, c)
    ensures Logged(f, NextRound(f, p, rank), []) && Passed(f, NextRound(f, p, rank), NULL)
  {
    hide Inv, Ranked, Shrinks, DrainRound, Free, Logged, Passed, HandleFreed, Stolen;
    HolderOk(f, p, c, rank);
    RoundReferenced(f, p, c, rank);
    var h := f.refs.list[c][0];
    HandleEdges(f, h);
    var f1 := HandleFreed(f, h);
    var q := Adopter(f1, p, Holder(f, c));
    AdopterApart(f, p, c, h, f1, rank);
    MovePasses(f, c, h, q);
    StolenLive(f1, q, c);
    NoLog(f, Stolen(f1, q, c));
  }

  /** The adopter of a referenced chunk is alive and is the context of the newest reference, if that is active. */
  lemma AdopterApart(f: Forest, p: Addr, c: Addr, h: Addr, f1: Forest, rank: map<Addr, int>)
    requires Emptied(f, p, rank) && HeadChild(f, p, c) && c in f.refs.list && f.refs.list[c] != [] && h == f.refs.list[c][0]
    requires h in f.refs.target && f.refs.target[h] == c && h in f.tree.up && c !in f.refs.target
    requires f1.tree.up == f.tree.up - {h} && Live(f1) == Live(f) - {h} && f1.nullCtx == f.nullCtx && p in f1.tree.up
    ensures var q := Adopter(f1, p, Holder(f, c));
      (q == NULL || (q in Live(f) && q != h && q != c && q !in f.refs.target)) && (Active(f, f.tree.up[h]) ==> q == f.tree.up[h])
  {
    HolderOk(f, p, c, rank);
    KeysAgree(f);
    NullCtxLive(f);
    assert UpOk(f.tree, p);
    hide RefsInv;
  }

  lemma StolenLive(f: Forest, q: Addr, c: Addr)
    requires Inv(f) && c in Live(f) && c in f.tree.up && c != f.nullCtx && c !in f.tree.out && (q == NULL || (q in Live(f) && q != c))
    requires f.nullCtx == NULL || f.nullCtx in f.tree.kids
    ensures Live(Stolen(f, q, c)) == Live(f)
  {
    MoveUp(f, q, c);
  }

  lemma RefusedLog(f: Forest, p: Addr, c: Addr, rank: map<Addr, int>)
    requires Emptied(f, p, rank) && HeadChild(f, p, c) && c in f.refs.list && f.refs.list[c] == [] && c !in f.refs.target
    requires c in f.dtor && f.dtor[c] == Refuses
    ensures Logged(f, NextRound(f, p, rank), []) && Passed(f, NextRound(f, p, rank), NULL)
  {
    hide Inv, Ranked, Shrinks, DrainRound, Free, Logged, Passed, HandleFreed, Stolen, Adopter;
    HolderOk(f, p, c, rank);
    RoundRefused(f, p, c, rank);
    RefusedRoundHolds(f, p, c, rank);
    AdopterOk(f, p, c, rank, f);
    var q := Adopter(f, p, f.nullCtx);
    assert Holder(f, c) == f.nullCtx;
    NullCtxLive(f);
    RefusedPasses(f, c, q);
    StolenLive(f, q, c);
    NoLog(f, Stolen(f, q, c));
  }

  /** An unreferenced chunk whose parent is not active has no active owner. */
  lemma OwnedByGone(f: Forest, c: Addr, g: Forest)
    requires Inv(f) && c in f.tree.up && c in f.refs.list && f.refs.list[c] == [] && Shrinks(f, g) && Passed(f, g, c)
    requires f.tree.up[c] in f.tree.out || f.tree.up[c] == f.nullCtx
    ensures Passed(f, g, NULL)
  {
    Unreferenced(f, c);
    hide Inv;
    forall a ensures !(Edge(f, a, c) && Active(g, a)) {
    }
    hide Edge, Active;
  }

  /** Freeing the unreferenced, accepting chunk `p`: what is logged, and that no active chunk loses what else it owns. */
  lemma {:induction false} FreeLog(f: Forest, p: Addr, rank: map<Addr, int>) returns (log: seq<Addr>)
    requires Inv(f) && p in Live(f) && p != f.nullCtx && Ranked(f, rank, NULL) && Ranked(f, rank, p) && Low(f, rank, Rk(rank, p))
    requires f.refs.list[p] == [] && p !in f.tree.out && p in f.dtor && f.dtor[p] != Refuses && p !in f.refs.target
    ensures Logged(f, Free(f, p, rank).0, log) && Passed(f, Free(f, p, rank).0, p)
    decreases Mobile(f), 0, 0
  {
    hide Inv, Ranked, Shrinks, Drain, Free, Low, Logged, Passed, Emptying;
    KeysAgree(f);
    FreeStep(f, p, rank);
    LowChild(f, rank, Rk(rank, p), p);
    var e := Emptying(f, p);
    var rest := DrainLog(e, p, rank);
    var d := Drain(e, p, rank);
    forall y | y in rest ensures Rk(rank, y) > Rk(rank, p) {
      LoggedChunk(e, d, rest, y);
      DrainReleasesAbove(e, p, rank, y);
    }
    ReleasedPasses(f, p, d);
    log := ReleasedLog(f, p, d, rest, rank);
  }

  lemma ReleasedPasses(f: Forest, p: Addr, d: Forest)
    requires Inv(f) && p in Live(f) && p in f.dtor && p in f.tree.up && p !in f.refs.target
    requires Passed(Emptying(f, p), d, NULL) && Shrinks(Emptying(f, p), d)
    ensures Passed(f, Released(d, p), p)
  {
    hide Inv, Emptying, Edge, Shrinks;
    EmptyingFacts(f, p);
    NothingTargets(f, p);
    var e, g := Emptying(f, p), Released(d, p);
    SameOut(e, d);
    TargetsShrink(e, d);
    forall a, x | Edge(f, a, x) && x !in f.refs.target && x != p && Active(g, a) ensures x in Live(g) && Edge(g, a, x) {
      SameEdge(f, e, a, x);
      assert Active(d, a);
      assert Edge(e, a, x) && x !in e.refs.target && x != NULL by { EdgeLive(f, a, x); }
      assert Edge(d, a, x);
      ReleasedEdge(d, p, a, x);
    }
  }

  lemma NothingTargets(f: Forest, p: Addr)
    requires Inv(f) && p !in f.refs.target
    ensures f.refs.target - {p} == f.refs.target
  {
  }

  lemma ReleasedEdge(d: Forest, p: Addr, a: Addr, x: Addr)
    requires Edge(d, a, x) && x != p && a != p && p !in d.refs.target
    ensures Edge(Released(d, p), a, x)
  {
    var g := Released(d, p);
    if !(x in d.tree.up && d.tree.up[x] == a) {
      var h :| h in d.refs.target && d.refs.target[h] == x && h in d.tree.up && d.tree.up[h] == a;
      assert h in g.refs.target && g.refs.target[h] == x && h in g.tree.up && g.tree.up[h] == a;
    }
  }

  lemma SameEdge(f: Forest, e: Forest, a: Addr, x: Addr)
    requires e.tree.up == f.tree.up && e.refs.target == f.refs.target
    ensures Edge(f, a, x) <==> Edge(e, a, x)
  {
  }

  lemma SameReaches(f: Forest, e: Forest, a: Addr, x: Addr)
    requires e.tree.up == f.tree.up && e.refs.target == f.refs.target
    ensures Reaches(f, a, x) <==> Reaches(e, a, x)
  {
    hide Edge;
    forall s ensures Path(f, s) <==> Path(e, s) {
      forall i | 0 < i < |s| ensures Edge(f, s[i - 1], s[i]) <==> Edge(e, s[i - 1], s[i]) {
        SameEdge(f, e, s[i - 1], s[i]);
      }
    }
  }

  lemma ReleasedLog(f: Forest, p: Addr, d: Forest, rest: seq<Addr>, rank: map<Addr, int>) returns (log: seq<Addr>)
    requires Inv(f) && p in Live(f) && p in f.dtor && p in f.tree.up && p !in f.refs.target && Ranked(f, rank, NULL)
    requires Logged(Emptying(f, p), d, rest) && p in Live(d) && forall y :: y in rest ==> Rk(rank, y) > Rk(rank, p)
    ensures Logged(f, Released(d, p), log)
  {
    hide Inv, Ranked, Reaches, Emptying;
    EmptyingFacts(f, p);
    EmptyingCall(f, p);
    var e, g := Emptying(f, p), Released(d, p);
    log := (if f.dtor[p] == Accepts then [p] else []) + rest;
    assert p !in rest;
    forall i, j | 0 <= i < j < |rest| ensures !Reaches(f, rest[j], rest[i]) {
      SameReaches(f, e, rest[j], rest[i]);
    }
    if f.dtor[p] == Accepts {
      forall i, j | 0 <= i < j < |log| ensures log[i] != log[j] && !Reaches(f, log[j], log[i]) {
        assert log[j] == rest[j - 1] && log[j] in rest;
        if i == 0 {
          if Reaches(f, log[j], p) {
            ReachRanks(f, rank, log[j], p);
          }
        } else {
          assert log[i] == rest[i - 1];
        }
      }
      assert f.calls + [p] + rest == f.calls + log;
    } else {
      assert log == rest;
    }
  }

  lemma EmptyingCall(f: Forest, p: Addr)
    requires Inv(f) && p in Live(f) && p in f.dtor && p in f.tree.up && p !in f.refs.target
    ensures Emptying(f, p).calls == (if f.dtor[p] == Accepts then f.calls + [p] else f.calls)
    ensures p in Emptying(f, p).dtor ==> Emptying(f, p).dtor[p] != Accepts
  {
  }

  /** One free, whatever references there are: the destructors that run successfully are those of exactly the released chunks
      that have one, each once, and none after that of a chunk that its chunk owned, as parent or by a reference. */
  lemma DestructorsOfOwnersFirst(f: Forest, p: Addr, rank: map<Addr, int>) returns (log: seq<Addr>)
    requires Inv(f) && f.tree.out == {} && p in Live(f) && p != f.nullCtx && Ranked(f, rank, NULL) && p !in f.refs.target
    requires p in f.refs.list && f.refs.list[p] == [] && p in f.dtor && f.dtor[p] != Refuses
    ensures Ranked(f, rank, p)
    ensures var g := Free(f, p, rank).0;
      && g.calls == f.calls + log && NoDup(log)
      && (forall x :: x in log <==> x in Live(f) && x !in Live(g) && x in f.dtor && f.dtor[x] == Accepts)
      && (forall i, j :: 0 <= i < j < |log| ==> !Reaches(f, log[j], log[i]))
  {
    hide Inv, Ranked, Free, Reaches, Passed, Shrinks;
    RankedAny(f, rank, p);
    KeysAgree(f);
    LowAlone(f, p, rank);
    log := FreeLog(f, p, rank);
  }

  lemma LowAlone(f: Forest, p: Addr, rank: map<Addr, int>)
    requires Inv(f) && f.tree.out == {} && p in Live(f) && p != f.nullCtx && Ranked(f, rank, NULL)
    ensures Low(f, rank, Rk(rank, p))
  {
    KeysAgree(f);
  }

  /** And a chunk that survives, other than the null context, still owns everything that it owned. */
  lemma SurvivorsKeepWhatTheyOwn(f: Forest, p: Addr, rank: map<Addr, int>, a: Addr, x: Addr)
    requires Inv(f) && f.tree.out == {} && p in Live(f) && p != f.nullCtx && Ranked(f, rank, NULL) && p !in f.refs.target
    requires p in f.refs.list && f.refs.list[p] == [] && p in f.dtor && f.dtor[p] != Refuses
    requires Edge(f, a, x) && x !in f.refs.target && x != p
    ensures Ranked(f, rank, p)
    ensures var g := Free(f, p, rank).0; a in Live(g) && a != f.nullCtx ==> x in Live(g) && Edge(g, a, x)
  {
    hide Inv, Ranked, Free, Edge, Logged, Shrinks;
    RankedAny(f, rank, p);
    KeysAgree(f);
    LowAlone(f, p, rank);
    var _ := FreeLog(f, p, rank);
    SameOut(f, Free(f, p, rank).0);
  }
}
