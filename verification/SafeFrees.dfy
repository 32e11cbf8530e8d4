/**
 Conditions that a caller can check under which a free walks through live chunks only, and states
 in which it does not.
 */
module SafeFrees {
  import opened Seqs
  import opened ChildLists
  import opened RefLists
  import opened Forests
  import opened Ownership
  import opened FreeRounds
  import FreeTheorem
  import opened Acyclicity
  import opened StaleReads
  import opened DownSets
  import opened Unlinking
  import TallocCalls

  // ------------------------------------------------------------------ the predecessor stays

  lemma {:induction false} FreeSheltered(f: Forest, p: Addr, rank: map<Addr, int>, b: set<Addr>, m: Back)
    requires Inv(f) && p in Live(f) && p != f.nullCtx && Ranked(f, rank, p) && Down(f, b) && p in b
    requires m.to == NULL || Shielded(f, b, m.to)
    ensures FreeReadsLive(f, p, rank, m)
    decreases Mobile(f), 0, 0
  {
    hide Inv, Ranked, Down, Inside, Shielded, Drain, Shrinks, Above, HandleFreed, Emptying, DrainReadsLive;
    KeysAgree(f);
    TargetListed(f, p);
    ShieldedAlive(f, b, m.to);
    if f.refs.list[p] != [] {
      FreeLosesHandle(f, p, rank);
      var h := f.refs.list[p][0];
      HandleFreedInside(f, h, b);
      StillFreeable(f, p, h, rank);
      var g := HandleFreed(f, h);
      InsideDown(f, g, b);
      StillShielded(f, g, b, m.to);
      if Above(f.tree, p, h) {
        FreeSheltered(g, p, rank, b, m);
      }
    } else if p !in f.tree.out && f.dtor[p] != Refuses {
      FreeStep(f, p, rank);
      var e := Emptying(f, p);
      if p in f.refs.target {
        HandleFacts(f, p);
        HandleEmpty(f, p);
        NoChildrenSafe(e, p, rank, m);
      } else {
        EmptyingInside(f, p, b);
        InsideDown(f, e, b);
        StillShielded(f, e, b, m.to);
        DrainSheltered(e, p, rank, b, m);
      }
    }
  }

  lemma NoChildrenSafe(f: Forest, p: Addr, rank: map<Addr, int>, m: Back)
    requires Emptied(f, p, rank) && f.tree.kids[p] == []
    ensures DrainReadsLive(f, p, rank, m)
  {
  }

  lemma ShieldedAlive(f: Forest, b: set<Addr>, y: Addr)
    requires y == NULL || Shielded(f, b, y)
    ensures Alive(f, y)
  {
  }

  lemma StillShielded(f: Forest, g: Forest, b: set<Addr>, y: Addr)
    requires Inside(f, g, b) && (y == NULL || Shielded(f, b, y))
    ensures y == NULL || Shielded(g, b, y)
  {
  }

  lemma {:induction false} DrainSheltered(f: Forest, p: Addr, rank: map<Addr, int>, b: set<Addr>, m: Back)
    requires Emptied(f, p, rank) && Down(f, b) && p in b && (m.to == NULL || Shielded(f, b, m.to))
    ensures DrainReadsLive(f, p, rank, m)
    decreases Mobile(f), 1, |f.tree.kids[p]|
  {
    hide Inv, Ranked, Down, Inside, Shielded, Drain, Shrinks, Free, NextRound, FreeReadsLive, Holder;
    if f.tree.kids[p] != [] {
      var c := f.tree.kids[p][0];
      HolderOk(f, p, c, rank);
      RankedAny(f, rank, c);
      DrainStep(f, p, rank);
      HeadInside(f, p, rank, b);
      FreeSheltered(f, c, rank, b, m);
      RoundInside(f, p, rank, b);
      var g := NextRound(f, p, rank);
      InsideDown(f, g, b);
      StillShielded(f, g, b, m.to);
      DrainSheltered(g, p, rank, b, m);
      FreeTheorem.RoundLive(f, p, rank);
      ShieldedAlive(g, b, m.to);
      assert Alive(Free(f, c, rank).0, m.to);
    }
  }

  // ------------------------------------------------------------------ no walk at all

  /** Nothing in `b` but perhaps `m.at` refuses, and every reference from elsewhere to a chunk in `b` comes from
      outside `b`, from a context other than the null context. */
  ghost predicate Calm(f: Forest, b: set<Addr>, x: Addr) {
    && (forall c :: c in b && c != x && c in f.dtor ==> f.dtor[c] != Refuses)
    && (forall h :: h in f.refs.target && f.refs.target[h] in b && f.refs.target[h] != x ==>
          h !in b && Up(f.tree.up, h) != NULL && Up(f.tree.up, h) != f.nullCtx)
  }

  lemma StillCalm(f: Forest, g: Forest, b: set<Addr>, x: Addr)
    requires Calm(f, b, x) && Inside(f, g, b) && Shrinks(f, g)
    ensures Calm(g, b, x)
  {
  }

  /** A child that is freed while `m.at` is being emptied causes no walk and does not survive by refusing. */
  lemma {:induction false} CalmChild(f: Forest, c: Addr, rank: map<Addr, int>, b: set<Addr>, m: Back)
    requires Inv(f) && c in Live(f) && c != f.nullCtx && Ranked(f, rank, NULL) && Ranked(f, rank, c) && c !in f.tree.out
    requires Down(f, b) && c in b && m.at in b && m.at in f.tree.out && Calm(f, b, m.at)
    ensures FreeReadsLive(f, c, rank, m)
    ensures c in f.refs.list && (Free(f, c, rank).1 == -1 ==> f.refs.list[c] != [])
    decreases Mobile(f), 0, 0
  {
    hide Inv, Ranked, Down, Inside, Drain, Shrinks, Above, HandleFreed, Emptying, DrainReadsLive;
    KeysAgree(f);
    TargetListed(f, c);
    if f.refs.list[c] != [] {
      FreeReferenced(f, c, rank);
      var h := f.refs.list[c][0];
      NoReferenceFromBelow(f, c, h, rank);
      OutsideHandle(f, b, m, h);
    } else {
      FreeStep(f, c, rank);
      var e := Emptying(f, c);
      if c in f.refs.target {
        HandleFacts(f, c);
        HandleEmpty(f, c);
        NoChildrenSafe(e, c, rank, m);
      } else {
        EmptyingInside(f, c, b);
        InsideDown(f, e, b);
        EmptyingCalm(f, c, b, m.at);
        EmptyingFacts(f, c);
        CalmDrain(e, c, rank, b, m);
      }
    }
  }

  lemma OutsideHandle(f: Forest, b: set<Addr>, m: Back, h: Addr)
    requires Down(f, b) && m.at in b && h !in b
    ensures !WalksThrough(f, m, h)
  {
    if Above(f.tree, m.at, h) {
      var n: nat :| UpN(f.tree, h, n) == m.at;
      DownBelow(f, b, m.at, h, n);
    }
  }

  lemma EmptyingCalm(f: Forest, p: Addr, b: set<Addr>, x: Addr)
    requires Inv(f) && p in Live(f) && p !in f.refs.target && Calm(f, b, x) && (p in f.dtor ==> f.dtor[p] != Refuses)
    ensures p in f.dtor && p in f.tree.up && Calm(Emptying(f, p), b, x)
  {
    EmptyingFacts(f, p);
    KeysAgree(f);
    hide Inv;
  }

  lemma {:induction false} CalmDrain(f: Forest, p: Addr, rank: map<Addr, int>, b: set<Addr>, m: Back)
    requires Emptied(f, p, rank) && Down(f, b) && p in b && m.at in b && m.at in f.tree.out && Calm(f, b, m.at)
    ensures DrainReadsLive(f, p, rank, m)
    decreases Mobile(f), 1, |f.tree.kids[p]|
  {
    hide Inv, Ranked, Down, Inside, Drain, Free, NextRound, FreeReadsLive, Calm, Shrinks;
    if f.tree.kids[p] != [] {
      var c := f.tree.kids[p][0];
      HolderOk(f, p, c, rank);
      RankedAny(f, rank, c);
      DrainStep(f, p, rank);
      HeadInside(f, p, rank, b);
      CalmChild(f, c, rank, b, m);
      RoundInside(f, p, rank, b);
      var g := NextRound(f, p, rank);
      InsideDown(f, g, b);
      StillCalm(f, g, b, m.at);
      SameOut(f, g);
      CalmHolder(f, c, b, m.at);
      CalmDrain(g, p, rank, b, m);
    }
  }

  lemma CalmHolder(f: Forest, c: Addr, b: set<Addr>, x: Addr)
    requires Inv(f) && c in b && c != x && c in f.refs.list && Calm(f, b, x) && (f.refs.list[c] != [] ==> f.refs.list[c][0] in f.tree.up)
    ensures f.refs.list[c] != [] ==> Holder(f, c) != f.nullCtx
  {
    assert ListOk(f.refs, c);
    HeadIn(f.refs.list[c]);
    hide Inv;
  }

  // ------------------------------------------------------------------ what a caller can check

  /** The chunk in front of `p` is no reference to a chunk further down in `p`. */
  ghost predicate Sheltered(f: Forest, p: Addr) {
    var y := Predecessor(f.tree, p);
    y in f.refs.target ==> f.refs.target[y] == p || !Above(f.tree, p, f.refs.target[y])
  }

  /** The predecessor hangs from the same parent as `p`. */
  lemma PredecessorHangs(f: Forest, p: Addr)
    requires Inv(f) && f.tree.out == {} && p in Live(f)
    ensures var y := Predecessor(f.tree, p);
      y != NULL ==> y in Live(f) && p in f.tree.up && y in f.tree.up && f.tree.up[y] == f.tree.up[p] && y != p
  {
    KeysAgree(f);
    assert UpOk(f.tree, p);
    var q := f.tree.up[p];
    if q != NULL {
      assert KidsOk(f.tree, q) && p in f.tree.kids[q];
      var i :| 0 <= i < |f.tree.kids[q]| && f.tree.kids[q][i] == p;
      IndexAt(f.tree.kids[q], i);
      if i > 0 {
        assert f.tree.kids[q][i - 1] in f.tree.kids[q];
      }
    }
    hide RefsInv;
  }

  /** A reference to `p` that does not hang below `p` keeps `p` from being emptied. */
  lemma {:induction false} NeverEmptied(f: Forest, p: Addr, rank: map<Addr, int>, m: Back, y: Addr)
    requires Inv(f) && p in Live(f) && p != f.nullCtx && Ranked(f, rank, p) && p == m.at && p !in f.tree.out && p in f.refs.list
    requires y in f.refs.list[p] && !Above(f.tree, p, y)
    ensures FreeReadsLive(f, p, rank, m)
    decreases Mobile(f)
  {
    hide Inv, Ranked, Above, HandleFreed, Emptying, DrainReadsLive, Shrinks;
    FreeLosesHandle(f, p, rank);
    var h := f.refs.list[p][0];
    if Above(f.tree, p, h) {
      StillFreeable(f, p, h, rank);
      StillReferenced(f, p, h, y);
      NeverEmptied(HandleFreed(f, h), p, rank, m, y);
    }
  }

  lemma StillReferenced(f: Forest, p: Addr, h: Addr, y: Addr)
    requires Inv(f) && p in Live(f) && p in f.refs.list && h in f.refs.list[p] && y in f.refs.list[p] && y != h && !Above(f.tree, p, y)
    ensures h in f.refs.target && f.refs.target[h] in f.refs.list && h in f.dtor && h in f.tree.up
    ensures var g := HandleFreed(f, h); p in g.refs.list && y in g.refs.list[p] && !Above(g.tree, p, y) && g.tree.out == f.tree.out
  {
    assert ListOk(f.refs, p);
    HandleFacts(f, h);
    KeysAgree(f);
    HandleFreedEdges(f, h);
    hide Inv, Above;
    if Above(HandleFreed(f, h).tree, p, y) {
      AboveLess(f.tree, HandleFreed(f, h).tree, {h}, p, y);
    }
  }

  lemma ShelteredIsSafe(f: Forest, p: Addr, rank: map<Addr, int>)
    requires Inv(f) && f.tree.out == {} && p in Live(f) && p != f.nullCtx && p !in f.refs.target && Ranked(f, rank, p) && Sheltered(f, p)
    ensures SafeToFree(f, p)
  {
    hide Inv, Ranked, Above, Down, FreeReadsLive, Predecessor;
    var m := Back(p, Predecessor(f.tree, p));
    var y := m.to;
    KeysAgree(f);
    SubtreeDown(f, p);
    PredecessorHangs(f, p);
    TallocCalls.OutsideSubtree(f, p, rank);
    if y != NULL && y in f.refs.target && f.refs.target[y] == p {
      HandleListed(f, y);
      NeverEmptied(f, p, rank, m, y);
    } else {
      FreeSheltered(f, p, rank, Subtree(f, p), m);
    }
    assert ReadsLive(f, p, rank, m);
  }

  lemma HandleListed(f: Forest, h: Addr)
    requires Inv(f) && h in f.refs.target
    ensures f.refs.target[h] in f.refs.list && h in f.refs.list[f.refs.target[h]]
  {
  }

  lemma {:induction false} CalmFree(f: Forest, p: Addr, rank: map<Addr, int>, b: set<Addr>, m: Back)
    requires Inv(f) && p in Live(f) && p != f.nullCtx && Ranked(f, rank, p) && p == m.at && p !in f.tree.out && p !in f.refs.target
    requires Down(f, b) && p in b && Calm(f, b, p)
    ensures FreeReadsLive(f, p, rank, m)
    decreases Mobile(f)
  {
    hide Inv, Ranked, Above, HandleFreed, Emptying, DrainReadsLive, Down, Inside, Calm, Drain;
    KeysAgree(f);
    if f.refs.list[p] != [] {
      FreeLosesHandle(f, p, rank);
      var h := f.refs.list[p][0];
      if Above(f.tree, p, h) {
        StillFreeable(f, p, h, rank);
        HandleFreedInside(f, h, b);
        var g := HandleFreed(f, h);
        InsideDown(f, g, b);
        NoTargetMore(f, g, p, b);
        StillCalm(f, g, b, p);
        CalmFree(g, p, rank, b, m);
      }
    } else if f.dtor[p] != Refuses {
      FreeStep(f, p, rank);
      EmptyingInside(f, p, b);
      InsideDown(f, Emptying(f, p), b);
      EmptyingCalm(f, p, b, p);
      EmptyingFacts(f, p);
      CalmDrain(Emptying(f, p), p, rank, b, m);
    }
  }

  /** Nothing further down in `p` refuses, and all references to chunks there come from outside, from contexts
      other than the null context: freeing `p` never looks back from `p`. */
  ghost predicate Quiescent(f: Forest, p: Addr) {
    Calm(f, Subtree(f, p), p)
  }

  lemma QuiescentIsSafe(f: Forest, p: Addr, rank: map<Addr, int>)
    requires Inv(f) && f.tree.out == {} && p in Live(f) && p != f.nullCtx && p !in f.refs.target && Ranked(f, rank, p) && Quiescent(f, p)
    ensures SafeToFree(f, p)
  {
    hide Inv, Ranked, Above, Down, FreeReadsLive, Predecessor, Calm;
    SubtreeDown(f, p);
    var m := Back(p, Predecessor(f.tree, p));
    CalmFree(f, p, rank, Subtree(f, p), m);
    assert ReadsLive(f, p, rank, m);
  }

  // ------------------------------------------------------------------ the last of several attempts

  /** An attempt to free the referenced chunk `p` only takes its newest reference. */
  lemma AttemptIs(f: Forest, p: Addr)
    requires Inv(f) && Acyclic(f) && Settled(f, p) && p != f.nullCtx && f.refs.list[p] != []
    ensures var h := f.refs.list[p][0];
      && h in f.refs.target && f.refs.target[h] == p && h in f.dtor && h in f.tree.up
      && Freeable(f, p) && FreeOf(f, p).0 == HandleFreed(f, h)
  {
    hide Inv, Ranked, HandleFreed, FreeOf, Free;
    var rank :| Ranked(f, rank, NULL);
    RankedAny(f, rank, p);
    FreeOfIs(f, p, rank);
    FreeReferenced(f, p, rank);
    FreeLosesHandle(f, p, rank);
    IsHandle(f, f.refs.list[p][0]);
  }

  /** Without its newest reference the chunk is as calm as before. */
  lemma OneLessQuiescent(f: Forest, p: Addr, h: Addr)
    requires Inv(f) && h in f.refs.target && p in Live(f) && f.refs.target[h] == p && Quiescent(f, p)
    ensures h in f.dtor && h in f.tree.up && f.refs.target[h] in f.refs.list && Quiescent(HandleFreed(f, h), p)
  {
    hide Inv, HandleFreed, Above, OnlyHandlesGone, Shrinks, Inside, Down, Calm, Subtree;
    IsHandle(f, h);
    HandleFreedOk(f, h);
    SubtreeDown(f, p);
    HandleFreedInside(f, h, Subtree(f, p));
    StillCalm(f, HandleFreed(f, h), Subtree(f, p), p);
    SubtreeLess(f, h, p);
    CalmLess(HandleFreed(f, h), Subtree(f, p), Subtree(HandleFreed(f, h), p), p);
  }

  lemma SubtreeLess(f: Forest, h: Addr, p: Addr)
    requires Inv(f) && h in f.refs.target && p in Live(f)
    ensures h in f.dtor && h in f.tree.up && f.refs.target[h] in f.refs.list && Subtree(HandleFreed(f, h), p) <= Subtree(f, p)
  {
    hide Inv, HandleFreed, Above, OnlyHandlesGone, Shrinks;
    HandleFreedEdges(f, h);
    HandleFreedOk(f, h);
    KeysAgree(f);
    var g := HandleFreed(f, h);
    forall x | x in Subtree(g, p) ensures x in Subtree(f, p) {
      AboveLess(f.tree, g.tree, {h}, p, x);
    }
  }

  lemma CalmLess(f: Forest, b: set<Addr>, less: set<Addr>, x: Addr)
    requires Calm(f, b, x) && less <= b
    ensures Calm(f, less, x)
  {
  }

  lemma {:induction false} StaysQuiescent(f: Forest, p: Addr, n: nat)
    requires Inv(f) && Acyclic(f) && Settled(f, p) && p != f.nullCtx && n <= |f.refs.list[p]| && Quiescent(f, p)
    ensures Quiescent(FreedTimes(f, p, n), p)
    decreases n
  {
    hide Inv, Acyclic, FreeOf, Freeable, HandleFreed, Quiescent;
    if n > 0 {
      AttemptIs(f, p);
      ReferencedAttempt(f, p);
      OneLessQuiescent(f, p, f.refs.list[p][0]);
      AttemptSettled(f, FreeOf(f, p).0, p);
      StaysQuiescent(FreeOf(f, p).0, p, n - 1);
    }
  }

  /** Nothing further down refuses, and the references to chunks there come from outside: then every attempt to free `p` is
      safe, also the one that releases it. */
  lemma AttemptsAreSafe(f: Forest, p: Addr, n: nat)
    requires Inv(f) && f.tree.out == {} && Acyclic(f) && Settled(f, p) && p != f.nullCtx && n <= |f.refs.list[p]| && Quiescent(f, p)
    ensures SafeToFree(FreedTimes(f, p, n), p)
  {
    hide Inv, Ranked, Quiescent, FreedTimes, SafeToFree;
    FreedTimesHandles(f, p, n);
    StaysQuiescent(f, p, n);
    var g := FreedTimes(f, p, n);
    var rank :| Ranked(g, rank, NULL);
    RankedAny(g, rank, p);
    TimesOut(f, p, n);
    QuiescentIsSafe(g, p, rank);
  }

  lemma {:induction false} TimesOut(f: Forest, p: Addr, n: nat)
    requires Inv(f) && Acyclic(f) && Settled(f, p) && p != f.nullCtx && n <= |f.refs.list[p]|
    ensures FreedTimes(f, p, n).tree.out == f.tree.out
    decreases n
  {
    hide Inv, Acyclic, FreeOf, Freeable, Shrinks, OnlyHandlesGone;
    if n > 0 {
      ReferencedAttempt(f, p);
      AttemptSettled(f, FreeOf(f, p).0, p);
      SameOut(f, FreeOf(f, p).0);
      TimesOut(FreeOf(f, p).0, p, n - 1);
    }
  }
}
