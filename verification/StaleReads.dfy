/**
 A chunk that is being emptied keeps the `prev` field it had in its sibling list, and walks to the
 top of the tree may still follow that field: when the chunk itself looks for its parent, and when a
 reference that hangs below it is checked. When each of these walks finds the old predecessor alive.
 */
module StaleReads {
  import opened Seqs
  import opened ChildLists
  import opened RefLists
  import opened Forests
  import opened FreeRounds
  import FreeTheorem
  import opened Acyclicity

  /** While the chunk `at` is being emptied, its `prev` field holds `to`. */
  datatype Back = Back(at: Addr, to: Addr)

  predicate Alive(f: Forest, y: Addr) {
    y == NULL || y in Live(f)
  }

  /** Checking the reference `h` walks through the emptied chunk above it. */
  ghost predicate WalksThrough(f: Forest, m: Back, h: Addr) {
    m.at in f.tree.out && Above(f.tree, m.at, h)
  }

  /** Every walk through `m.at` during the free of `p` finds `m.to` alive. */
  ghost predicate FreeReadsLive(f: Forest, p: Addr, rank: map<Addr, int>, m: Back)
    requires Inv(f) && p in Live(f) && p != f.nullCtx && Ranked(f, rank, p)
    decreases Mobile(f), 0, 0
  {
    if f.refs.list[p] != [] then
      FreeLosesHandle(f, p, rank);
      var h := f.refs.list[p][0];
      HandleFacts(f, h);
      && (WalksThrough(f, m, h) ==> Alive(f, m.to))
      && (Above(f.tree, p, h) ==> FreeReadsLive(HandleFreed(f, h), p, rank, m))
    else if p in f.tree.out || f.dtor[p] == Refuses then true
    else
      FreeStep(f, p, rank);
      DrainReadsLive(Emptying(f, p), p, rank, m)
  }

  /** The same while `p` is being emptied. */
  ghost predicate DrainReadsLive(f: Forest, p: Addr, rank: map<Addr, int>, m: Back)
    requires Emptied(f, p, rank)
    decreases Mobile(f), 1, |f.tree.kids[p]|
  {
    f.tree.kids[p] == [] ||
    var c := f.tree.kids[p][0];
    HolderOk(f, p, c, rank);
    RankedAny(f, rank, c);
    DrainStep(f, p, rank);
    var r := Free(f, c, rank);
    && FreeReadsLive(f, c, rank, m)
    && (r.1 == -1 && Holder(f, c) == f.nullCtx && p == m.at ==> Alive(r.0, m.to))
    && DrainReadsLive(NextRound(f, p, rank), p, rank, m)
  }

  // ------------------------------------------------------------------ the walks one by one

  /** For every walk through the emptied chunk `x` during the free of `p`, the chunks that are live then. */
  ghost function FreeWalks(f: Forest, p: Addr, rank: map<Addr, int>, x: Addr): seq<set<Addr>>
    requires Inv(f) && p in Live(f) && p != f.nullCtx && Ranked(f, rank, p)
    decreases Mobile(f), 0, 0
  {
    if f.refs.list[p] != [] then
      FreeLosesHandle(f, p, rank);
      var h := f.refs.list[p][0];
      HandleFacts(f, h);
      (if WalksThrough(f, Back(x, NULL), h) then [Live(f)] else [])
      + (if Above(f.tree, p, h) then FreeWalks(HandleFreed(f, h), p, rank, x) else [])
    else if p in f.tree.out || f.dtor[p] == Refuses then []
    else
      FreeStep(f, p, rank);
      DrainWalks(Emptying(f, p), p, rank, x)
  }

  ghost function DrainWalks(f: Forest, p: Addr, rank: map<Addr, int>, x: Addr): seq<set<Addr>>
    requires Emptied(f, p, rank)
    decreases Mobile(f), 1, |f.tree.kids[p]|
  {
    if f.tree.kids[p] == [] then []
    else
      var c := f.tree.kids[p][0];
      HolderOk(f, p, c, rank);
      RankedAny(f, rank, c);
      DrainStep(f, p, rank);
      var r := Free(f, c, rank);
      FreeWalks(f, c, rank, x)
      + (if r.1 == -1 && Holder(f, c) == f.nullCtx && p == x then [Live(r.0)] else [])
      + DrainWalks(NextRound(f, p, rank), p, rank, x)
  }

  /** `y` is there, if it is anything, in each of these sets. */
  ghost predicate AllHave(walks: seq<set<Addr>>, y: Addr) {
    forall i :: 0 <= i < |walks| ==> y == NULL || y in walks[i]
  }

  lemma AllHaveConcat(a: seq<set<Addr>>, b: seq<set<Addr>>, y: Addr)
    ensures AllHave(a + b, y) <==> AllHave(a, y) && AllHave(b, y)
  {
    if AllHave(a + b, y) {
      forall i | 0 <= i < |a| ensures y == NULL || y in a[i] {
        assert (a + b)[i] == a[i];
      }
      forall i | 0 <= i < |b| ensures y == NULL || y in b[i] {
        assert (a + b)[|a| + i] == b[i];
      }
    }
  }

  lemma {:induction false} FreeWalksLive(f: Forest, p: Addr, rank: map<Addr, int>, m: Back)
    requires Inv(f) && p in Live(f) && p != f.nullCtx && Ranked(f, rank, p)
    ensures FreeReadsLive(f, p, rank, m) <==> AllHave(FreeWalks(f, p, rank, m.at), m.to)
    decreases Mobile(f), 0, 0
  {
    hide Inv, Ranked, AllHave, Drain, Shrinks, Above, HandleFreed, Emptying;
    KeysAgree(f);
    TargetListed(f, p);
    if f.refs.list[p] != [] {
      FreeLosesHandle(f, p, rank);
      var h := f.refs.list[p][0];
      HandleFacts(f, h);
      var first := if WalksThrough(f, m, h) then [Live(f)] else [];
      OneWalk(WalksThrough(f, m, h), Live(f), m.to);
      NoWalk(m.to);
      if Above(f.tree, p, h) {
        StillFreeable(f, p, h, rank);
        FreeWalksLive(HandleFreed(f, h), p, rank, m);
        AllHaveConcat(first, FreeWalks(HandleFreed(f, h), p, rank, m.at), m.to);
      } else {
        AllHaveConcat(first, [], m.to);
      }
    } else if p in f.tree.out || f.dtor[p] == Refuses {
      NoWalk(m.to);
    } else {
      FreeStep(f, p, rank);
      DrainWalksLive(Emptying(f, p), p, rank, m);
    }
  }

  lemma NoWalk(y: Addr)
    ensures AllHave([], y)
  {
  }

  lemma OneWalk(b: bool, live: set<Addr>, y: Addr)
    ensures AllHave(if b then [live] else [], y) <==> (b ==> y == NULL || y in live)
  {
    assert b ==> [live][0] == live;
  }

  lemma {:induction false} DrainWalksLive(f: Forest, p: Addr, rank: map<Addr, int>, m: Back)
    requires Emptied(f, p, rank)
    ensures DrainReadsLive(f, p, rank, m) <==> AllHave(DrainWalks(f, p, rank, m.at), m.to)
    decreases Mobile(f), 1, |f.tree.kids[p]|
  {
    hide Inv, Ranked, AllHave, Free, Drain, Shrinks, Holder, NextRound;
    if f.tree.kids[p] == [] {
      NoWalk(m.to);
    } else {
      var c := f.tree.kids[p][0];
      HolderOk(f, p, c, rank);
      RankedAny(f, rank, c);
      DrainStep(f, p, rank);
      var r := Free(f, c, rank);
      var own := r.1 == -1 && Holder(f, c) == f.nullCtx && p == m.at;
      FreeWalksLive(f, c, rank, m);
      OneWalk(own, Live(r.0), m.to);
      DrainWalksLive(NextRound(f, p, rank), p, rank, m);
      var a, b := FreeWalks(f, c, rank, m.at), if own then [Live(r.0)] else [];
      AllHaveConcat(a, b, m.to);
      AllHaveConcat(a + b, DrainWalks(NextRound(f, p, rank), p, rank, m.at), m.to);
    }
  }

  lemma TargetListed(f: Forest, p: Addr)
    requires Inv(f)
    ensures p in f.refs.target ==> f.refs.target[p] in f.refs.list
  {
  }

  /** Later walks find fewer chunks alive. */
  ghost predicate Fewer(walks: seq<set<Addr>>, first: set<Addr>, last: set<Addr>) {
    && last <= first
    && (forall i :: 0 <= i < |walks| ==> last <= walks[i] <= first)
    && (forall i, j :: 0 <= i < j < |walks| ==> walks[j] <= walks[i])
  }

  lemma FewerConcat(a: seq<set<Addr>>, b: seq<set<Addr>>, first: set<Addr>, middle: set<Addr>, last: set<Addr>)
    requires Fewer(a, first, middle) && Fewer(b, middle, last)
    ensures Fewer(a + b, first, last)
  {
    var s := a + b;
    forall i | 0 <= i < |s| ensures last <= s[i] <= first {
      assert s[i] == if i < |a| then a[i] else b[i - |a|];
    }
    forall i, j | 0 <= i < j < |s| ensures s[j] <= s[i] {
      if j < |a| {
        assert s[i] == a[i] && s[j] == a[j];
      } else if i < |a| {
        assert s[i] == a[i] && s[j] == b[j - |a|];
      } else {
        assert s[i] == b[i - |a|] && s[j] == b[j - |a|];
      }
    }
  }

  lemma FewerOne(b: bool, first: set<Addr>, live: set<Addr>, last: set<Addr>)
    requires last <= live <= first
    ensures Fewer(if b then [live] else [], first, last)
  {
  }

  lemma {:induction false} FreeWalksFewer(f: Forest, p: Addr, rank: map<Addr, int>, x: Addr)
    requires Inv(f) && p in Live(f) && p != f.nullCtx && Ranked(f, rank, p)
    ensures Fewer(FreeWalks(f, p, rank, x), Live(f), Live(Free(f, p, rank).0))
    decreases Mobile(f), 0, 0
  {
    hide Inv, Ranked, Fewer, Drain, Shrinks, Above, HandleFreed, Emptying;
    KeysAgree(f);
    TargetListed(f, p);
    if f.refs.list[p] != [] {
      FreeLosesHandle(f, p, rank);
      var h := f.refs.list[p][0];
      HandleFacts(f, h);
      StillFreeable(f, p, h, rank);
      var g := HandleFreed(f, h);
      FewerOne(WalksThrough(f, Back(x, NULL), h), Live(f), Live(f), Live(g));
      if Above(f.tree, p, h) {
        FreeWalksFewer(g, p, rank, x);
        FewerConcat(if WalksThrough(f, Back(x, NULL), h) then [Live(f)] else [], FreeWalks(g, p, rank, x), Live(f), Live(g), Live(Free(f, p, rank).0));
      } else {
        FewerOne(false, Live(g), Live(g), Live(g));
        FewerConcat(if WalksThrough(f, Back(x, NULL), h) then [Live(f)] else [], [], Live(f), Live(g), Live(g));
      }
    } else if p in f.tree.out || f.dtor[p] == Refuses {
      FewerOne(false, Live(f), Live(f), Live(f));
    } else {
      FreeStep(f, p, rank);
      var e := Emptying(f, p);
      DrainWalksFewer(e, p, rank, x);
      EmptyingFacts(f, p);
      ReleasedFewer(DrainWalks(e, p, rank, x), Drain(e, p, rank), p, Live(f));
    }
  }

  lemma ReleasedFewer(walks: seq<set<Addr>>, g: Forest, p: Addr, first: set<Addr>)
    requires Fewer(walks, first, Live(g))
    ensures Fewer(walks, first, Live(Released(g, p)))
  {
  }

  lemma {:induction false} DrainWalksFewer(f: Forest, p: Addr, rank: map<Addr, int>, x: Addr)
    requires Emptied(f, p, rank)
    ensures Fewer(DrainWalks(f, p, rank, x), Live(f), Live(Drain(f, p, rank)))
    decreases Mobile(f), 1, |f.tree.kids[p]|
  {
    hide Inv, Ranked, Fewer, Free, Drain, Shrinks, Holder, NextRound;
    if f.tree.kids[p] == [] {
      DrainNothing(f, p, rank);
      FewerOne(false, Live(f), Live(f), Live(f));
    } else {
      var c := f.tree.kids[p][0];
      HolderOk(f, p, c, rank);
      RankedAny(f, rank, c);
      DrainStep(f, p, rank);
      var g, h := NextRound(f, p, rank), Drain(f, p, rank);
      var live := Live(Free(f, c, rank).0);
      FreeTheorem.RoundLive(f, p, rank);
      var own := Free(f, c, rank).1 == -1 && Holder(f, c) == f.nullCtx && p == x;
      FreeWalksFewer(f, c, rank, x);
      FewerOne(own, live, live, live);
      DrainWalksFewer(g, p, rank, x);
      var a, b := FreeWalks(f, c, rank, x), if own then [live] else [];
      FewerConcat(a, b, Live(f), live, live);
      FewerConcat(a + b, DrainWalks(g, p, rank, x), Live(f), live, Live(h));
    }
  }

  /** No walk meets a released chunk exactly when the predecessor is still alive at the last walk. */
  lemma LastWalkDecides(f: Forest, p: Addr, rank: map<Addr, int>, m: Back)
    requires Inv(f) && p in Live(f) && p != f.nullCtx && Ranked(f, rank, p)
    ensures var walks := FreeWalks(f, p, rank, m.at);
      FreeReadsLive(f, p, rank, m) <==> m.to == NULL || walks == [] || m.to in walks[|walks| - 1]
  {
    hide Inv, Ranked, FreeReadsLive, FreeWalks, Free;
    FreeWalksLive(f, p, rank, m);
    FreeWalksFewer(f, p, rank, m.at);
    var walks := FreeWalks(f, p, rank, m.at);
    if walks != [] && m.to in walks[|walks| - 1] {
      forall i | 0 <= i < |walks| ensures m.to in walks[i] {
        assert i < |walks| - 1 ==> walks[|walks| - 1] <= walks[i];
      }
    }
  }

  // ------------------------------------------------------------------ a free from outside

  /** The chunk in front of `p` among the children of its parent. */
  function Predecessor(t: Tree, p: Addr): Addr {
    if p in t.up && t.up[p] in t.kids then At(t.kids[t.up[p]], Index(t.kids[t.up[p]], p) - 1) else NULL
  }

  ghost predicate ReadsLive(f: Forest, p: Addr, rank: map<Addr, int>, m: Back) {
    Inv(f) && p in Live(f) && p != f.nullCtx && Ranked(f, rank, p) && FreeReadsLive(f, p, rank, m)
  }

  /** Freeing `p` from outside never walks through a chunk that this free has released. */
  ghost predicate SafeToFree(f: Forest, p: Addr) {
    exists rank :: ReadsLive(f, p, rank, Back(p, Predecessor(f.tree, p)))
  }

  // ------------------------------------------------------------------ the witness does not matter

  lemma {:induction false} WalksSame(f: Forest, p: Addr, r1: map<Addr, int>, r2: map<Addr, int>, x: Addr)
    requires Inv(f) && p in Live(f) && p != f.nullCtx && Ranked(f, r1, p) && Ranked(f, r2, p)
    ensures FreeWalks(f, p, r1, x) == FreeWalks(f, p, r2, x)
    decreases Mobile(f), 0, 0
  {
    hide Inv, Ranked, Drain, Shrinks, Above, HandleFreed, Emptying, DrainWalks;
    KeysAgree(f);
    TargetListed(f, p);
    if f.refs.list[p] != [] {
      var h := f.refs.list[p][0];
      StillFreeable(f, p, h, r1);
      StillFreeable(f, p, h, r2);
      if Above(f.tree, p, h) {
        WalksSame(HandleFreed(f, h), p, r1, r2, x);
      }
    } else if p !in f.tree.out && f.dtor[p] != Refuses {
      FreeStep(f, p, r1);
      FreeStep(f, p, r2);
      DrainWalksSame(Emptying(f, p), p, r1, r2, x);
    }
  }

  lemma {:induction false} DrainWalksSame(f: Forest, p: Addr, r1: map<Addr, int>, r2: map<Addr, int>, x: Addr)
    requires Emptied(f, p, r1) && Emptied(f, p, r2)
    ensures DrainWalks(f, p, r1, x) == DrainWalks(f, p, r2, x)
    decreases Mobile(f), 1, |f.tree.kids[p]|
  {
    hide Inv, Ranked, Drain, Shrinks, Free, FreeWalks, DrainRound, Holder;
    if f.tree.kids[p] != [] {
      var c := f.tree.kids[p][0];
      HolderOk(f, p, c, r1);
      RankedAny(f, r1, c);
      RankedAny(f, r2, c);
      DrainStep(f, p, r1);
      DrainStep(f, p, r2);
      FreeSame(f, c, r1, r2);
      WalksSame(f, c, r1, r2, x);
      RoundSame(f, p, c, r1, r2, Free(f, c, r1));
      DrainWalksSame(NextRound(f, p, r1), p, r1, r2, x);
    }
  }

  /** A free is safe exactly when the chunk in front of `p`, if there is one, is still alive at the last walk
      through `p`, if there is any. */
  lemma SafeExactly(f: Forest, p: Addr, rank: map<Addr, int>)
    requires Inv(f) && p in Live(f) && p != f.nullCtx && Ranked(f, rank, p)
    ensures var y, walks := Predecessor(f.tree, p), FreeWalks(f, p, rank, p);
      SafeToFree(f, p) <==> y == NULL || walks == [] || y in walks[|walks| - 1]
  {
    hide Inv, Ranked, FreeReadsLive, FreeWalks, Predecessor;
    var m := Back(p, Predecessor(f.tree, p));
    LastWalkDecides(f, p, rank, m);
    if SafeToFree(f, p) {
      var r :| ReadsLive(f, p, r, m);
      LastWalkDecides(f, p, r, m);
      WalksSame(f, p, rank, r, p);
    }
    if FreeReadsLive(f, p, rank, m) {
      assert ReadsLive(f, p, rank, m);
    }
  }
}
