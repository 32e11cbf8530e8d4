/**
 When the references to the chunks below `p` all come from elsewhere: freeing `p` walks through a released chunk
 exactly when the handle in front of `p` goes while one child of `p` is dealt with and this or a later child ends in
 a refusal.
 */
module FrontHandles {
  import opened Seqs
  import opened ChildLists
  import opened RefLists
  import opened Forests
  import opened Ownership
  import opened FreeRounds
  import opened FreeTheorem
  import opened StaleReads
  import opened DownSets
  import opened SafeFrees
  import opened OuterReferences
  import TallocCalls
  import opened ChildReach
  import opened ChildFreed
  import opened ChildRounds

  // ------------------------------------------------------------------ the whole loop

  /** One of the children `s` ends in a refusal. */
  ghost predicate SomeRefusal(f: Forest, s: seq<Addr>) {
    exists j :: 0 <= j < |s| && EndsInRefusal(f, s[j])
  }

  /** The handle `y` goes with one of the children `s`, and this or a later one ends in a refusal. */
  ghost predicate RefusalAfter(f: Forest, s: seq<Addr>, y: Addr) {
    exists i, j :: 0 <= i <= j < |s| && LosesHandle(f, s[i], y) && EndsInRefusal(f, s[j])
  }

  lemma RefusalCons(f: Forest, c: Addr, rest: seq<Addr>)
    ensures SomeRefusal(f, [c] + rest) <==> EndsInRefusal(f, c) || SomeRefusal(f, rest)
  {
    hide EndsInRefusal;
    var s := [c] + rest;
    assert s[0] == c && forall j :: 0 <= j < |rest| ==> s[j + 1] == rest[j];
    if SomeRefusal(f, rest) {
      var j :| 0 <= j < |rest| && EndsInRefusal(f, rest[j]);
      assert EndsInRefusal(f, s[j + 1]);
    }
    if EndsInRefusal(f, c) {
      assert EndsInRefusal(f, s[0]);
    }
  }

  lemma RefusalBehind(f: Forest, g: Forest, pre: seq<Addr>, rest: seq<Addr>)
    requires forall d :: d in pre ==> EndsInRefusal(g, d)
    requires forall d :: d in rest ==> (EndsInRefusal(f, d) <==> EndsInRefusal(g, d))
    ensures SomeRefusal(g, pre + rest) <==> pre != [] || SomeRefusal(f, rest)
  {
    hide EndsInRefusal;
    var s := pre + rest;
    assert forall j :: 0 <= j < |rest| ==> s[|pre| + j] == rest[j];
    if SomeRefusal(f, rest) {
      var j :| 0 <= j < |rest| && EndsInRefusal(f, rest[j]);
      assert rest[j] in rest && EndsInRefusal(g, s[|pre| + j]);
    }
    if pre != [] {
      assert pre[0] in pre && s[0] == pre[0];
      assert EndsInRefusal(g, s[0]);
    }
    if SomeRefusal(g, s) && pre == [] {
      var j :| 0 <= j < |s| && EndsInRefusal(g, s[j]);
      assert s[j] == rest[j] && rest[j] in rest;
    }
  }

  lemma AfterCons(f: Forest, c: Addr, rest: seq<Addr>, y: Addr)
    ensures RefusalAfter(f, [c] + rest, y) <==> (LosesHandle(f, c, y) && SomeRefusal(f, [c] + rest)) || RefusalAfter(f, rest, y)
  {
    hide EndsInRefusal, LosesHandle, RefusalAfter, SomeRefusal;
    if RefusalAfter(f, [c] + rest, y) {
      AfterSplit(f, c, rest, y);
    }
    if LosesHandle(f, c, y) && SomeRefusal(f, [c] + rest) {
      AfterFirst(f, c, rest, y);
    }
    if RefusalAfter(f, rest, y) {
      AfterLonger(f, c, rest, y);
    }
  }

  lemma AfterSplit(f: Forest, c: Addr, rest: seq<Addr>, y: Addr)
    requires RefusalAfter(f, [c] + rest, y)
    ensures (LosesHandle(f, c, y) && SomeRefusal(f, [c] + rest)) || RefusalAfter(f, rest, y)
  {
    hide EndsInRefusal, LosesHandle;
    var s := [c] + rest;
    var i, j :| 0 <= i <= j < |s| && LosesHandle(f, s[i], y) && EndsInRefusal(f, s[j]);
    if i > 0 {
      assert s[i] == rest[i - 1] && s[j] == rest[j - 1];
      assert LosesHandle(f, rest[i - 1], y) && EndsInRefusal(f, rest[j - 1]);
    }
  }

  lemma AfterFirst(f: Forest, c: Addr, rest: seq<Addr>, y: Addr)
    requires LosesHandle(f, c, y) && SomeRefusal(f, [c] + rest)
    ensures RefusalAfter(f, [c] + rest, y)
  {
    hide EndsInRefusal, LosesHandle;
    var s := [c] + rest;
    var j :| 0 <= j < |s| && EndsInRefusal(f, s[j]);
    assert LosesHandle(f, s[0], y);
  }

  lemma AfterLonger(f: Forest, c: Addr, rest: seq<Addr>, y: Addr)
    requires RefusalAfter(f, rest, y)
    ensures RefusalAfter(f, [c] + rest, y)
  {
    hide EndsInRefusal, LosesHandle;
    var s := [c] + rest;
    var i, j :| 0 <= i <= j < |rest| && LosesHandle(f, rest[i], y) && EndsInRefusal(f, rest[j]);
    assert s[i + 1] == rest[i] && s[j + 1] == rest[j];
    assert LosesHandle(f, s[i + 1], y) && EndsInRefusal(f, s[j + 1]);
  }

  lemma AfterBehind(f: Forest, g: Forest, pre: seq<Addr>, rest: seq<Addr>, y: Addr)
    requires forall d :: d in pre ==> !LosesHandle(g, d, y)
    requires forall d :: d in rest ==> (EndsInRefusal(f, d) <==> EndsInRefusal(g, d)) && (LosesHandle(f, d, y) <==> LosesHandle(g, d, y))
    ensures RefusalAfter(g, pre + rest, y) <==> RefusalAfter(f, rest, y)
  {
    hide EndsInRefusal, LosesHandle, RefusalAfter;
    if RefusalAfter(g, pre + rest, y) {
      NotInFront(f, g, pre, rest, y);
    }
    if RefusalAfter(f, rest, y) {
      StillAfter(f, g, pre, rest, y);
    }
  }

  lemma BehindAt(pre: seq<Addr>, rest: seq<Addr>, i: nat)
    requires i < |pre + rest|
    ensures i < |pre| ==> (pre + rest)[i] in pre
    ensures i >= |pre| ==> (pre + rest)[i] == rest[i - |pre|] && rest[i - |pre|] in rest
  {
    var x := (pre + rest)[i];
    assert x == if i < |pre| then pre[i] else rest[i - |pre|];
  }

  lemma NotInFront(f: Forest, g: Forest, pre: seq<Addr>, rest: seq<Addr>, y: Addr)
    requires forall d :: d in pre ==> !LosesHandle(g, d, y)
    requires forall d :: d in rest ==> (EndsInRefusal(f, d) <==> EndsInRefusal(g, d)) && (LosesHandle(f, d, y) <==> LosesHandle(g, d, y))
    requires RefusalAfter(g, pre + rest, y)
    ensures RefusalAfter(f, rest, y)
  {
    hide EndsInRefusal, LosesHandle;
    var s, k := pre + rest, |pre|;
    var i, j :| 0 <= i <= j < |s| && LosesHandle(g, s[i], y) && EndsInRefusal(g, s[j]);
    BehindAt(pre, rest, i);
    BehindAt(pre, rest, j);
    assert LosesHandle(f, rest[i - k], y) && EndsInRefusal(f, rest[j - k]);
  }

  lemma StillAfter(f: Forest, g: Forest, pre: seq<Addr>, rest: seq<Addr>, y: Addr)
    requires forall d :: d in rest ==> (EndsInRefusal(f, d) <==> EndsInRefusal(g, d)) && (LosesHandle(f, d, y) <==> LosesHandle(g, d, y))
    requires RefusalAfter(f, rest, y)
    ensures RefusalAfter(g, pre + rest, y)
  {
    hide EndsInRefusal, LosesHandle;
    var s, k := pre + rest, |pre|;
    var i, j :| 0 <= i <= j < |rest| && LosesHandle(f, rest[i], y) && EndsInRefusal(f, rest[j]);
    BehindAt(pre, rest, k + i);
    BehindAt(pre, rest, k + j);
    assert LosesHandle(g, s[k + i], y) && EndsInRefusal(g, s[k + j]);
  }

  /** A walk through `p` meets a dead `y`. */
  ghost predicate WalksToDead(f: Forest, s: seq<Addr>, y: Addr) {
    if Alive(f, y) then RefusalAfter(f, s, y) else SomeRefusal(f, s)
  }

  /** The first round and the others. */
  lemma WalksStep(f: Forest, g: Forest, p: Addr, b: set<Addr>, y: Addr, pre: seq<Addr>)
    requires p in f.tree.kids && f.tree.kids[p] != [] && Stepped(f, g, p, b, f.tree.kids[p][0], y, pre)
    requires var c := f.tree.kids[p][0]; Refusing(f, c) ==> EndsInRefusal(f, c) && !LosesHandle(f, c, y)
    requires forall d :: d in f.tree.kids[p][1..] ==> (EndsInRefusal(f, d) <==> EndsInRefusal(g, d)) && (LosesHandle(f, d, y) <==> LosesHandle(g, d, y))
    ensures WalksToDead(f, f.tree.kids[p], y) <==>
            (Refusing(f, f.tree.kids[p][0]) && !Alive(f, y)) || WalksToDead(g, g.tree.kids[p], y)
  {
    hide EndsInRefusal, LosesHandle, Refusing, Apart, HandlesStay, Alive, SomeRefusal, RefusalAfter;
    var c, rest := f.tree.kids[p][0], f.tree.kids[p][1..];
    assert f.tree.kids[p] == [c] + rest;
    RefusalCons(f, c, rest);
    RefusalBehind(f, g, pre, rest);
    AfterCons(f, c, rest, y);
    AfterBehind(f, g, pre, rest, y);
    LaterRefusal(f, rest, y);
  }

  lemma LaterRefusal(f: Forest, s: seq<Addr>, y: Addr)
    ensures RefusalAfter(f, s, y) ==> SomeRefusal(f, s)
  {
    hide EndsInRefusal, LosesHandle;
  }

  /** The walk that ends a round: there is one exactly when the first child refuses, and then nothing has gone. */
  lemma RoundWalk(f: Forest, p: Addr, rank: map<Addr, int>, b: set<Addr>, y: Addr)
    requires Looping(f, p, rank, b) && f.tree.kids[p] != []
    ensures Emptied(f, p, rank)
    ensures var c := f.tree.kids[p][0];
      c in Live(f) && c != f.nullCtx && Ranked(f, rank, c) && c in f.refs.list && (f.refs.list[c] != [] ==> f.refs.list[c][0] in f.tree.up)
    ensures var c := f.tree.kids[p][0]; var r := Free(f, c, rank);
      (r.1 == -1 && Holder(f, c) == f.nullCtx <==> Refusing(f, c)) && (Refusing(f, c) ==> r.0 == f)
  {
    hide Inv, Ranked, Looping, Outer, Drain, HandleFreed;
    Loop(f, p, rank, b);
    LoopRanked(f, p, rank, b);
    HeadOfLoop(f, p, rank, b);
    var c := f.tree.kids[p][0];
    HolderOk(f, p, c, rank);
    RankedAny(f, rank, c);
    if c in f.refs.target {
      FreeOfHandle(f, c, rank);
      IsHandle(f, c);
    } else if f.refs.list[c] != [] {
      NewestOutside(f, c, b);
    } else if f.dtor[c] != Refuses {
      RoundAccepted(f, p, c, rank);
    }
  }

  /** Emptying `p` walks through live chunks only, unless the handle goes and a refusal follows. */
  lemma {:induction false} LoopDecides(f: Forest, p: Addr, rank: map<Addr, int>, b: set<Addr>, y: Addr)
    requires Looping(f, p, rank, b) && y !in b
    ensures Emptied(f, p, rank)
    ensures DrainReadsLive(f, p, rank, Back(p, y)) <==> !WalksToDead(f, f.tree.kids[p], y)
    decreases Mobile(f), |f.tree.kids[p]|
  {
    hide Inv, Ranked, Looping, Outer, NextRound, Free, FreeReadsLive, WalksToDead, Stepped, Shrinks, Drain, Holder;
    Loop(f, p, rank, b);
    if f.tree.kids[p] == [] {
      NoChildrenSafe(f, p, rank, Back(p, y));
      NoWalks(f, y);
    } else {
      var c, g := f.tree.kids[p][0], NextRound(f, p, rank);
      DrainStep(f, p, rank);
      LoopingNext(f, p, rank, b);
      HeadOfLoop(f, p, rank, b);
      LoopRanked(f, p, rank, b);
      RankedAny(f, rank, c);
      OuterChild(f, c, rank, b, Back(p, y));
      RoundWalk(f, p, rank, b, y);
      var pre := RoundSteps(f, p, rank, b, y);
      OthersSame(f, g, p, rank, b, y, pre);
      WalksStep(f, g, p, b, y, pre);
      LoopDecides(g, p, rank, b, y);
      DrainReads(f, p, rank, Back(p, y));
    }
  }

  lemma NoWalks(f: Forest, y: Addr)
    ensures !WalksToDead(f, [], y)
  {
    hide EndsInRefusal, LosesHandle;
  }

  lemma OthersSame(f: Forest, g: Forest, p: Addr, rank: map<Addr, int>, b: set<Addr>, y: Addr, pre: seq<Addr>)
    requires Looping(f, p, rank, b) && Looping(g, p, rank, b) && f.tree.kids[p] != [] && Stepped(f, g, p, b, f.tree.kids[p][0], y, pre)
    ensures forall d :: d in f.tree.kids[p][1..] ==> (EndsInRefusal(f, d) <==> EndsInRefusal(g, d)) && (LosesHandle(f, d, y) <==> LosesHandle(g, d, y))
  {
    hide Inv, Ranked, Looping, Outer, Apart, HandlesStay, EndsInRefusal, LosesHandle;
    Loop(f, p, rank, b);
    HeadOfLoop(f, p, rank, b);
    var c := f.tree.kids[p][0];
    forall d | d in f.tree.kids[p][1..]
      ensures (EndsInRefusal(f, d) <==> EndsInRefusal(g, d)) && (LosesHandle(f, d, y) <==> LosesHandle(g, d, y))
    {
      InTail(f.tree.kids[p], d);
      OtherSame(f, g, p, rank, c, b, d, y);
    }
  }

  /** The walks of the first round and of the others. */
  lemma DrainReads(f: Forest, p: Addr, rank: map<Addr, int>, m: Back)
    requires Emptied(f, p, rank) && f.tree.kids[p] != []
    ensures var c := f.tree.kids[p][0];
      c in Live(f) && c != f.nullCtx && Ranked(f, rank, c) && c in f.refs.list && (f.refs.list[c] != [] ==> f.refs.list[c][0] in f.tree.up)
    ensures Emptied(NextRound(f, p, rank), p, rank)
    ensures var c := f.tree.kids[p][0]; var r := Free(f, c, rank);
      DrainReadsLive(f, p, rank, m) <==>
        FreeReadsLive(f, c, rank, m) && (r.1 == -1 && Holder(f, c) == f.nullCtx && p == m.at ==> Alive(r.0, m.to))
        && DrainReadsLive(NextRound(f, p, rank), p, rank, m)
  {
    hide Inv, Ranked, Free, FreeReadsLive, NextRound, Holder, Shrinks;
    HolderOk(f, p, f.tree.kids[p][0], rank);
    RankedAny(f, rank, f.tree.kids[p][0]);
    DrainStep(f, p, rank);
  }

  // ------------------------------------------------------------------ a free from outside

  /** No reference to a chunk below `p` hangs below `p` or from the null context. */
  ghost predicate OuterReferencesOnly(f: Forest, p: Addr) {
    OwnedIn(f, Subtree(f, p)) && forall h :: h in f.refs.target && Above(f.tree, p, f.refs.target[h]) ==> !Above(f.tree, p, h)
  }

  lemma SubtreeOuter(f: Forest, p: Addr)
    requires Inv(f) && p in Live(f) && OuterReferencesOnly(f, p)
    ensures Outer(f, Subtree(f, p)) && p in Subtree(f, p)
  {
    hide Inv, Above;
    SubtreeDown(f, p);
  }

  lemma StartsLooping(f: Forest, p: Addr, rank: map<Addr, int>)
    requires Inv(f) && f.tree.out == {} && Ranked(f, rank, NULL) && Settled(f, p) && p != f.nullCtx
    requires f.refs.list[p] == [] && f.dtor[p] != Refuses && OuterReferencesOnly(f, p)
    ensures Ranked(f, rank, p) && Looping(Emptying(f, p), p, rank, Subtree(f, p))
    ensures Predecessor(f.tree, p) !in Subtree(f, p)
  {
    hide Inv, Ranked, Above, Drain, Free, Emptying, ParentLives, Outer, Predecessor, Down;
    KeysAgree(f);
    RankedAny(f, rank, p);
    SubtreeOuter(f, p);
    FreeStep(f, p, rank);
    EmptyingOuter(f, p, Subtree(f, p));
    EmptyingFacts(f, p);
    EmptyingParent(f, p, Subtree(f, p));
    TallocCalls.OutsideSubtree(f, p, rank);
    PredecessorHangs(f, p);
    NullCtxAbove(f, p);
  }

  lemma NullCtxAbove(f: Forest, p: Addr)
    requires Inv(f) && p in Live(f) && p != f.nullCtx
    ensures f.nullCtx !in Subtree(f, p)
  {
    KeysAgree(f);
    AboveEnds(f.tree, p);
    if f.nullCtx in Live(f) {
      AboveStep(f.tree, p, f.nullCtx);
    }
    hide Inv, Above;
  }

  /** What the free meets below a child is the same once `p` is marked. */
  lemma MarkedSame(f: Forest, p: Addr, rank: map<Addr, int>, c: Addr, y: Addr)
    requires Inv(f) && f.tree.out == {} && Ranked(f, rank, NULL) && Settled(f, p) && c in f.tree.up && f.tree.up[c] == p
    ensures EndsInRefusal(f, c) <==> EndsInRefusal(Emptying(f, p), c)
    ensures LosesHandle(f, c, y) <==> LosesHandle(Emptying(f, p), c, y)
  {
    hide Inv, Ranked, Reached, Emptying;
    KeysAgree(f);
    var e := Emptying(f, p);
    EmptyingFacts(f, p);
    EmptyingLists(f, p);
    NotAbovePoint(f, p, rank, c);
    forall z ensures Reached(f, c, z) <==> Reached(e, c, z) {
      ReachedMarked(f, e, p, c, z);
    }
    forall z | Reached(f, c, z) ensures Refusing(f, z) <==> Refusing(e, z) {
      ReachedNot(f, p, c, z);
    }
  }

  lemma ReachedNot(f: Forest, p: Addr, c: Addr, z: Addr)
    requires Reached(f, c, z) && !Above(f.tree, c, p)
    ensures z != p
  {
  }

  lemma ReachedMarked(f: Forest, e: Forest, p: Addr, c: Addr, z: Addr)
    requires !Above(f.tree, c, p) && f.tree.out == {} && e.tree.out == {p} && e.tree.up == f.tree.up && Live(e) == Live(f)
    requires e.refs == f.refs && e.dtor.Keys == f.dtor.Keys && forall x :: x in f.dtor && x != p ==> e.dtor[x] == f.dtor[x]
    ensures Reached(f, c, z) <==> Reached(e, c, z)
  {
    assert forall x, y :: Above(e.tree, x, y) <==> Above(f.tree, x, y) by {
      forall x, y ensures Above(e.tree, x, y) <==> Above(f.tree, x, y) {
        SameAncestors(f.tree, e.tree, x, y);
      }
    }
    hide Above;
  }

  lemma SameAncestors(t: Tree, t': Tree, x: Addr, y: Addr)
    requires t'.up == t.up
    ensures Above(t', x, y) <==> Above(t, x, y)
  {
    forall n: nat ensures UpN(t', y, n) == UpN(t, y, n) {
      SameSteps(t, t', y, n);
    }
  }

  lemma {:induction false} SameSteps(t: Tree, t': Tree, y: Addr, n: nat)
    requires t'.up == t.up
    ensures UpN(t', y, n) == UpN(t, y, n)
  {
    if n > 0 {
      SameSteps(t, t', y, n - 1);
    } else {
      assert UpN(t', y, 0) == y == UpN(t, y, 0);
    }
  }

  lemma SafeIsDrain(f: Forest, p: Addr, rank: map<Addr, int>)
    requires Inv(f) && p in Live(f) && p != f.nullCtx && Ranked(f, rank, p)
    requires f.refs.list[p] == [] && p !in f.tree.out && f.dtor[p] != Refuses
    ensures p in f.dtor && p in f.tree.up && (p in f.refs.target ==> f.refs.target[p] in f.refs.list)
    ensures Emptied(Emptying(f, p), p, rank)
    ensures SafeToFree(f, p) <==> DrainReadsLive(Emptying(f, p), p, rank, Back(p, Predecessor(f.tree, p)))
  {
    hide Inv, Ranked, Emptying, DrainReadsLive, Predecessor, FreeWalks, SafeToFree, Drain;
    KeysAgree(f);
    TargetListed(f, p);
    FreeStep(f, p, rank);
    SafeExactly(f, p, rank);
    LastWalkDecides(f, p, rank, Back(p, Predecessor(f.tree, p)));
  }

  lemma StartAlive(f: Forest, p: Addr)
    requires Inv(f) && f.tree.out == {} && Settled(f, p)
    ensures Alive(Emptying(f, p), Predecessor(f.tree, p)) && p in Emptying(f, p).tree.kids && Emptying(f, p).tree.kids[p] == f.tree.kids[p]
  {
    EmptyingFacts(f, p);
    PredecessorHangs(f, p);
    assert UpOk(f.tree, p);
    hide Predecessor, TreeInv, RefsInv;
  }

  lemma KidsMarked(f: Forest, p: Addr, rank: map<Addr, int>, y: Addr)
    requires Inv(f) && f.tree.out == {} && Ranked(f, rank, NULL) && Settled(f, p)
    ensures RefusalAfter(Emptying(f, p), f.tree.kids[p], y) <==> RefusalAfter(f, f.tree.kids[p], y)
  {
    hide Ranked, Emptying, EndsInRefusal, LosesHandle, RefsInv;
    var s, e := f.tree.kids[p], Emptying(f, p);
    assert KidsOk(f.tree, p);
    forall i | 0 <= i < |s|
      ensures (EndsInRefusal(f, s[i]) <==> EndsInRefusal(e, s[i])) && (LosesHandle(f, s[i], y) <==> LosesHandle(e, s[i], y))
    {
      ChildUp(f.tree, p, i);
      MarkedSame(f, p, rank, s[i], y);
    }
    hide Inv;
  }

  /** When no reference to a chunk below `p` hangs below `p` or from the null context, freeing `p` is safe if and only if
      there are no two children of `p`, the second perhaps the same as the first but not before it, so that the free of
      the first meets the chunk whose newest reference stands in front of `p`, and the free of the second meets a
      chunk that refuses. */
  lemma SafeByChildren(f: Forest, p: Addr, rank: map<Addr, int>)
    requires Inv(f) && f.tree.out == {} && Ranked(f, rank, NULL) && Settled(f, p) && p != f.nullCtx
    requires f.refs.list[p] == [] && f.dtor[p] != Refuses && OuterReferencesOnly(f, p)
    ensures var s, y := f.tree.kids[p], Predecessor(f.tree, p);
      SafeToFree(f, p) <==> forall i, j :: 0 <= i <= j < |s| ==> !(LosesHandle(f, s[i], y) && EndsInRefusal(f, s[j]))
  {
    hide Inv, Ranked, Emptying, Looping, DrainReadsLive, EndsInRefusal, LosesHandle, Predecessor, OuterReferencesOnly, SafeToFree, Alive;
    StartsLooping(f, p, rank);
    LoopDecides(Emptying(f, p), p, rank, Subtree(f, p), Predecessor(f.tree, p));
    SafeIsDrain(f, p, rank);
    StartAlive(f, p);
    KidsMarked(f, p, rank, Predecessor(f.tree, p));
  }
}
