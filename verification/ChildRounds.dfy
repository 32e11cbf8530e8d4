/**
 One round of the emptying loop when references come from outside, for each kind of first child.
 */
module ChildRounds {
  import opened Seqs
  import opened ChildLists
  import opened RefLists
  import opened Forests
  import opened Ownership
  import opened FreeRounds
  import opened FreeTheorem
  import opened ChildOrder
  import opened Acyclicity
  import opened StaleReads
  import opened DownSets
  import opened OuterReferences
  import FreeLimits
  import opened ChildReach
  import opened ChildFreed

  // ------------------------------------------------------------------ one round of the loop

  /** The round that dealt with the first child `c`: the children it left to `p` are in front, and each of them refuses. */
  ghost predicate Stepped(f: Forest, g: Forest, p: Addr, b: set<Addr>, c: Addr, y: Addr, pre: seq<Addr>)
    requires p in f.tree.kids && f.tree.kids[p] != []
  {
    && Apart(f, g, p, c, b) && HandlesStay(f, g) && p in g.tree.kids && g.tree.kids[p] == pre + f.tree.kids[p][1..]
    && (forall d :: d in pre ==> EndsInRefusal(g, d) && !LosesHandle(g, d, y))
    && (pre != [] <==> EndsInRefusal(f, c) && !Refusing(f, c))
    && (Alive(g, y) <==> Alive(f, y) && !LosesHandle(f, c, y))
  }

  lemma ParentStaysShielded(f: Forest, g: Forest, p: Addr, rank: map<Addr, int>, b: set<Addr>)
    requires Looping(f, p, rank, b) && Inside(f, g, b) && Shrinks(f, g) && Emptied(g, p, rank)
    ensures p in g.tree.up && g.tree.up[p] == f.tree.up[p] && ParentLives(g, p)
  {
    KeysAgree(f);
    KeysAgree(g);
    var q := f.tree.up[p];
    assert q != NULL ==> Shielded(f, b, q);
    hide Inv, Ranked, Outer;
  }

  lemma LoopingNext(f: Forest, p: Addr, rank: map<Addr, int>, b: set<Addr>)
    requires Looping(f, p, rank, b) && f.tree.kids[p] != []
    ensures Emptied(f, p, rank)
    ensures var g := NextRound(f, p, rank); Looping(g, p, rank, b) && Inside(f, g, b) && HandlesStay(f, g) && Shrinks(f, g)
  {
    hide Inv, Ranked, Shrinks, NextRound, Down, Outer, ParentLives, Shielded;
    OuterDown(f, b);
    DrainStep(f, p, rank);
    RoundInside(f, p, rank, b);
    var g := NextRound(f, p, rank);
    SameOut(f, g);
    StillOuter(f, g, b);
    ParentStaysShielded(f, g, p, rank, b);
    StillUnreferenced(f, g, p);
  }

  lemma StillUnreferenced(f: Forest, g: Forest, p: Addr)
    requires Inv(g) && p in Live(g) && Shrinks(f, g) && p in f.refs.list && f.refs.list[p] == []
    ensures p in g.refs.list && g.refs.list[p] == []
  {
    KeysAgree(g);
    hide Inv;
  }

  /** A chunk that refuses or is referenced is the only one that its free meets. */
  lemma ReachesOnlyItself(f: Forest, rank: map<Addr, int>, c: Addr, z: Addr)
    requires Inv(f) && Ranked(f, rank, NULL) && Settled(f, c) && !GivesWay(f, c)
    ensures Reached(f, c, z) <==> z == c
  {
    hide Inv, Ranked, Above;
    KeysAgree(f);
    ReachedSelf(f, rank, c);
    AboveEnds(f.tree, c);
  }

  lemma RefusingSteps(f: Forest, rank: map<Addr, int>, c: Addr, y: Addr)
    requires Inv(f) && Ranked(f, rank, NULL) && Settled(f, c) && Refusing(f, c)
    ensures EndsInRefusal(f, c) && !LosesHandle(f, c, y)
  {
    hide Inv, Ranked, Reached;
    ReachesOnlyItself(f, rank, c, c);
    if y in f.refs.target {
      ReachesOnlyItself(f, rank, c, f.refs.target[y]);
    }
  }

  /** The head child and the rest. */
  lemma HeadOfLoop(f: Forest, p: Addr, rank: map<Addr, int>, b: set<Addr>)
    requires Looping(f, p, rank, b) && f.tree.kids[p] != []
    ensures var c := f.tree.kids[p][0];
      c in b && c in Live(f) && c in f.tree.up && f.tree.up[c] == p && c != f.nullCtx && c !in f.tree.out && c != NULL && c != p && p != NULL
      && c in f.refs.list && c in f.dtor && (c in f.refs.target || Settled(f, c))
    ensures forall d :: d in f.tree.kids[p] ==> d in b && d in f.tree.up && f.tree.up[d] == p && d != p
    ensures NoDup(f.tree.kids[p])
  {
    hide Ranked, RefsInv;
    HolderOk(f, p, f.tree.kids[p][0], rank);
    KeysAgree(f);
    assert KidsOk(f.tree, p) && UpOk(f.tree, p);
    hide TreeInv;
  }

  // ------------------------------------------------------------------ the children that an accepting child leaves

  lemma AcceptedSetting(f: Forest, p: Addr, rank: map<Addr, int>, b: set<Addr>) returns (w: set<Addr>)
    requires Looping(f, p, rank, b) && f.tree.kids[p] != []
    requires var c := f.tree.kids[p][0]; Settled(f, c) && GivesWay(f, c)
    ensures Emptied(f, p, rank) && Accepted(f, NextRound(f, p, rank), p, rank, b, f.tree.kids[p][0], w)
  {
    hide Inv, Ranked, Shrinks, NextRound, Down, Swept, Popped, Inside, Drain, Free;
    HeadOfLoop(f, p, rank, b);
    LoopingNext(f, p, rank, b);
    var c, g := f.tree.kids[p][0], NextRound(f, p, rank);
    RankedAny(f, rank, c);
    RoundAccepted(f, p, c, rank);
    NextIs(f, p, rank);
    FreeSweeps(f, c, rank, b);
    ChunkPops(f, c, rank, b);
    FreedGone(f, c, rank);
    w := Dead(f, g, c);
    FallbackIs(f, p, c);
  }

  lemma FallbackIs(f: Forest, p: Addr, c: Addr)
    requires c in f.tree.up && f.tree.up[c] == p && p != NULL
    ensures Fallback(f, c) == p
  {
  }

  lemma FreedGone(f: Forest, c: Addr, rank: map<Addr, int>)
    requires Inv(f) && c in Live(f) && c != f.nullCtx && Ranked(f, rank, c) && Free(f, c, rank).1 == 0 && c !in f.tree.out
    ensures c !in Live(Free(f, c, rank).0)
  {
    hide Inv, Ranked, Shrinks;
  }

  lemma NextIs(f: Forest, p: Addr, rank: map<Addr, int>)
    requires Emptied(f, p, rank) && f.tree.kids[p] != []
    ensures var c := f.tree.kids[p][0];
      && c in Live(f) && c != f.nullCtx && Ranked(f, rank, c) && NextRound(f, p, rank) == DrainRound(f, p, c, rank, Free(f, c, rank))
  {
    hide Inv, Ranked, DrainRound, Free;
    HolderOk(f, p, f.tree.kids[p][0], rank);
    RankedAny(f, rank, f.tree.kids[p][0]);
  }

  /** The other children of `p` are all still there. */
  lemma OthersStay(f: Forest, p: Addr, rank: map<Addr, int>, b: set<Addr>, w: set<Addr>, d: Addr)
    requires Looping(f, p, rank, b) && f.tree.kids[p] != []
    requires Accepted(f, NextRound(f, p, rank), p, rank, b, f.tree.kids[p][0], w) && d in f.tree.kids[p][1..]
    ensures d in Live(NextRound(f, p, rank))
  {
    hide Inv, Ranked, Shrinks, NextRound, Looping, Accepted, Inside, Outer, Down;
    Loop(f, p, rank, b);
    HeadOfLoop(f, p, rank, b);
    var c, g := f.tree.kids[p][0], NextRound(f, p, rank);
    AcceptedLoops(f, g, p, rank, b, c, w);
    InTail(f.tree.kids[p], d);
    if d in f.refs.target {
      HandleElsewhere(f, b, d);
      OtherHandleStays(f, p, rank, b, d);
    } else {
      SettledHere(f, p, rank, b, d);
      GoesExactly(f, g, p, rank, b, c, w, d);
    }
  }

  lemma InTail(s: seq<Addr>, d: Addr)
    requires NoDup(s) && s != [] && d in s[1..]
    ensures d in s && d != s[0]
  {
    var i :| 0 <= i < |s[1..]| && s[1..][i] == d;
    assert s[i + 1] == d;
  }

  lemma HandleElsewhere(f: Forest, b: set<Addr>, d: Addr)
    requires Outer(f, b) && d in b && d in f.refs.target
    ensures f.refs.target[d] !in b
  {
  }

  lemma SettledHere(f: Forest, p: Addr, rank: map<Addr, int>, b: set<Addr>, d: Addr)
    requires Looping(f, p, rank, b) && d in f.tree.up && d != p && d !in f.refs.target
    ensures Settled(f, d)
  {
    KeysAgree(f);
    hide Inv, Ranked, Outer;
  }

  /** A handle below another child of `p` is not touched. */
  lemma OtherHandleStays(f: Forest, p: Addr, rank: map<Addr, int>, b: set<Addr>, d: Addr)
    requires Looping(f, p, rank, b) && f.tree.kids[p] != [] && f.refs.target.Keys >= {d} && f.refs.target[d] !in b
    requires d in f.tree.up && f.tree.up[d] == p && d != f.tree.kids[p][0] && Settled(f, f.tree.kids[p][0]) && GivesWay(f, f.tree.kids[p][0])
    ensures Emptied(f, p, rank) && d in Live(NextRound(f, p, rank))
  {
    hide Inv, Ranked, Shrinks, NextRound, Down, Inside, Above, Free, DrainRound;
    HeadOfLoop(f, p, rank, b);
    var c := f.tree.kids[p][0];
    RankedAny(f, rank, c);
    RoundAccepted(f, p, c, rank);
    NextIs(f, p, rank);
    SubtreeDown(f, c);
    NotAboveSibling(f, p, rank, c, d);
    SubtreeIn(f, b, c);
    ChunkInside(f, c, rank, Subtree(f, c));
    KeysAgree(f);
    ShieldedAfter(f, Free(f, c, rank).0, Subtree(f, c), d);
  }

  lemma SubtreeIn(f: Forest, b: set<Addr>, c: Addr)
    requires Down(f, b) && c in b
    ensures Subtree(f, c) <= b
  {
    hide Down, Above;
    forall z | z in Subtree(f, c) ensures z in b {
      BelowIn(f, b, c, z);
    }
  }

  lemma ShieldedAfter(f: Forest, g: Forest, b: set<Addr>, y: Addr)
    requires Inside(f, g, b) && Shielded(f, b, y)
    ensures y in Live(g)
  {
  }

  lemma AcceptedKids(f: Forest, p: Addr, rank: map<Addr, int>, b: set<Addr>, w: set<Addr>) returns (pre: seq<Addr>)
    requires Looping(f, p, rank, b) && f.tree.kids[p] != []
    requires Accepted(f, NextRound(f, p, rank), p, rank, b, f.tree.kids[p][0], w)
    ensures var g := NextRound(f, p, rank);
      p in g.tree.kids && g.tree.kids[p] == pre + f.tree.kids[p][1..] && forall d :: d in pre ==> d in f.tree.up && f.tree.up[d] != p
  {
    hide Inv, Ranked, Shrinks, NextRound, Looping, Accepted, Drop, Free, DrainRound;
    Loop(f, p, rank, b);
    var c, g, s := f.tree.kids[p][0], NextRound(f, p, rank), f.tree.kids[p];
    AcceptedLoops(f, g, p, rank, b, c, w);
    Loop(g, p, rank, b);
    HeadOfLoop(f, p, rank, b);
    RankedAny(f, rank, c);
    RoundAccepted(f, p, c, rank);
    NextIs(f, p, rank);
    FreeGrows(f, c, rank, p);
    pre :| GrownBy(f, g, p, pre);
    var dead := Live(f) - Live(g);
    GoneDead(f, g, p, rank, b, c, w, c);
    forall i | 0 <= i < |s[1..]| ensures s[1..][i] !in dead {
      OthersStay(f, p, rank, b, w, s[1..][i]);
    }
    DropNone(s[1..], dead);
    DropFirst(s, dead);
  }

  lemma DropFirst(s: seq<Addr>, w: set<Addr>)
    requires s != [] && s[0] in w && Drop(s[1..], w) == s[1..]
    ensures Drop(s, w) == s[1..]
  {
  }

  /** A chunk that the free of `c` leaves to `p` refuses, and the free met it. */
  lemma LeftRefuses(f: Forest, g: Forest, p: Addr, rank: map<Addr, int>, b: set<Addr>, c: Addr, w: set<Addr>, d: Addr, y: Addr)
    requires Accepted(f, g, p, rank, b, c, w) && HandlesStay(f, g) && p in g.tree.kids && d in g.tree.kids[p] && d in f.tree.up && f.tree.up[d] != p
    ensures Reached(f, c, d) && Refusing(f, d) && EndsInRefusal(g, d) && !LosesHandle(g, d, y)
  {
    hide Inv, Ranked, Looping, Accepted, Outer, Down, Reached;
    AcceptedLoops(f, g, p, rank, b, c, w);
    Loop(g, p, rank, b);
    ChildOfLoop(f, g, p, rank, b, d);
    KeptHere(f, g, p, rank, b, c, w, d);
    Survives(f, g, p, rank, b, c, w, d);
    ParentGoes(f, g, p, rank, b, c, w, d) by { GoneDead(f, g, p, rank, b, c, w, c); }
    LoopRanked(g, p, rank, b);
    RefusingSteps(g, rank, d, y);
  }

  lemma LoopRanked(f: Forest, p: Addr, rank: map<Addr, int>, b: set<Addr>)
    requires Looping(f, p, rank, b)
    ensures Inv(f) && Ranked(f, rank, NULL)
  {
  }

  lemma ChildOfLoop(f: Forest, g: Forest, p: Addr, rank: map<Addr, int>, b: set<Addr>, d: Addr)
    requires Looping(g, p, rank, b) && HandlesStay(f, g) && d in g.tree.kids[p] && d in f.tree.up && f.tree.up[d] != p
    ensures Settled(g, d) && g.tree.up[d] == p && d in b
  {
    KeysAgree(g);
    assert KidsOk(g.tree, p);
    hide Inv, Ranked;
  }

  /** A refusing chunk that the free of `c` meets is left to `p`. */
  lemma MetIsLeft(f: Forest, g: Forest, p: Addr, rank: map<Addr, int>, b: set<Addr>, c: Addr, w: set<Addr>, z: Addr)
    requires Accepted(f, g, p, rank, b, c, w) && Reached(f, c, z) && Refusing(f, z)
    ensures p in g.tree.kids && z in g.tree.kids[p] && z in f.tree.up && f.tree.up[z] != p
  {
    hide Inv, Ranked, Looping, Accepted, Outer, Down, Reached;
    AcceptedLoops(f, g, p, rank, b, c, w);
    Loop(g, p, rank, b);
    ReachedIn(f, p, rank, b, c, z);
    ReachedSettled(f, c, z);
    ParentGoes(f, g, p, rank, b, c, w, z);
    GoesExactly(f, g, p, rank, b, c, w, z);
    Survives(f, g, p, rank, b, c, w, z);
    UpKid(g, z, p);
  }

  lemma ReachedSettled(f: Forest, c: Addr, z: Addr)
    requires Reached(f, c, z)
    ensures Settled(f, z)
  {
  }

  lemma UpKid(g: Forest, z: Addr, p: Addr)
    requires Inv(g) && Settled(g, z) && g.tree.up[z] == p && p != NULL
    ensures p in g.tree.kids && z in g.tree.kids[p]
  {
    assert UpOk(g.tree, z);
  }

  lemma AcceptedStep(f: Forest, p: Addr, rank: map<Addr, int>, b: set<Addr>, y: Addr) returns (pre: seq<Addr>)
    requires Looping(f, p, rank, b) && f.tree.kids[p] != [] && y !in b
    requires var c := f.tree.kids[p][0]; Settled(f, c) && GivesWay(f, c)
    ensures Emptied(f, p, rank) && Stepped(f, NextRound(f, p, rank), p, b, f.tree.kids[p][0], y, pre)
  {
    hide Inv, Ranked, Shrinks, NextRound, Looping, Accepted, Apart, Reached, HandlesStay, Inside;
    var w := AcceptedSetting(f, p, rank, b);
    pre := AcceptedKids(f, p, rank, b, w);
    var c, g := f.tree.kids[p][0], NextRound(f, p, rank);
    AcceptedLoops(f, g, p, rank, b, c, w);
    AcceptedApart(f, g, p, rank, b, c, w);
    LoopingNext(f, p, rank, b);
    forall d | d in pre ensures EndsInRefusal(g, d) && !LosesHandle(g, d, y) {
      LeftRefuses(f, g, p, rank, b, c, w, d, y);
    }
    if pre != [] {
      HeadIn(pre);
      LeftRefuses(f, g, p, rank, b, c, w, pre[0], y);
    }
    if EndsInRefusal(f, c) {
      var z :| Reached(f, c, z) && Refusing(f, z);
      MetIsLeft(f, g, p, rank, b, c, w, z);
      NotAmongOthers(f, p, rank, b, z);
    }
    AliveSteps(f, g, p, rank, b, c, w, y);
  }

  lemma NotAmongOthers(f: Forest, p: Addr, rank: map<Addr, int>, b: set<Addr>, z: Addr)
    requires Looping(f, p, rank, b) && f.tree.kids[p] != [] && z in f.tree.up && f.tree.up[z] != p
    ensures z !in f.tree.kids[p][1..]
  {
    hide Inv, Ranked, Looping;
    Loop(f, p, rank, b);
    HeadOfLoop(f, p, rank, b);
    if z in f.tree.kids[p][1..] {
      InTail(f.tree.kids[p], z);
    }
  }

  lemma AliveSteps(f: Forest, g: Forest, p: Addr, rank: map<Addr, int>, b: set<Addr>, c: Addr, w: set<Addr>, y: Addr)
    requires Accepted(f, g, p, rank, b, c, w) && y !in b
    ensures Alive(g, y) <==> Alive(f, y) && !LosesHandle(f, c, y)
  {
    hide Inv, Ranked, Looping, Outer, Down, Reached, Swept, Popped, Inside;
    AcceptedLoops(f, g, p, rank, b, c, w);
    if y == NULL {
      NoNullHandle(f);
    } else if y in Live(f) {
      AcceptedHandle(f, g, p, rank, b, c, w, y);
    } else {
      FewerLive(f, g);
    }
  }

  lemma NoNullHandle(f: Forest)
    requires Inv(f)
    ensures NULL !in f.refs.target
  {
    KeysAgree(f);
    if NULL in f.refs.target {
      IsHandle(f, NULL);
    }
  }

  lemma FewerLive(f: Forest, g: Forest)
    requires Shrinks(f, g)
    ensures Live(g) <= Live(f)
  {
  }

  // ------------------------------------------------------------------ a child that is not freed, and a handle

  lemma MovedApart(f: Forest, g: Forest, p: Addr, rank: map<Addr, int>, b: set<Addr>, c: Addr, h: Addr, a: Addr)
    requires Looping(f, p, rank, b) && Looping(g, p, rank, b) && Shrinks(f, g) && f.tree.kids[p] != []
    requires FreeLimits.OnlyMoved(f, g, p, c, h, a) && Settled(f, c) && h !in b && a !in b
    ensures Apart(f, g, p, c, b)
  {
    hide Inv, Looping, Above, Shrinks;
    Loop(f, p, rank, b);
    Loop(g, p, rank, b);
    SelfAbove(f.tree, c);
    forall z | z in b && Settled(f, z) && !Above(f.tree, c, z)
      ensures Settled(g, z) && g.tree.up[z] == f.tree.up[z] && g.refs.list[z] == f.refs.list[z] && g.dtor[z] == f.dtor[z]
    {
      Everywhere(g, z);
    }
    forall z | z in b && Settled(g, z)
      ensures Settled(f, z) && (g.tree.up[z] == f.tree.up[z] || g.tree.up[z] == p || g.tree.up[z] !in b)
    {
      Everywhere(f, z);
      StillNoHandle(f, g, z);
    }
  }

  lemma SelfAbove(t: Tree, c: Addr)
    ensures Above(t, c, c)
  {
    assert UpN(t, c, 0) == c;
  }

  lemma Everywhere(f: Forest, z: Addr)
    requires Inv(f)
    ensures z in f.tree.kids <==> z in f.tree.up
    ensures z in f.tree.kids <==> z in f.refs.list
    ensures z in f.tree.kids <==> z in f.dtor
  {
    KeysAgree(f);
    hide Inv;
  }

  lemma StillNoHandle(f: Forest, g: Forest, z: Addr)
    requires Shrinks(f, g) && z in Live(g) && z !in g.refs.target
    ensures z !in f.refs.target
  {
  }

  /** Who is alive after a round that moved `c`: everyone but `h`. */
  lemma MovedAlive(f: Forest, g: Forest, p: Addr, rank: map<Addr, int>, b: set<Addr>, c: Addr, h: Addr, a: Addr, y: Addr)
    requires Looping(f, p, rank, b) && Looping(g, p, rank, b) && f.tree.kids[p] != [] && FreeLimits.OnlyMoved(f, g, p, c, h, a) && c in Live(f)
    ensures y != c && (y != h || h == NULL) ==> (Alive(g, y) <==> Alive(f, y))
    ensures h != NULL ==> !Alive(g, h)
  {
    KeysAgree(f);
    KeysAgree(g);
    hide Inv, Ranked, Outer;
  }

  lemma ReferencedStep(f: Forest, p: Addr, rank: map<Addr, int>, b: set<Addr>, y: Addr)
    requires Looping(f, p, rank, b) && f.tree.kids[p] != [] && y !in b
    requires var c := f.tree.kids[p][0]; Settled(f, c) && f.refs.list[c] != []
    ensures Emptied(f, p, rank) && Stepped(f, NextRound(f, p, rank), p, b, f.tree.kids[p][0], y, [])
  {
    hide Inv, Ranked, Shrinks, NextRound, Looping, Apart, Reached, HandlesStay, Inside, Outer, FreeLimits.OnlyMoved;
    Loop(f, p, rank, b);
    LoopRanked(f, p, rank, b);
    HeadOfLoop(f, p, rank, b);
    LoopingNext(f, p, rank, b);
    var c, g := f.tree.kids[p][0], NextRound(f, p, rank);
    var h := f.refs.list[c][0];
    NewestOutside(f, c, b);
    LoopParent(f, p, rank, b);
    var a := FreeLimits.MovedAway(f, p, c, h, rank);
    FreeLimits.NewestContextTakesOver(f, p, c, rank);
    MovedTo(f, g, p, c, h, a);
    MovedApart(f, g, p, rank, b, c, h, a);
    MovedAlive(f, g, p, rank, b, c, h, a, y);
    ReferencedMeets(f, rank, c, y);
    Loop(g, p, rank, b);
    NoNullHandle(f);
    HandleLives(f, h);
  }

  lemma HandleLives(f: Forest, h: Addr)
    requires Inv(f) && h in f.refs.target
    ensures h in Live(f)
  {
    IsHandle(f, h);
  }

  lemma LoopParent(f: Forest, p: Addr, rank: map<Addr, int>, b: set<Addr>)
    requires Looping(f, p, rank, b)
    ensures ParentLives(f, p) && p !in f.refs.target
  {
    if p in f.refs.target {
      IsHandle(f, p);
    }
    hide Inv, Ranked, Outer;
  }

  lemma MovedTo(f: Forest, g: Forest, p: Addr, c: Addr, h: Addr, a: Addr)
    requires p in f.tree.kids && f.tree.kids[p] != [] && FreeLimits.OnlyMoved(f, g, p, c, h, a)
    ensures c in g.tree.up && g.tree.up[c] == a && p in g.tree.kids && g.tree.kids[p] == [] + f.tree.kids[p][1..]
  {
  }

  /** The free of a referenced chunk meets that chunk only and takes its newest reference. */
  lemma ReferencedMeets(f: Forest, rank: map<Addr, int>, c: Addr, y: Addr)
    requires Inv(f) && Ranked(f, rank, NULL) && Settled(f, c) && f.refs.list[c] != []
    ensures !EndsInRefusal(f, c) && !Refusing(f, c) && (LosesHandle(f, c, y) <==> y == f.refs.list[c][0])
  {
    hide Inv, Ranked, Reached;
    forall z ensures Reached(f, c, z) <==> z == c {
      ReachesOnlyItself(f, rank, c, z);
    }
    ListTargets(f, c, f.refs.list[c][0]) by { HeadIn(f.refs.list[c]); }
  }

  lemma RefusedStep(f: Forest, p: Addr, rank: map<Addr, int>, b: set<Addr>, y: Addr)
    requires Looping(f, p, rank, b) && f.tree.kids[p] != [] && y !in b
    requires var c := f.tree.kids[p][0]; Settled(f, c) && Refusing(f, c)
    ensures Emptied(f, p, rank) && Stepped(f, NextRound(f, p, rank), p, b, f.tree.kids[p][0], y, [])
  {
    hide Inv, Ranked, Shrinks, NextRound, Looping, Apart, Reached, HandlesStay, Inside, Outer, FreeLimits.OnlyMoved;
    Loop(f, p, rank, b);
    LoopRanked(f, p, rank, b);
    HeadOfLoop(f, p, rank, b);
    LoopingNext(f, p, rank, b);
    var c, g := f.tree.kids[p][0], NextRound(f, p, rank);
    var a := RefusedMoved(f, p, rank, b);
    MovedTo(f, g, p, c, NULL, a);
    MovedApart(f, g, p, rank, b, c, NULL, a);
    MovedAlive(f, g, p, rank, b, c, NULL, a, y);
    RefusingSteps(f, rank, c, y);
  }

  lemma RefusedMoved(f: Forest, p: Addr, rank: map<Addr, int>, b: set<Addr>) returns (a: Addr)
    requires Looping(f, p, rank, b) && f.tree.kids[p] != []
    requires var c := f.tree.kids[p][0]; Settled(f, c) && Refusing(f, c)
    ensures Emptied(f, p, rank) && FreeLimits.OnlyMoved(f, NextRound(f, p, rank), p, f.tree.kids[p][0], NULL, a) && a !in b
  {
    hide Ranked, Shrinks, Stolen, Free, DrainRound, Inv, NextRound, Looping, Adopter;
    Loop(f, p, rank, b);
    HeadOfLoop(f, p, rank, b);
    var c, g := f.tree.kids[p][0], NextRound(f, p, rank);
    RoundRefused(f, p, c, rank);
    NextIs(f, p, rank);
    var q := AdopterOutside(f, p, rank, b);
    NullCtxLive(f);
    FreeLimits.StolenShape(f, p, q, c);
    a := if q == NULL then f.nullCtx else q;
    Everywhere(f, NULL);
    NoNullChunk(f);
    assert f.tree.up - {NULL} == f.tree.up;
  }

  lemma NoNullChunk(f: Forest)
    requires Inv(f)
    ensures NULL !in Live(f)
  {
    KeysAgree(f);
  }

  lemma AdopterOutside(f: Forest, p: Addr, rank: map<Addr, int>, b: set<Addr>) returns (q: Addr)
    requires Looping(f, p, rank, b)
    ensures q == Adopter(f, p, f.nullCtx) && q !in b && (if q == NULL then f.nullCtx else q) !in b
  {
    hide Inv, Ranked;
    q := Adopter(f, p, f.nullCtx);
  }

  /** No other chunk lies below a handle. */
  lemma NothingUnderHandle(f: Forest, p: Addr, rank: map<Addr, int>, b: set<Addr>, c: Addr, z: Addr)
    requires Looping(f, p, rank, b) && c in f.refs.target && c in b && Settled(f, z)
    ensures !Above(f.tree, c, z)
  {
    hide Ranked, RefsInv;
    KeysAgree(f);
    IsHandle(f, c);
    forall w | w in f.tree.up ensures f.tree.up[w] != c {
      assert UpOk(f.tree, w);
    }
    forall n: nat ensures UpN(f.tree, z, n) != c {
      NobodyAbove(f.tree, c, z, n);
    }
  }

  lemma {:induction false} NobodyAbove(t: Tree, c: Addr, z: Addr, n: nat)
    requires z != c && c != NULL && forall w :: w in t.up ==> t.up[w] != c
    ensures UpN(t, z, n) != c
  {
    if n > 0 {
      NobodyAbove(t, c, z, n - 1);
    } else {
      assert UpN(t, z, 0) == z;
    }
  }

  lemma HandleStep(f: Forest, p: Addr, rank: map<Addr, int>, b: set<Addr>, y: Addr)
    requires Looping(f, p, rank, b) && f.tree.kids[p] != [] && y !in b && f.tree.kids[p][0] in f.refs.target
    ensures Emptied(f, p, rank) && Stepped(f, NextRound(f, p, rank), p, b, f.tree.kids[p][0], y, [])
    ensures !Refusing(f, f.tree.kids[p][0])
  {
    hide Inv, Ranked, Shrinks, NextRound, Looping, Apart, HandlesStay, Inside, Outer, Above, HandleFreed;
    Loop(f, p, rank, b);
    HeadOfLoop(f, p, rank, b);
    LoopingNext(f, p, rank, b);
    var c, g := f.tree.kids[p][0], NextRound(f, p, rank);
    HandleRound(f, p, rank, b);
    HandleApart(f, g, p, rank, b, c);
    forall z | Settled(f, z) ensures !Reached(f, c, z) {
      NothingUnderHandle(f, p, rank, b, c, z);
    }
    IsHandle(f, c);
  }

  /** What freeing the handle in front changes. */
  lemma HandleRound(f: Forest, p: Addr, rank: map<Addr, int>, b: set<Addr>)
    requires Looping(f, p, rank, b) && f.tree.kids[p] != [] && f.tree.kids[p][0] in f.refs.target
    ensures Emptied(f, p, rank)
    ensures var c, g := f.tree.kids[p][0], NextRound(f, p, rank);
      && p in g.tree.kids && g.tree.kids[p] == [] + f.tree.kids[p][1..] && g.tree.up == f.tree.up - {c} && Live(g) == Live(f) - {c}
      && (forall z :: z in b && z in g.refs.list ==> z in f.refs.list && g.refs.list[z] == f.refs.list[z])
  {
    hide Ranked, Shrinks, Free, DrainRound, Inv, NextRound, Looping, HandleFreed, OnlyHandlesGone, Outer;
    Loop(f, p, rank, b);
    HeadOfLoop(f, p, rank, b);
    var c := f.tree.kids[p][0];
    RoundHandle(f, p, c, rank);
    NextIs(f, p, rank);
    HandleFreedLists(f, c);
    HandleFreedEdges(f, c);
    HandleFreedOk(f, c);
    HandleElsewhere(f, b, c);
    DropHead(f.tree.kids[p]);
    HandleOutOfList(f, p, c);
  }

  lemma HandleOutOfList(f: Forest, p: Addr, c: Addr)
    requires Inv(f) && c in f.refs.target && p in f.tree.kids && c in f.tree.up && f.tree.up[c] == p && p != NULL && p != c
    ensures c in f.dtor && f.refs.target[c] in f.refs.list && p in HandleFreed(f, c).tree.kids
    ensures HandleFreed(f, c).tree.kids[p] == Drop(f.tree.kids[p], {c})
  {
    IsHandle(f, c);
    hide TreeInv, RefsInv;
  }

  lemma HandleApart(f: Forest, g: Forest, p: Addr, rank: map<Addr, int>, b: set<Addr>, c: Addr)
    requires Looping(f, p, rank, b) && Looping(g, p, rank, b) && Shrinks(f, g) && c in Live(f)
    requires g.tree.up == f.tree.up - {c} && forall z :: z in b && z in g.refs.list ==> z in f.refs.list && g.refs.list[z] == f.refs.list[z]
    ensures Apart(f, g, p, c, b)
  {
    hide Inv, Looping, Above, Shrinks;
    Loop(f, p, rank, b);
    Loop(g, p, rank, b);
    SelfAbove(f.tree, c);
    forall z | z in b && Settled(f, z) && !Above(f.tree, c, z)
      ensures Settled(g, z) && g.tree.up[z] == f.tree.up[z] && g.refs.list[z] == f.refs.list[z] && g.dtor[z] == f.dtor[z]
    {
      Everywhere(g, z);
      StillSettled(f, g, z);
    }
    forall z | z in b && Settled(g, z)
      ensures Settled(f, z) && (g.tree.up[z] == f.tree.up[z] || g.tree.up[z] == p || g.tree.up[z] !in b)
    {
      Everywhere(f, z);
      StillNoHandle(f, g, z);
    }
  }

  lemma StillSettled(f: Forest, g: Forest, z: Addr)
    requires Shrinks(f, g) && z in g.dtor && z !in f.refs.target
    ensures z in f.dtor && g.dtor[z] == f.dtor[z] && z !in g.refs.target
  {
  }

  /** One round, whatever the first child is. */
  lemma RoundSteps(f: Forest, p: Addr, rank: map<Addr, int>, b: set<Addr>, y: Addr) returns (pre: seq<Addr>)
    requires Looping(f, p, rank, b) && f.tree.kids[p] != [] && y !in b
    ensures Emptied(f, p, rank) && Stepped(f, NextRound(f, p, rank), p, b, f.tree.kids[p][0], y, pre)
    ensures var c := f.tree.kids[p][0]; Refusing(f, c) ==> EndsInRefusal(f, c) && !LosesHandle(f, c, y)
  {
    hide Inv, Ranked, NextRound, Looping, Stepped, Reached;
    Loop(f, p, rank, b);
    LoopRanked(f, p, rank, b);
    HeadOfLoop(f, p, rank, b);
    var c := f.tree.kids[p][0];
    pre := [];
    if c in f.refs.target {
      HandleStep(f, p, rank, b, y);
    } else if f.refs.list[c] != [] {
      ReferencedStep(f, p, rank, b, y);
    } else if f.dtor[c] == Refuses {
      RefusedStep(f, p, rank, b, y);
      RefusingSteps(f, rank, c, y);
    } else {
      pre := AcceptedStep(f, p, rank, b, y);
    }
  }
}
