/**
 The free of a child when references come from outside: exactly which chunks go, who is left to the parent, and
 which handle goes.
 */
module ChildFreed {
  import opened Seqs
  import opened ChildLists
  import opened RefLists
  import opened Forests
  import opened Ownership
  import opened FreeTheorem
  import opened DownSets
  import opened OuterReferences
  import FreeResults
  import opened ChildReach

  // ------------------------------------------------------------------ a child that is freed

  lemma ReachedSelf(f: Forest, rank: map<Addr, int>, c: Addr)
    requires Inv(f) && Ranked(f, rank, NULL) && Settled(f, c)
    ensures Reached(f, c, c)
  {
    hide Inv, Ranked, Above;
    KeysAgree(f);
    AboveEnds(f.tree, c);
    forall w | Settled(f, w) && w != c && Above(f.tree, c, w) ensures !Above(f.tree, w, c) {
      FreeResults.StrictlyAbove(f, c, w, rank);
      if Above(f.tree, w, c) {
        FreeResults.StrictlyAbove(f, w, c, rank);
      }
    }
  }

  lemma ReachedDown(f: Forest, c: Addr, z: Addr)
    requires Inv(f) && Settled(f, z) && z != c && Reached(f, c, f.tree.up[z]) && GivesWay(f, f.tree.up[z])
    ensures Reached(f, c, z)
  {
    hide Inv, Above;
    var u := f.tree.up[z];
    OneBelow(f.tree, c, z);
    forall w | Settled(f, w) && w != z && Above(f.tree, c, w) && Above(f.tree, w, z) ensures GivesWay(f, w) {
      AboveStep(f.tree, w, z);
    }
  }

  lemma ReachedUp(f: Forest, p: Addr, rank: map<Addr, int>, b: set<Addr>, c: Addr, z: Addr)
    requires Looping(f, p, rank, b) && c in b && c in f.tree.up && f.tree.up[c] == p && z != c && Reached(f, c, z)
    ensures z in b && f.tree.up[z] in b && Settled(f, f.tree.up[z]) && Reached(f, c, f.tree.up[z]) && GivesWay(f, f.tree.up[z])
  {
    hide Inv, Above, Looping, Down, Ranked;
    Loop(f, p, rank, b);
    var u := f.tree.up[z];
    AboveStep(f.tree, c, z);
    BelowIn(f, b, c, z);
    BelowIn(f, b, c, u);
    NotAbovePoint(f, p, rank, c);
    SettledUp(f, z, p);
    KeysAgree(f);
    assert u != z by { FreeResults.StrictlyAbove(f, c, z, rank); NotItsParent(f, rank, z); }
    AboveStep(f.tree, u, z);
    AboveEnds(f.tree, u);
    forall w | Settled(f, w) && w != u && Above(f.tree, c, w) && Above(f.tree, w, u) ensures GivesWay(f, w) {
      OneBelow(f.tree, w, z);
      Between(f, rank, w, u, z);
    }
  }

  lemma NotItsParent(f: Forest, rank: map<Addr, int>, z: Addr)
    requires Ranked(f, rank, NULL) && z in f.tree.up && z != NULL
    ensures f.tree.up[z] != z
  {
  }

  lemma Between(f: Forest, rank: map<Addr, int>, w: Addr, u: Addr, z: Addr)
    requires Inv(f) && Ranked(f, rank, NULL) && z in f.tree.up && u in f.tree.up && f.tree.up[z] == u && w != u && Above(f.tree, w, u) && w != NULL
    ensures w != z
  {
    if w == z {
      FreeResults.StrictlyAbove(f, w, u, rank);
      RanksOnce(f, rank, z);
    }
  }

  lemma RanksOnce(f: Forest, rank: map<Addr, int>, z: Addr)
    requires Ranked(f, rank, NULL) && z in f.tree.up && f.tree.up[z] != NULL
    ensures Rk(rank, f.tree.up[z]) < Rk(rank, z)
  {
  }

  lemma NotAbovePoint(f: Forest, p: Addr, rank: map<Addr, int>, c: Addr)
    requires Inv(f) && Ranked(f, rank, NULL) && p in Live(f) && c in f.tree.up && f.tree.up[c] == p
    ensures !Above(f.tree, c, p)
  {
    KeysAgree(f);
    hide Inv;
    if Above(f.tree, c, p) {
      FreeResults.RanksAbove(f, c, p, rank);
      RanksOnce(f, rank, c);
    }
  }

  /** `g` is what the free of the child `c` of `p` comes to, and `w` are the chunks that went with it. */
  ghost predicate Accepted(f: Forest, g: Forest, p: Addr, rank: map<Addr, int>, b: set<Addr>, c: Addr, w: set<Addr>) {
    && Looping(f, p, rank, b) && Looping(g, p, rank, b) && Shrinks(f, g)
    && c in b && Settled(f, c) && f.tree.up[c] == p && GivesWay(f, c)
    && w == Dead(f, g, c) && Swept(f, g, w, p, c) && Popped(f, g, b) && Inside(f, g, b) && c !in Live(g)
  }

  lemma AcceptedLoops(f: Forest, g: Forest, p: Addr, rank: map<Addr, int>, b: set<Addr>, c: Addr, w: set<Addr>)
    requires Accepted(f, g, p, rank, b, c, w)
    ensures Looping(f, p, rank, b) && Looping(g, p, rank, b) && c in b && Settled(f, c) && f.tree.up[c] == p && GivesWay(f, c) && c in w
    ensures p !in w && NULL !in w && Ranked(f, rank, NULL) && Inv(f) && Inv(g)
  {
    KeysAgree(f);
    hide Inv, Ranked, Shrinks, Swept, Popped, Inside;
  }

  /** What lies outside `b` and is no handle stays. */
  lemma OutsideStays(f: Forest, g: Forest, p: Addr, rank: map<Addr, int>, b: set<Addr>, c: Addr, w: set<Addr>, a: Addr)
    requires Accepted(f, g, p, rank, b, c, w) && a in Live(f) && a !in b && a !in f.refs.target
    ensures a !in w
  {
    hide Inv, Ranked, Shrinks, Swept, Popped, Looping;
    assert Shielded(f, b, a);
  }

  /** The owners of a chunk in `b` that do not go: its parent perhaps, and the contexts of its references. */
  lemma OwnersLeft(f: Forest, g: Forest, p: Addr, rank: map<Addr, int>, b: set<Addr>, c: Addr, w: set<Addr>, z: Addr)
    requires Accepted(f, g, p, rank, b, c, w) && z in b && Settled(f, z)
    ensures Drop(Owners(f, z), w) == (if f.tree.up[z] in w then [] else [f.tree.up[z]]) + Holders(f.tree.up, f.refs.list[z])
    ensures forall i :: 0 <= i < |f.refs.list[z]| ==> Holders(f.tree.up, f.refs.list[z])[i] !in b
  {
    hide Inv, Accepted, Looping, Outer, Down, Drop, Holders;
    AcceptedLoops(f, g, p, rank, b, c, w);
    Loop(f, p, rank, b);
    var hs := f.refs.list[z];
    var r := Holders(f.tree.up, hs);
    forall i | 0 <= i < |hs| ensures r[i] !in w && r[i] !in b {
      HolderOutside(f, b, z, i);
      OutsideStays(f, g, p, rank, b, c, w, r[i]);
    }
    DropNone(r, w);
    DropConcat([f.tree.up[z]], r, w);
    DropOne(f.tree.up[z], w);
  }

  lemma DropOne(x: Addr, w: set<Addr>)
    ensures Drop([x], w) == if x in w then [] else [x]
  {
  }

  lemma HolderOutside(f: Forest, b: set<Addr>, z: Addr, i: nat)
    requires Inv(f) && Outer(f, b) && z in b && z in f.refs.list && i < |f.refs.list[z]|
    ensures var q := Up(f.tree.up, f.refs.list[z][i]); q in Live(f) && q !in b && q !in f.refs.target
  {
    KeysAgree(f);
    assert ListOk(f.refs, z);
    Targets(f.refs, z, i);
    var h := f.refs.list[z][i];
    assert HandleOk(f, h) && UpOk(f.tree, h);
    assert f.tree.up[h] in f.refs.target ==> HandleOk(f, f.tree.up[h]);
    hide TreeInv, RefsInv;
  }

  /** The chunks that go were reached, and gave way. */
  lemma {:induction false} DeadReached(f: Forest, g: Forest, p: Addr, rank: map<Addr, int>, b: set<Addr>, c: Addr, w: set<Addr>, z: Addr)
    requires Accepted(f, g, p, rank, b, c, w) && Settled(f, z) && z in w
    ensures Reached(f, c, z) && GivesWay(f, z) && z in b
    decreases Rk(rank, z)
  {
    hide Inv, Ranked, Accepted, Looping, Outer, Down, Reached, Owners;
    AcceptedLoops(f, g, p, rank, b, c, w);
    Loop(f, p, rank, b);
    if z == c {
      ReachedSelf(f, rank, c);
    } else {
      if z !in b {
        OutsideStays(f, g, p, rank, b, c, w, z);
      }
      DeadLost(f, g, p, rank, b, c, w, z);
      OwnersLeft(f, g, p, rank, b, c, w, z);
      SettledUp(f, z, p);
      RanksOnce(f, rank, z);
      DeadReached(f, g, p, rank, b, c, w, f.tree.up[z]);
      ReachedDown(f, c, z);
    }
  }

  lemma DeadLost(f: Forest, g: Forest, p: Addr, rank: map<Addr, int>, b: set<Addr>, c: Addr, w: set<Addr>, z: Addr)
    requires Accepted(f, g, p, rank, b, c, w) && Settled(f, z) && z in w && z != c
    ensures f.dtor[z] != Refuses && Drop(Owners(f, z), w) == []
  {
    hide Inv, Ranked, Looping, Shrinks, Popped, Inside, Drop, Owners;
    assert z !in Live(g);
    assert Lost(f, w, z);
  }

  /** What was reached and gives way goes. */
  lemma {:induction false} ReachedDead(f: Forest, g: Forest, p: Addr, rank: map<Addr, int>, b: set<Addr>, c: Addr, w: set<Addr>, z: Addr)
    requires Accepted(f, g, p, rank, b, c, w) && Reached(f, c, z) && GivesWay(f, z)
    ensures z in w && z in b
    decreases Rk(rank, z)
  {
    hide Inv, Ranked, Accepted, Looping, Outer, Down, Above, Owners;
    AcceptedLoops(f, g, p, rank, b, c, w);
    if z != c {
      ReachedUp(f, p, rank, b, c, z);
      Loop(f, p, rank, b);
      RanksOnce(f, rank, z);
      ReachedDead(f, g, p, rank, b, c, w, f.tree.up[z]);
      OwnersLeft(f, g, p, rank, b, c, w, z);
      NothingLeft(f, g, p, rank, b, c, w, z);
    }
  }

  lemma NothingLeft(f: Forest, g: Forest, p: Addr, rank: map<Addr, int>, b: set<Addr>, c: Addr, w: set<Addr>, z: Addr)
    requires Accepted(f, g, p, rank, b, c, w) && Settled(f, z) && z in Live(f) && Drop(Owners(f, z), w) == [] && f.dtor[z] != Refuses
    ensures z in w
  {
    hide Inv, Ranked, Looping, Popped, Inside, Drop, Owners;
    if z in Live(g) {
      StaysSettledHere(f, g, p, rank, b, c, w, z);
      KeptAt(f, g, w, p, c, z);
    }
  }

  lemma StaysSettledHere(f: Forest, g: Forest, p: Addr, rank: map<Addr, int>, b: set<Addr>, c: Addr, w: set<Addr>, z: Addr)
    requires Accepted(f, g, p, rank, b, c, w) && Settled(f, z) && z in Live(g)
    ensures Settled(g, z) && g.dtor[z] == f.dtor[z]
  {
    hide Ranked, Swept, Popped, Inside, Outer;
    KeysAgree(g);
    hide Inv;
  }

  lemma KeptAt(f: Forest, g: Forest, w: set<Addr>, fb: Addr, c: Addr, z: Addr)
    requires Swept(f, g, w, fb, c) && Settled(g, z)
    ensures Settled(f, z) && Kept(f, g, w, fb, z)
  {
    hide Kept, Lost;
  }

  /** The parent of a chunk goes exactly when the free reaches the chunk. */
  lemma ParentGoes(f: Forest, g: Forest, p: Addr, rank: map<Addr, int>, b: set<Addr>, c: Addr, w: set<Addr>, z: Addr)
    requires Accepted(f, g, p, rank, b, c, w) && Settled(f, z) && z != c
    ensures f.tree.up[z] in w <==> Reached(f, c, z)
  {
    hide Inv, Ranked, Accepted, Looping, Outer, Down, Reached;
    AcceptedLoops(f, g, p, rank, b, c, w);
    Loop(f, p, rank, b);
    if Reached(f, c, z) {
      ReachedUp(f, p, rank, b, c, z);
      ReachedDead(f, g, p, rank, b, c, w, f.tree.up[z]);
    }
    if f.tree.up[z] in w {
      SettledUp(f, z, p);
      DeadReached(f, g, p, rank, b, c, w, f.tree.up[z]);
      ReachedDown(f, c, z);
    }
  }

  /** What becomes of a chunk in `b` that survives the free of `c`. */
  ghost predicate Outcome(f: Forest, g: Forest, p: Addr, b: set<Addr>, w: set<Addr>, z: Addr)
    requires Settled(f, z) && Settled(g, z)
  {
    && g.dtor[z] == f.dtor[z]
    && if f.tree.up[z] !in w then g.tree.up[z] == f.tree.up[z] && g.refs.list[z] == f.refs.list[z]
       else if f.refs.list[z] != [] then g.tree.up[z] !in b && g.refs.list[z] == f.refs.list[z][1..]
       else f.dtor[z] == Refuses && g.tree.up[z] == p && g.refs.list[z] == []
  }

  lemma Survives(f: Forest, g: Forest, p: Addr, rank: map<Addr, int>, b: set<Addr>, c: Addr, w: set<Addr>, z: Addr)
    requires Accepted(f, g, p, rank, b, c, w) && z in b && Settled(f, z) && z in Live(g)
    ensures Settled(g, z) && Outcome(f, g, p, b, w, z)
  {
    hide Inv, Ranked, Accepted, Looping, Outer, Down, Drop, Holders, Kept, Suffix;
    AcceptedLoops(f, g, p, rank, b, c, w);
    StaysSettledHere(f, g, p, rank, b, c, w, z);
    OwnersLeft(f, g, p, rank, b, c, w, z);
    KeptHere(f, g, p, rank, b, c, w, z);
    OwnersTell(f, g, p, b, w, z);
  }

  lemma KeptHere(f: Forest, g: Forest, p: Addr, rank: map<Addr, int>, b: set<Addr>, c: Addr, w: set<Addr>, z: Addr)
    requires Accepted(f, g, p, rank, b, c, w) && z in b && Settled(g, z)
    ensures Settled(f, z) && Kept(f, g, w, p, z) && Suffix(g.refs.list[z], f.refs.list[z])
  {
    hide Inv, Ranked, Looping, Inside, Shrinks, Kept, Suffix, Lost;
  }

  /** The owners tell the parent and the number of references. */
  lemma OwnersTell(f: Forest, g: Forest, p: Addr, b: set<Addr>, w: set<Addr>, z: Addr)
    requires Settled(f, z) && Settled(g, z) && Kept(f, g, w, p, z) && Suffix(g.refs.list[z], f.refs.list[z]) && g.dtor[z] == f.dtor[z]
    requires Drop(Owners(f, z), w) == (if f.tree.up[z] in w then [] else [f.tree.up[z]]) + Holders(f.tree.up, f.refs.list[z])
    requires forall i :: 0 <= i < |f.refs.list[z]| ==> Holders(f.tree.up, f.refs.list[z])[i] !in b
    ensures Outcome(f, g, p, b, w, z)
  {
    var r, l := Holders(f.tree.up, f.refs.list[z]), f.refs.list[z];
    assert |r| == |l|;
    assert |Owners(g, z)| == 1 + |g.refs.list[z]| && Owners(g, z)[0] == g.tree.up[z];
    hide Holders, Drop;
    if f.tree.up[z] !in w {
      assert ([f.tree.up[z]] + r)[0] == f.tree.up[z];
    } else {
      assert [] + r == r;
      assert l != [] ==> r[0] !in b;
    }
  }

  /** A chunk in `b` goes exactly when its parent goes and it gives way. */
  lemma GoesExactly(f: Forest, g: Forest, p: Addr, rank: map<Addr, int>, b: set<Addr>, c: Addr, w: set<Addr>, z: Addr)
    requires Accepted(f, g, p, rank, b, c, w) && z in b && Settled(f, z) && z != c
    ensures z in Live(g) <==> !(f.tree.up[z] in w && GivesWay(f, z))
  {
    hide Inv, Ranked, Accepted, Looping, Outer, Down, Reached;
    AcceptedLoops(f, g, p, rank, b, c, w);
    ParentGoes(f, g, p, rank, b, c, w, z);
    if z !in Live(g) {
      GoneDead(f, g, p, rank, b, c, w, z);
      DeadReached(f, g, p, rank, b, c, w, z);
    } else if f.tree.up[z] in w && GivesWay(f, z) {
      ReachedDead(f, g, p, rank, b, c, w, z);
      GoneDead(f, g, p, rank, b, c, w, z);
    }
  }

  lemma GoneDead(f: Forest, g: Forest, p: Addr, rank: map<Addr, int>, b: set<Addr>, c: Addr, w: set<Addr>, z: Addr)
    requires Accepted(f, g, p, rank, b, c, w) && z in Live(f)
    ensures z in w <==> z !in Live(g)
  {
    hide Inv, Ranked, Looping, Swept, Popped, Inside, Shrinks;
  }

  lemma AcceptedApart(f: Forest, g: Forest, p: Addr, rank: map<Addr, int>, b: set<Addr>, c: Addr, w: set<Addr>)
    requires Accepted(f, g, p, rank, b, c, w)
    ensures Apart(f, g, p, c, b)
  {
    hide Inv, Ranked, Accepted, Looping, Outer, Down, Above;
    AcceptedLoops(f, g, p, rank, b, c, w);
    KeysAgree(f);
    AboveEnds(f.tree, c);
    forall z | z in b && Settled(f, z) && !Above(f.tree, c, z)
      ensures Settled(g, z) && g.tree.up[z] == f.tree.up[z] && g.refs.list[z] == f.refs.list[z] && g.dtor[z] == f.dtor[z]
    {
      ParentGoes(f, g, p, rank, b, c, w, z);
      GoesExactly(f, g, p, rank, b, c, w, z);
      Survives(f, g, p, rank, b, c, w, z);
    }
    forall z | z in b && Settled(g, z)
      ensures Settled(f, z) && (g.tree.up[z] == f.tree.up[z] || g.tree.up[z] == p || g.tree.up[z] !in b)
    {
      KeptHere(f, g, p, rank, b, c, w, z);
      Survives(f, g, p, rank, b, c, w, z);
    }
  }

  /** The handle `y` outside `b` stays exactly when the free does not meet the chunk it is the newest reference to. */
  lemma AcceptedHandle(f: Forest, g: Forest, p: Addr, rank: map<Addr, int>, b: set<Addr>, c: Addr, w: set<Addr>, y: Addr)
    requires Accepted(f, g, p, rank, b, c, w) && y !in b && y != NULL && y in Live(f)
    ensures y in Live(g) <==> !LosesHandle(f, c, y)
  {
    hide Inv, Ranked, Accepted, Looping, Outer, Down, Reached;
    AcceptedLoops(f, g, p, rank, b, c, w);
    if y in f.refs.target && f.refs.target[y] in b {
      var x := f.refs.target[y];
      TargetSettled(f, p, rank, b, y);
      GoesExactly(f, g, p, rank, b, c, w, x);
      Survives(f, g, p, rank, b, c, w, x);
      ParentGoes(f, g, p, rank, b, c, w, x);
      HandleAlive(f, g, p, rank, b, c, w, y);
      NewestOnly(f.refs.list[x], y) by { ListNoDup(f, x); }
    } else {
      ShieldedStays(f, g, p, rank, b, c, w, y);
      if LosesHandle(f, c, y) {
        ReachedIn(f, p, rank, b, c, f.refs.target[y]);
      }
    }
  }

  lemma ListNoDup(f: Forest, x: Addr)
    requires Inv(f) && x in f.refs.list
    ensures NoDup(f.refs.list[x])
  {
    assert ListOk(f.refs, x);
  }

  lemma NewestOnly(s: seq<Addr>, y: Addr)
    requires NoDup(s) && y in s
    ensures y in s[1..] <==> y != s[0]
  {
    var i :| 0 <= i < |s| && s[i] == y;
    if i > 0 {
      assert s[1..][i - 1] == y;
    } else {
      assert forall j :: 0 <= j < |s[1..]| ==> s[1..][j] == s[j + 1];
    }
  }

  lemma ReachedIn(f: Forest, p: Addr, rank: map<Addr, int>, b: set<Addr>, c: Addr, x: Addr)
    requires Looping(f, p, rank, b) && c in b && Reached(f, c, x)
    ensures x in b
  {
    hide Inv, Looping, Down, Outer, Above;
    Loop(f, p, rank, b);
    BelowIn(f, b, c, x);
  }

  lemma TargetSettled(f: Forest, p: Addr, rank: map<Addr, int>, b: set<Addr>, y: Addr)
    requires Looping(f, p, rank, b) && y in f.refs.target
    ensures var x := f.refs.target[y]; Settled(f, x) && y in f.refs.list[x]
  {
    KeysAgree(f);
    IsHandle(f, y);
    var x := f.refs.target[y];
    assert y in f.refs.list[x];
    assert x in f.refs.target ==> HandleOk(f, x);
    hide Inv, Ranked, Outer;
  }

  /** A handle lives exactly as long as its target, if that lives, lists it. */
  lemma HandleAlive(f: Forest, g: Forest, p: Addr, rank: map<Addr, int>, b: set<Addr>, c: Addr, w: set<Addr>, y: Addr)
    requires Accepted(f, g, p, rank, b, c, w) && y in f.refs.target && f.refs.target[y] in g.refs.list
    ensures y in Live(g) <==> y in g.refs.list[f.refs.target[y]]
  {
    hide Ranked, Swept, Popped, Inside, Outer;
    if y in g.refs.list[f.refs.target[y]] {
      ListTargets(g, f.refs.target[y], y);
      IsHandle(g, y);
    }
    hide TreeInv;
  }

  lemma ShieldedStays(f: Forest, g: Forest, p: Addr, rank: map<Addr, int>, b: set<Addr>, c: Addr, w: set<Addr>, y: Addr)
    requires Accepted(f, g, p, rank, b, c, w) && y in Live(f) && y !in b && (y in f.refs.target ==> f.refs.target[y] !in b)
    ensures y in Live(g)
  {
    hide Inv, Ranked, Shrinks, Swept, Popped, Looping;
    assert Shielded(f, b, y);
  }
}
