/**
 Freeing a chunk when the references to the chunks below it all come from elsewhere: which walks there
 are, and what becomes of the reference lists.
 */
module OuterReferences {
  import opened Seqs
  import opened ChildLists
  import opened RefLists
  import opened Forests
  import opened FreeRounds
  import FreeTheorem
  import opened StaleReads
  import opened DownSets
  import opened SafeFrees

  /** `b` is closed under children, and references to its chunks come from outside, from contexts other than
      the null context. */
  ghost predicate Outer(f: Forest, b: set<Addr>) {
    && Down(f, b) && FreeTheorem.OwnedIn(f, b)
    && forall h :: h in f.refs.target && f.refs.target[h] in b ==> h !in b
  }

  lemma OuterDown(f: Forest, b: set<Addr>)
    requires Outer(f, b)
    ensures Down(f, b)
  {
  }

  lemma StillOuter(f: Forest, g: Forest, b: set<Addr>)
    requires Outer(f, b) && Inside(f, g, b) && g.nullCtx == f.nullCtx
    ensures Outer(g, b)
  {
  }

  lemma NewestOutside(f: Forest, c: Addr, b: set<Addr>)
    requires Inv(f) && Outer(f, b) && c in b && c in f.refs.list && f.refs.list[c] != []
    ensures var h := f.refs.list[c][0]; h in f.refs.target && f.refs.target[h] == c && h !in b && h in f.tree.up
    ensures f.tree.up[f.refs.list[c][0]] !in b && f.tree.up[f.refs.list[c][0]] != NULL && f.tree.up[f.refs.list[c][0]] != f.nullCtx
  {
    assert ListOk(f.refs, c);
    Targets(f.refs, c, 0);
    KeysAgree(f);
    var h := f.refs.list[c][0];
    assert HandleOk(f, h);
    hide Inv;
  }

  lemma EmptyingOuter(f: Forest, p: Addr, b: set<Addr>)
    requires Inv(f) && p in Live(f) && p !in f.refs.target && Outer(f, b)
    ensures p in f.dtor && p in f.tree.up && Outer(Emptying(f, p), b)
  {
    hide Inv, Outer, Emptying;
    KeysAgree(f);
    OuterDown(f, b);
    EmptyingInside(f, p, b);
    EmptyingFacts(f, p);
    StillOuter(f, Emptying(f, p), b);
  }

  // ------------------------------------------------------------------ walks

  /** Freeing a child while `m.at` is being emptied causes no walk through `m.at`. */
  lemma {:induction false} OuterChild(f: Forest, c: Addr, rank: map<Addr, int>, b: set<Addr>, m: Back)
    requires Inv(f) && c in Live(f) && c != f.nullCtx && Ranked(f, rank, NULL) && Ranked(f, rank, c) && c !in f.tree.out
    requires Outer(f, b) && c in b && m.at in b && m.at in f.tree.out
    ensures FreeReadsLive(f, c, rank, m)
    decreases Mobile(f), 0, 0
  {
    hide Inv, Ranked, Down, Inside, Drain, Shrinks, Above, HandleFreed, Emptying, DrainReadsLive, Outer;
    KeysAgree(f);
    TargetListed(f, c);
    OuterDown(f, b);
    if f.refs.list[c] != [] {
      FreeReferenced(f, c, rank);
      NewestOutside(f, c, b);
      NoReferenceFromBelow(f, c, f.refs.list[c][0], rank);
      OutsideHandle(f, b, m, f.refs.list[c][0]);
    } else if f.dtor[c] != Refuses {
      FreeStep(f, c, rank);
      var e := Emptying(f, c);
      if c in f.refs.target {
        IsHandle(f, c);
        HandleEmpty(f, c);
        NoChildrenSafe(e, c, rank, m);
      } else {
        EmptyingOuter(f, c, b);
        EmptyingFacts(f, c);
        OuterDrain(e, c, rank, b, m);
      }
    }
  }

  lemma {:induction false} OuterDrain(f: Forest, p: Addr, rank: map<Addr, int>, b: set<Addr>, m: Back)
    requires Emptied(f, p, rank) && Outer(f, b) && p in b && m.at in b && m.at in f.tree.out && p != m.at
    ensures DrainReadsLive(f, p, rank, m)
    decreases Mobile(f), 1, |f.tree.kids[p]|
  {
    hide Inv, Ranked, Down, Inside, Drain, Free, NextRound, FreeReadsLive, Outer, Shrinks, Holder;
    OuterDown(f, b);
    if f.tree.kids[p] != [] {
      var c := f.tree.kids[p][0];
      HolderOk(f, p, c, rank);
      RankedAny(f, rank, c);
      DrainStep(f, p, rank);
      HeadInside(f, p, rank, b);
      OuterChild(f, c, rank, b, m);
      RoundInside(f, p, rank, b);
      var g := NextRound(f, p, rank);
      SameOut(f, g);
      StillOuter(f, g, b);
      OuterDrain(g, p, rank, b, m);
    }
  }

  // ------------------------------------------------------------------ reference lists

  predicate Suffix(r: seq<Addr>, s: seq<Addr>) {
    |r| <= |s| && r == s[|s| - |r|..]
  }

  /** Chunks in `b` have lost nothing but their newest references. */
  ghost predicate Popped(f: Forest, g: Forest, b: set<Addr>) {
    forall z :: z in b && z in g.refs.list ==> z in f.refs.list && Suffix(g.refs.list[z], f.refs.list[z])
  }

  lemma SuffixTransitive(r: seq<Addr>, s: seq<Addr>, t: seq<Addr>)
    requires Suffix(r, s) && Suffix(s, t)
    ensures Suffix(r, t)
  {
  }

  lemma PoppedTransitive(f: Forest, g: Forest, h: Forest, b: set<Addr>)
    requires Popped(f, g, b) && Popped(g, h, b)
    ensures Popped(f, h, b)
  {
    hide Suffix;
    forall z | z in b && z in h.refs.list ensures z in f.refs.list && Suffix(h.refs.list[z], f.refs.list[z]) {
      SuffixTransitive(h.refs.list[z], g.refs.list[z], f.refs.list[z]);
    }
  }

  lemma NothingPopped(f: Forest, g: Forest, b: set<Addr>)
    requires forall z :: z in g.refs.list ==> z in f.refs.list && g.refs.list[z] == f.refs.list[z]
    ensures Popped(f, g, b)
  {
  }

  lemma HandleFreedLists(f: Forest, h: Addr)
    requires Inv(f) && h in f.refs.target
    ensures h in f.dtor && h in f.tree.up && f.refs.target[h] in f.refs.list
    ensures var g := HandleFreed(f, h);
      forall z :: z in g.refs.list ==> z in f.refs.list && g.refs.list[z] == if z == f.refs.target[h] then Drop(f.refs.list[z], {h}) else f.refs.list[z]
  {
    IsHandle(f, h);
    hide Inv;
  }

  lemma HandleFreedPops(f: Forest, h: Addr, b: set<Addr>)
    requires Inv(f) && h in f.refs.target && Outer(f, b)
    requires h in b || (f.refs.target[h] in f.refs.list && f.refs.list[f.refs.target[h]] != [] && h == f.refs.list[f.refs.target[h]][0])
    ensures h in f.dtor && h in f.tree.up && f.refs.target[h] in f.refs.list && Popped(f, HandleFreed(f, h), b)
  {
    hide Inv, HandleFreed, Drop, Down, FreeTheorem.OwnedIn, Suffix;
    HandleFreedLists(f, h);
    var t, g := f.refs.target[h], HandleFreed(f, h);
    forall z | z in b && z in g.refs.list ensures z in f.refs.list && Suffix(g.refs.list[z], f.refs.list[z]) {
      if z == t {
        NewestPopped(f, t, h);
      } else {
        SuffixItself(f.refs.list[z]);
      }
    }
  }

  lemma SuffixItself(s: seq<Addr>)
    ensures Suffix(s, s)
  {
  }

  lemma NewestPopped(f: Forest, t: Addr, h: Addr)
    requires Inv(f) && t in f.refs.list && f.refs.list[t] != [] && h == f.refs.list[t][0]
    ensures Suffix(Drop(f.refs.list[t], {h}), f.refs.list[t])
  {
    assert ListOk(f.refs, t);
    DropHead(f.refs.list[t]);
    hide Inv;
  }

  lemma {:induction false} ChunkPops(f: Forest, c: Addr, rank: map<Addr, int>, b: set<Addr>)
    requires Inv(f) && c in Live(f) && c != f.nullCtx && Ranked(f, rank, NULL) && Ranked(f, rank, c) && Outer(f, b) && c in b
    ensures Popped(f, Free(f, c, rank).0, b)
    decreases Mobile(f), 0, 0
  {
    hide Inv, Ranked, Outer, Popped, Drain, Shrinks, Above, HandleFreed, Emptying;
    KeysAgree(f);
    TargetListed(f, c);
    if f.refs.list[c] != [] {
      FreeReferenced(f, c, rank);
      HandleFreedPops(f, f.refs.list[c][0], b);
    } else if c in f.refs.target {
      FreeOfHandle(f, c, rank);
      HandleFreedPops(f, c, b);
    } else if c in f.tree.out || f.dtor[c] == Refuses {
      NothingPopped(f, f, b);
    } else {
      FreeStep(f, c, rank);
      var e := Emptying(f, c);
      EmptyingOuter(f, c, b);
      DrainPops(e, c, rank, b);
      var g := Drain(e, c, rank);
      EmptyingLists(f, c);
      NothingPopped(f, e, b);
      ReleasedLists(g, c);
      NothingPopped(g, Released(g, c), b);
      PoppedTransitive(f, e, g, b);
      PoppedTransitive(f, g, Released(g, c), b);
    }
  }

  lemma EmptyingLists(f: Forest, p: Addr)
    requires p in f.dtor && p in f.tree.up && p !in f.refs.target
    ensures Emptying(f, p).refs == f.refs
  {
  }

  lemma ReleasedLists(g: Forest, p: Addr)
    ensures forall z :: z in Released(g, p).refs.list ==> z in g.refs.list && Released(g, p).refs.list[z] == g.refs.list[z]
  {
  }

  lemma {:induction false} DrainPops(f: Forest, p: Addr, rank: map<Addr, int>, b: set<Addr>)
    requires Emptied(f, p, rank) && Outer(f, b) && p in b
    ensures Popped(f, Drain(f, p, rank), b)
    decreases Mobile(f), 1, |f.tree.kids[p]|
  {
    hide Inv, Ranked, Outer, Popped, Down, Inside, Drain, Free, NextRound, Shrinks, DrainRound;
    if f.tree.kids[p] == [] {
      DrainNothing(f, p, rank);
      NothingPopped(f, f, b);
    } else {
      var c := f.tree.kids[p][0];
      HolderOk(f, p, c, rank);
      RankedAny(f, rank, c);
      OuterDown(f, b);
      DrainStep(f, p, rank);
      HeadInside(f, p, rank, b);
      RoundInside(f, p, rank, b);
      var g, r := NextRound(f, p, rank), Free(f, c, rank).0;
      SameOut(f, g);
      StillOuter(f, g, b);
      ChunkPops(f, c, rank, b);
      RoundLists(f, p, rank);
      NothingPopped(r, g, b);
      DrainPops(g, p, rank, b);
      PoppedTransitive(f, r, g, b);
      PoppedTransitive(f, g, Drain(g, p, rank), b);
    }
  }

  lemma RoundLists(f: Forest, p: Addr, rank: map<Addr, int>)
    requires Emptied(f, p, rank) && f.tree.kids[p] != []
    ensures var c := f.tree.kids[p][0];
      && c in Live(f) && c != f.nullCtx && Ranked(f, rank, c)
      && NextRound(f, p, rank).refs == Free(f, c, rank).0.refs
  {
    hide Inv, Ranked, Free, Shrinks, Adopter, Holder;
    var c := f.tree.kids[p][0];
    HolderOk(f, p, c, rank);
    RankedAny(f, rank, c);
    var r := Free(f, c, rank);
    if r.1 == -1 {
      RefusedRoundOk(f, p, c, rank, r.0);
    }
  }
}
