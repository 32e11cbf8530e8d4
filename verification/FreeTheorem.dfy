/**
 Which chunks a free releases and who owns the survivors afterwards: reference counting on the
 ownership graph. A chunk dies exactly when all its owners died and its destructor accepts.
 */
module FreeTheorem {
  import opened Seqs
  import opened ChildLists
  import opened RefLists
  import opened Forests
  import opened Ownership
  import opened FreeRounds
  import opened DownSets

  /** Who adopts a chunk that lost all its owners and refuses to be freed. */
  function Fallback(f: Forest, p: Addr): Addr {
    if Up(f.tree.up, p) != NULL then Up(f.tree.up, p) else f.nullCtx
  }

  /** References to chunks in `b` hang from contexts other than the null context. */
  ghost predicate OwnedIn(f: Forest, b: set<Addr>) {
    forall h :: h in f.refs.target && f.refs.target[h] in b ==> Up(f.tree.up, h) != NULL && Up(f.tree.up, h) != f.nullCtx
  }

  ghost predicate Kept(f: Forest, g: Forest, w: set<Addr>, fb: Addr, x: Addr)
    requires Settled(f, x) && Settled(g, x)
  {
    var r := Drop(Owners(f, x), w);
    if r != [] then Owners(g, x) == r else f.dtor[x] == Refuses && Owners(g, x) == [fb]
  }

  ghost predicate Lost(f: Forest, w: set<Addr>, x: Addr)
    requires Settled(f, x)
  {
    f.dtor[x] != Refuses && Drop(Owners(f, x), w) == []
  }

  /** The handles left hang where they hung and target what they targeted. */
  ghost predicate HandlesStay(f: Forest, g: Forest) {
    forall h :: h in g.refs.target ==>
      h in f.refs.target && g.refs.target[h] == f.refs.target[h] && Up(g.tree.up, h) == Up(f.tree.up, h)
  }

  /** Between `f` and `g` the owners in `w` died, apart from `p`, whose death is given: survivors keep
      their surviving owners in order, or were adopted by `fb`; the others lost every owner. */
  ghost predicate Swept(f: Forest, g: Forest, w: set<Addr>, fb: Addr, p: Addr) {
    && HandlesStay(f, g)
    && (forall x :: Settled(g, x) ==> Settled(f, x) && Kept(f, g, w, fb, x))
    && (forall x :: Settled(f, x) && x !in Live(g) && x != p ==> Lost(f, w, x))
  }

  function Dead(f: Forest, g: Forest, p: Addr): set<Addr> {
    (Live(f) - Live(g)) + {p}
  }

  // ------------------------------------------------------------------ one round

  /** A round took `p`, and the owners in `v`, from the owners of `x`, or `x` was adopted. */
  ghost predicate Kept1(f: Forest, g: Forest, v: set<Addr>, fb: Addr, p: Addr, x: Addr)
    requires Settled(f, x) && Settled(g, x)
  {
    || Drop(Owners(g, x), v) == Drop(Owners(f, x), v)
    || (Drop(Owners(f, x), v) == [] && f.dtor[x] == Refuses && (Owners(g, x) == [fb] || Owners(g, x) == [p]))
  }

  ghost predicate Round(f: Forest, g: Forest, v: set<Addr>, fb: Addr, p: Addr) {
    && HandlesStay(f, g)
    && (forall x :: Settled(g, x) ==> Settled(f, x) && f.dtor[x] == g.dtor[x] && Kept1(f, g, v, fb, p, x))
    && (forall x :: Settled(f, x) && x !in Live(g) ==> Lost(f, v, x))
  }

  lemma ComposeKept(f: Forest, g: Forest, h: Forest, v: set<Addr>, w2: set<Addr>, w: set<Addr>, fb: Addr, p: Addr, x: Addr)
    requires Inv(g) && Settled(f, x) && Settled(g, x) && Settled(h, x) && f.dtor[x] == g.dtor[x]
    requires Kept1(f, g, v, fb, p, x) && Kept(g, h, w2, fb, x)
    requires p in w2 && fb !in w2 && w == v + w2 && (forall a :: a in v ==> a == p || a !in Live(g)) && NULL !in v
    ensures Kept(f, h, w, fb, x)
  {
    OwnersLive(g, x);
    hide Inv, Settled;
    var o, o2 := Owners(f, x), Owners(g, x);
    DropUnion(o, v, w2);
    DropUnion(o2, v, w2);
    DropNone(o2, v - {p});
    DropUnion(o2, v - {p}, w2);
    assert (v - {p}) + w2 == w;
    hide Owners;
  }

  lemma ComposeLost(f: Forest, g: Forest, v: set<Addr>, w2: set<Addr>, w: set<Addr>, fb: Addr, p: Addr, x: Addr)
    requires Inv(g) && Settled(f, x) && Settled(g, x) && f.dtor[x] == g.dtor[x]
    requires Kept1(f, g, v, fb, p, x) && Lost(g, w2, x)
    requires p in w2 && w == v + w2 && (forall a :: a in v ==> a == p || a !in Live(g)) && NULL !in v
    ensures Lost(f, w, x)
  {
    OwnersLive(g, x);
    hide Inv, Settled;
    var o, o2 := Owners(f, x), Owners(g, x);
    DropUnion(o, v, w2);
    DropUnion(o2, v, w2);
    DropNone(o2, v - {p});
    DropUnion(o2, v - {p}, w2);
    assert (v - {p}) + w2 == w;
    hide Owners;
  }

  lemma ComposeLost1(f: Forest, v: set<Addr>, w2: set<Addr>, x: Addr)
    requires Settled(f, x) && Lost(f, v, x)
    ensures Lost(f, v + w2, x)
  {
    DropUnion(Owners(f, x), v, w2);
    hide Owners;
  }

  lemma RoundHandleOwners(f: Forest, p: Addr, c: Addr, rank: map<Addr, int>, fb: Addr)
    requires Emptied(f, p, rank) && HeadChild(f, p, c) && c in f.refs.target
    ensures Round(f, HandleFreed(f, c), Dead(f, HandleFreed(f, c), p), fb, p)
  {
    hide Ranked;
    HolderOk(f, p, c, rank);
    HandleFreedStay(f, c);
    var g := HandleFreed(f, c);
    assert Live(g) == Live(f) - {c} by { HandleFreedOk(f, c); }
    var v := Dead(f, g, p);
    hide HandleFreed, HandlesStay, Kept1;
    forall x | Settled(g, x)
      ensures Settled(f, x) && f.dtor[x] == g.dtor[x] && Kept1(f, g, v, fb, p, x)
    {
      HandleFreedKept(f, p, c, v, fb, x);
    }
    hide Inv;
  }

  lemma HandleFreedKept(f: Forest, p: Addr, c: Addr, v: set<Addr>, fb: Addr, x: Addr)
    requires Inv(f) && c in f.refs.target && c in f.tree.up && f.tree.up[c] == p && p in v && Settled(HandleFreed(f, c), x)
    ensures Settled(f, x) && f.dtor[x] == HandleFreed(f, c).dtor[x] && Kept1(f, HandleFreed(f, c), v, fb, p, x)
  {
    assert x != c && Settled(f, x);
    HandleFreedOwners(f, c, x, v);
    hide Inv, Owners;
  }

  /** Child `c` of `p` has newest handle `h` on context `q`; `f1` is the state without that handle. */
  ghost predicate ReferencedChild(f: Forest, p: Addr, c: Addr, h: Addr, q: Addr, f1: Forest) {
    && Inv(f) && h in f.refs.target && f.refs.target[h] == c && h in f.tree.up && f1 == HandleFreed(f, h)
    && Inv(f1) && Live(f1) == Live(f) - {h} && Settled(f, c) && Settled(f1, c) && c != f.nullCtx
    && f.tree.up[c] == p && f.refs.list[c] != [] && h == f.refs.list[c][0] && q == f.tree.up[h]
    && q in Live(f1) && q != c && q != NULL && p in Live(f1)
  }

  lemma IsReferencedChild(f: Forest, p: Addr, c: Addr, rank: map<Addr, int>, b: set<Addr>)
    requires Emptied(f, p, rank) && HeadChild(f, p, c) && c in f.refs.list && f.refs.list[c] != []
    requires OwnedIn(f, b) && c in b
    ensures var h := f.refs.list[c][0];
      h in f.refs.target && h in f.tree.up && f.refs.target[h] in f.refs.list && h in f.dtor
      && f.tree.up[h] != f.nullCtx && ReferencedChild(f, p, c, h, f.tree.up[h], HandleFreed(f, h))
      && Holder(f, c) == f.tree.up[h]
  {
    HolderOk(f, p, c, rank);
    assert ListOk(f.refs, c) && f.refs.list[c][0] in f.refs.list[c];
    var h := f.refs.list[c][0];
    assert h in f.refs.target && HandleOk(f, h) && UpOk(f.tree, h);
    HandleFreedOk(f, h);
    HandleFreedOwners(f, h, c, {});
    assert Up(f.tree.up, h) == f.tree.up[h];
    hide Inv, HandleFreed, Ranked;
  }

  lemma ReferencedOwners(f: Forest, p: Addr, c: Addr, h: Addr, q: Addr, f1: Forest)
    requires ReferencedChild(f, p, c, h, q, f1)
    ensures Settled(Stolen(f1, q, c), c) && Owners(f, c) == [p] + Owners(Stolen(f1, q, c), c)
  {
    assert ListOk(f.refs, c) && h in f.refs.list[c] && HandleOk(f, h);
    DropHead(f.refs.list[c]);
    assert f1.refs.list[c] == f.refs.list[c][1..];
    forall i | 0 <= i < |f1.refs.list[c]| ensures f1.refs.list[c][i] != h {
      assert f1.refs.list[c][i] == f.refs.list[c][i + 1];
    }
    HoldersAgree(f.tree.up, f1.tree.up, f1.refs.list[c]);
    hide Inv, HandleFreed;
    StolenOwners(f1, q, c, c);
    hide Stolen;
  }

  lemma ReferencedKept(f: Forest, p: Addr, c: Addr, h: Addr, q: Addr, f1: Forest, v: set<Addr>, fb: Addr, x: Addr)
    requires ReferencedChild(f, p, c, h, q, f1) && Settled(Stolen(f1, q, c), x) && p in v
    ensures Settled(f, x) && Stolen(f1, q, c).dtor[x] == f.dtor[x]
    ensures Kept1(f, Stolen(f1, q, c), v, fb, p, x)
  {
    ReferencedRest(f, h, q, c, x);
    if x == c {
      ReferencedOwners(f, p, c, h, q, f1);
      hide Inv, HandleFreed, Stolen, Owners;
      assert Owners(f, c)[1..] == Owners(Stolen(f1, q, c), c);
    }
  }

  lemma RoundReferencedOwners(f: Forest, p: Addr, c: Addr, rank: map<Addr, int>, b: set<Addr>, fb: Addr)
    requires Emptied(f, p, rank) && HeadChild(f, p, c) && c in f.refs.list && f.refs.list[c] != []
    requires OwnedIn(f, b) && c in b
    ensures var g := NextRound(f, p, rank); Round(f, g, Dead(f, g, p), fb, p)
  {
    hide Inv, HandleFreed, Ranked, Kept1, Settled, OwnedIn, Holder;
    RoundReferenced(f, p, c, rank);
    IsReferencedChild(f, p, c, rank, b);
    var h := f.refs.list[c][0];
    var q := f.tree.up[h];
    var f1 := HandleFreed(f, h);
    assert f1.nullCtx == f.nullCtx by { HandleFreedSame(f, h); }
    var g := Stolen(f1, q, c);
    assert NextRound(f, p, rank) == g;
    ReferencedRound(f, p, c, h, q, f1, fb);
  }

  lemma HandleFreedSame(f: Forest, h: Addr)
    requires h in f.refs.target && f.refs.target[h] in f.refs.list && h in f.dtor && h in f.tree.up
    ensures HandleFreed(f, h).nullCtx == f.nullCtx
  {
  }

  lemma ReferencedRound(f: Forest, p: Addr, c: Addr, h: Addr, q: Addr, f1: Forest, fb: Addr)
    requires ReferencedChild(f, p, c, h, q, f1)
    ensures var g := Stolen(f1, q, c); Round(f, g, Dead(f, g, p), fb, p)
  {
    var g := Stolen(f1, q, c);
    assert Live(g) == Live(f) - {h} by { MoveInv(f1.tree, q, c); }
    assert HandlesStay(f, g) by { ReferencedStay(f, p, c, h, q, f1); }
    var v := Dead(f, g, p);
    hide Inv, HandleFreed, Kept1, Stolen, Owners, HandlesStay;
    forall x | Settled(g, x)
      ensures Settled(f, x) && f.dtor[x] == g.dtor[x] && Kept1(f, g, v, fb, p, x)
    {
      ReferencedKept(f, p, c, h, q, f1, v, fb, x);
    }
  }

  lemma ReferencedStay(f: Forest, p: Addr, c: Addr, h: Addr, q: Addr, f1: Forest)
    requires ReferencedChild(f, p, c, h, q, f1)
    ensures HandlesStay(f, Stolen(f1, q, c))
  {
    HandleFreedStay(f, h);
    StolenStay(f1, q, c);
    hide Inv, HandleFreed, Stolen, Settled;
  }

  lemma ReferencedRest(f: Forest, h: Addr, q: Addr, c: Addr, x: Addr)
    requires Inv(f) && h in f.refs.target && h in f.tree.up && f.refs.target[h] == c && Inv(HandleFreed(f, h))
    requires Settled(HandleFreed(f, h), c) && c != f.nullCtx && q in Live(HandleFreed(f, h)) && q != c && q != NULL
    requires Settled(Stolen(HandleFreed(f, h), q, c), x)
    ensures Settled(f, x) && Stolen(HandleFreed(f, h), q, c).dtor[x] == f.dtor[x]
    ensures x != c ==> Owners(Stolen(HandleFreed(f, h), q, c), x) == Owners(f, x)
  {
    var f1 := HandleFreed(f, h);
    MoveInv(f1.tree, q, c);
    assert Settled(f1, x);
    HandleFreedOwners(f, h, x, {});
    StolenOwners(f1, q, c, x);
    hide Inv, Stolen;
  }

  lemma RoundRefusedOwners(f: Forest, p: Addr, c: Addr, rank: map<Addr, int>)
    requires Emptied(f, p, rank) && HeadChild(f, p, c) && c in f.refs.list && f.refs.list[c] == []
    requires c in f.dtor && f.dtor[c] == Refuses && c !in f.refs.target
    requires Up(f.tree.up, p) != NULL ==> Up(f.tree.up, p) in Live(f)
    ensures var g := NextRound(f, p, rank); Round(f, g, Dead(f, g, p), Fallback(f, p), p)
  {
    hide Ranked, Stolen, Settled;
    RoundRefused(f, p, c, rank);
    HolderOk(f, p, c, rank);
    RefusedRoundHolds(f, p, c, rank);
    AdopterOk(f, p, c, rank, f);
    var a := Adopter(f, p, f.nullCtx);
    assert p in f.tree.up && UpOk(f.tree, p) && NULL !in Live(f);
    assert (if a == NULL then f.nullCtx else a) == Fallback(f, p);
    assert Settled(f, c) by { SettledChild(f, c); }
    hide Inv, Fallback, Adopter;
    RefusedOwnersRound(f, p, a, c);
  }

  lemma SettledChild(f: Forest, c: Addr)
    requires Inv(f) && c in Live(f) && c !in f.tree.out && c !in f.refs.target
    ensures Settled(f, c)
  {
  }

  lemma RefusedOwnersRound(f: Forest, p: Addr, a: Addr, c: Addr)
    requires Inv(f) && Settled(f, c) && c != f.nullCtx && (a == NULL || (a in Live(f) && a != c && a !in f.refs.target))
    requires f.dtor[c] == Refuses && f.tree.up[c] == p && f.refs.list[c] == []
    ensures var g := Stolen(f, a, c); Round(f, g, Dead(f, g, p), if a == NULL then f.nullCtx else a, p)
  {
    var g := Stolen(f, a, c);
    var v, fb := Dead(f, g, p), if a == NULL then f.nullCtx else a;
    StolenStay(f, a, c);
    assert Live(g) == Live(f) by { StolenInv(f, a, c); }
    hide Inv, Stolen, HandlesStay, Kept1;
    forall x | Settled(g, x)
      ensures Settled(f, x) && f.dtor[x] == g.dtor[x] && Kept1(f, g, v, fb, p, x)
    {
      RefusedKept(f, p, a, c, v, x);
    }
  }

  lemma RefusedKept(f: Forest, p: Addr, a: Addr, c: Addr, v: set<Addr>, x: Addr)
    requires Inv(f) && Settled(f, c) && c != f.nullCtx && (a == NULL || (a in Live(f) && a != c && a !in f.refs.target))
    requires f.dtor[c] == Refuses && f.tree.up[c] == p && f.refs.list[c] == [] && p in v
    requires Settled(Stolen(f, a, c), x)
    ensures Settled(f, x) && f.dtor[x] == Stolen(f, a, c).dtor[x]
    ensures Kept1(f, Stolen(f, a, c), v, if a == NULL then f.nullCtx else a, p, x)
  {
    RefusedRest(f, a, c, x);
    assert Owners(f, c) == [p];
    hide Inv, Stolen, Owners, Settled;
  }

  lemma RefusedRoundHolds(f: Forest, p: Addr, c: Addr, rank: map<Addr, int>)
    requires Emptied(f, p, rank) && HeadChild(f, p, c) && c in f.refs.list && f.refs.list[c] == []
    requires c in f.dtor && f.dtor[c] == Refuses && c !in f.refs.target
    ensures RefusedRound(f, p, c, rank, f)
  {
    RankedAny(f, rank, c);
    ShrinksItself(f);
    hide Inv, Ranked, Shrinks;
  }

  lemma RefusedRest(f: Forest, a: Addr, c: Addr, x: Addr)
    requires Inv(f) && Settled(f, c) && c != f.nullCtx && (a == NULL || (a in Live(f) && a != c))
    requires Settled(Stolen(f, a, c), x)
    ensures Settled(f, x) && Stolen(f, a, c).dtor[x] == f.dtor[x]
    ensures Owners(Stolen(f, a, c), x) ==
            if x == c then [if a == NULL then f.nullCtx else a] + Owners(f, x)[1..] else Owners(f, x)
  {
    MoveInv(f.tree, if a == NULL then f.nullCtx else a, c);
    assert Settled(f, x);
    StolenOwners(f, a, c, x);
    hide Inv, Stolen;
  }

  lemma RoundAcceptedOwners(f: Forest, p: Addr, c: Addr, rank: map<Addr, int>, g: Forest, fb: Addr)
    requires Emptied(f, p, rank) && HeadChild(f, p, c) && c in f.refs.list && f.refs.list[c] == []
    requires c in f.dtor && f.dtor[c] != Refuses && c in f.tree.up && f.tree.up[c] == p && p != NULL
    requires Shrinks(f, g) && c !in Live(g) && c in Live(f)
    requires Swept(f, g, Dead(f, g, c), Fallback(f, c), c)
    ensures Round(f, g, Dead(f, g, p), fb, p)
  {
    hide Inv;
    var v, w1 := Dead(f, g, p), Dead(f, g, c);
    assert v == w1 + {p};
    forall x | Settled(g, x)
      ensures Settled(f, x) && f.dtor[x] == g.dtor[x] && Kept1(f, g, v, fb, p, x)
    {
      DropUnion(Owners(f, x), w1, v);
      DropUnion(Owners(f, x), w1, {p});
      assert w1 + v == v;
    }
    forall x | Settled(f, x) && x !in Live(g)
      ensures Lost(f, v, x)
    {
      if x != c {
        ComposeLost1(f, w1, {p}, x);
      }
    }
    hide Owners;
  }

  // ------------------------------------------------------------------ all rounds

  /** Nothing above `p` goes while `p` is emptied: every released chunk that is not a handle ranks higher. */
  lemma {:induction false} DrainReleasesAbove(f: Forest, p: Addr, rank: map<Addr, int>, x: Addr)
    requires Emptied(f, p, rank)
    requires x in Live(f) && x !in f.refs.target && x !in Live(Drain(f, p, rank))
    ensures Rk(rank, p) < Rk(rank, x)
    decreases Mobile(f), 1, |f.tree.kids[p]|
  {
    hide Shrinks, Ranked, Inv, Drain, Free, NextRound, DrainRound;
    if f.tree.kids[p] == [] {
      DrainNothing(f, p, rank);
    } else {
      DrainStep(f, p, rank);
      var g := NextRound(f, p, rank);
      var c := f.tree.kids[p][0];
      HolderOk(f, p, c, rank);
      RankedAny(f, rank, c);
      ChildRank(f, p, c, rank);
      TargetsShrink(f, g);
      if x in Live(g) {
        DrainReleasesAbove(g, p, rank, x);
      } else {
        RoundLive(f, p, rank);
        FreeReleasesAbove(f, c, rank, x);
      }
    }
  }

  lemma ChildRank(f: Forest, p: Addr, c: Addr, rank: map<Addr, int>)
    requires Ranked(f, rank, NULL) && c in f.tree.up && f.tree.up[c] == p && Inv(f) && p in Live(f)
    ensures Rk(rank, p) < Rk(rank, c)
  {
    assert p in f.tree.up && UpOk(f.tree, p);
  }

  lemma TargetsShrink(f: Forest, g: Forest)
    requires Shrinks(f, g)
    ensures forall x :: x in g.refs.target ==> x in f.refs.target
    ensures Live(g) <= Live(f)
  {
  }

  lemma RoundLive(f: Forest, p: Addr, rank: map<Addr, int>)
    requires Emptied(f, p, rank) && f.tree.kids[p] != []
    ensures var c := f.tree.kids[p][0];
      && c in Live(f) && c != f.nullCtx && Ranked(f, rank, c)
      && Live(NextRound(f, p, rank)) == Live(Free(f, c, rank).0)
  {
    var c := f.tree.kids[p][0];
    HolderOk(f, p, c, rank);
    RankedAny(f, rank, c);
    var r := Free(f, c, rank);
    hide Shrinks, Ranked, Free, Drain;
    if r.1 == -1 {
      RefusedRoundOk(f, p, c, rank, r.0);
      AdopterOk(f, p, c, rank, r.0);
      hide Inv;
      StolenInv(r.0, Adopter(r.0, p, Holder(f, c)), c);
    }
  }

  lemma {:induction false} FreeReleasesAbove(f: Forest, p: Addr, rank: map<Addr, int>, x: Addr)
    requires Inv(f) && p in Live(f) && p != f.nullCtx && Ranked(f, rank, NULL) && Ranked(f, rank, p)
    requires x in Live(f) && x !in f.refs.target && x !in Live(Free(f, p, rank).0)
    ensures Rk(rank, p) <= Rk(rank, x)
    decreases Mobile(f), 0, 0
  {
    if x != p {
      FreeReleasesOnlyIf(f, p, rank, x);
      FreeStep(f, p, rank);
      EmptyingFacts(f, p);
      hide Shrinks, Inv, Free, Drain, Ranked, Emptying;
      DrainReleasesAbove(Emptying(f, p), p, rank, x);
    }
  }

  /** A free that releases a chunk which is no handle goes through the emptying loop. */
  lemma FreeReleasesOnlyIf(f: Forest, p: Addr, rank: map<Addr, int>, x: Addr)
    requires Inv(f) && p in Live(f) && p != f.nullCtx && Ranked(f, rank, NULL) && Ranked(f, rank, p)
    requires x in Live(f) && x !in f.refs.target && x !in Live(Free(f, p, rank).0)
    ensures f.refs.list[p] == [] && p !in f.tree.out && f.dtor[p] != Refuses
  {
    var hs := f.refs.list[p];
    hide Shrinks, Drain, Inv, Ranked;
    if hs != [] {
      FreeReferenced(f, p, rank);
    }
  }

  /** The parent that `p` had outlives the emptying of `p`. */
  ghost predicate ParentLives(f: Forest, p: Addr) {
    Up(f.tree.up, p) != NULL ==> Up(f.tree.up, p) in Live(f) && Up(f.tree.up, p) !in f.refs.target
  }

  lemma ParentSurvives(f: Forest, p: Addr, rank: map<Addr, int>)
    requires Emptied(f, p, rank) && ParentLives(f, p)
    ensures var g := Drain(f, p, rank);
      Up(g.tree.up, p) == Up(f.tree.up, p) && ParentLives(g, p) && Fallback(g, p) == Fallback(f, p)
      && Fallback(f, p) !in Dead(f, g, p)
  {
    var g := Drain(f, p, rank);
    var q := Up(f.tree.up, p);
    assert p in f.tree.up && UpOk(f.tree, p);
    assert q != p && (q != NULL ==> Rk(rank, q) < Rk(rank, p));
    assert NULL !in Live(f) && NULL != p;
    hide Ranked, Drain;
    if q != NULL && q !in Live(g) {
      DrainReleasesAbove(f, p, rank, q);
    }
  }

  /** The same facts across a single round. */
  lemma ParentStaysPut(f: Forest, g: Forest, h: Forest, p: Addr, rank: map<Addr, int>)
    requires Emptied(f, p, rank) && Emptied(g, p, rank) && Shrinks(f, g) && Shrinks(g, h) && Inv(h)
    requires ParentLives(f, p) && p in Live(h)
    requires Up(h.tree.up, p) == Up(f.tree.up, p) && ParentLives(h, p)
    ensures Up(g.tree.up, p) == Up(f.tree.up, p) && ParentLives(g, p) && Fallback(g, p) == Fallback(f, p)
  {
    hide Ranked;
  }

  lemma OwnedStays(f: Forest, g: Forest, b: set<Addr>)
    requires OwnedIn(f, b) && HandlesStay(f, g) && g.nullCtx == f.nullCtx
    ensures OwnedIn(g, b)
  {
  }

  lemma StolenStay(f: Forest, q: Addr, c: Addr)
    requires Inv(f) && Settled(f, c) && (q == NULL || q in Live(f))
    ensures HandlesStay(f, Stolen(f, q, c))
  {
    var q1 := if q == NULL then f.nullCtx else q;
    if c != q1 {
      MoveInv(f.tree, q1, c);
      hide Inv, Move;
    }
  }

  lemma HandleFreedStay(f: Forest, h: Addr)
    requires Inv(f) && h in f.refs.target
    ensures h in f.tree.up && HandlesStay(f, HandleFreed(f, h))
  {
    assert HandleOk(f, h);
    hide Inv;
  }

  lemma DeadSplits(f: Forest, g: Forest, h: Forest, p: Addr)
    requires Inv(f) && Shrinks(f, g) && Shrinks(g, h) && p in Live(f)
    ensures Dead(f, h, p) == Dead(f, g, p) + Dead(g, h, p) && NULL !in Dead(f, g, p)
    ensures forall a :: a in Dead(f, g, p) ==> a == p || a !in Live(g)
  {
    NoNull(f, p);
    hide Inv;
  }

  lemma DeadHas(g: Forest, h: Forest, p: Addr)
    ensures p in Dead(g, h, p)
  {
  }

  lemma SweepSteps(f: Forest, g: Forest, h: Forest, fb: Addr, p: Addr)
    requires Inv(f) && Inv(g) && Shrinks(f, g) && Shrinks(g, h) && p in Live(f)
    requires Round(f, g, Dead(f, g, p), fb, p) && Swept(g, h, Dead(g, h, p), fb, p)
    requires fb !in Dead(g, h, p)
    ensures Swept(f, h, Dead(f, h, p), fb, p)
  {
    hide Inv, Shrinks, Kept, Kept1, Lost, Dead, Settled, Live;
    var v, w2, w := Dead(f, g, p), Dead(g, h, p), Dead(f, h, p);
    assert p in w2 by { DeadHas(g, h, p); }
    DeadSplits(f, g, h, p);
    forall x | Settled(h, x)
      ensures Settled(f, x) && Kept(f, h, w, fb, x)
    {
      ComposeKept(f, g, h, v, w2, w, fb, p, x);
    }
    forall x | Settled(f, x) && x !in Live(h) && x != p
      ensures Lost(f, w, x)
    {
      if x in Live(g) {
        SettledBetween(f, g, x);
        ComposeLost(f, g, v, w2, w, fb, p, x);
      } else {
        ComposeLost1(f, v, w2, x);
      }
    }
  }

  lemma NoNull(f: Forest, p: Addr)
    requires Inv(f) && p in Live(f)
    ensures NULL !in Live(f) && p != NULL
  {
    assert forall a :: a in f.tree.up ==> UpOk(f.tree, a);
  }

  lemma SettledBetween(f: Forest, g: Forest, x: Addr)
    requires Inv(f) && Inv(g) && Shrinks(f, g) && Settled(f, x) && x in Live(g)
    ensures Settled(g, x)
  {
  }

  lemma SweepNothing(f: Forest, p: Addr, fb: Addr)
    requires Inv(f) && p in f.tree.out && f.tree.kids[p] == [] && p in Live(f)
    ensures Swept(f, f, Dead(f, f, p), fb, p)
  {
    assert Dead(f, f, p) == {p};
    forall x | Settled(f, x)
      ensures Kept(f, f, {p}, fb, x)
    {
      NoOwnerWithoutChild(f, p, x);
      hide Inv, Settled;
      DropNone(Owners(f, x), {p});
    }
    hide Inv, Owners;
  }

  /** A chunk without children owns nothing: its handles are children too. */
  lemma NoOwnerWithoutChild(f: Forest, p: Addr, x: Addr)
    requires Inv(f) && p in Live(f) && f.tree.kids[p] == [] && Settled(f, x)
    ensures forall i :: 0 <= i < |Owners(f, x)| ==> Owners(f, x)[i] != p
  {
    NoNull(f, p);
    var hs := f.refs.list[x];
    assert UpOk(f.tree, x) && ListOk(f.refs, x);
    forall i | 0 <= i < |hs| ensures Up(f.tree.up, hs[i]) != p {
      assert hs[i] in hs && HandleOk(f, hs[i]) && UpOk(f.tree, hs[i]);
    }
  }

  /** What emptying `p` comes to, for every chunk at once. */
  lemma {:induction false} DrainSweeps(f: Forest, p: Addr, rank: map<Addr, int>, b: set<Addr>)
    requires Emptied(f, p, rank) && ParentLives(f, p) && Down(f, b) && p in b && OwnedIn(f, b)
    ensures var g := Drain(f, p, rank); Swept(f, g, Dead(f, g, p), Fallback(f, p), p)
    decreases Mobile(f), 1, |f.tree.kids[p]|
  {
    hide Ranked, Shrinks, Inv, Drain, Free, NextRound, DrainRound, ParentLives, OwnedIn, Swept, Round, Fallback, Down, Inside;
    if f.tree.kids[p] == [] {
      DrainNothing(f, p, rank);
      SweepNothing(f, p, Fallback(f, p));
    } else {
      DrainStep(f, p, rank);
      var g := NextRound(f, p, rank);
      var h := Drain(f, p, rank);
      RoundSweeps(f, p, rank, b);
      ParentSurvives(f, p, rank);
      ParentStaysPut(f, g, h, p, rank);
      assert OwnedIn(g, b) by { RoundStays(f, g, Dead(f, g, p), Fallback(f, p), p); SameOut(f, g); OwnedStays(f, g, b); }
      assert Down(g, b) by { RoundInside(f, p, rank, b); InsideDown(f, g, b); }
      ParentSurvives(g, p, rank);
      DrainSweeps(g, p, rank, b);
      SweepSteps(f, g, h, Fallback(f, p), p);
    }
  }

  lemma RoundStays(f: Forest, g: Forest, v: set<Addr>, fb: Addr, p: Addr)
    requires Round(f, g, v, fb, p)
    ensures HandlesStay(f, g)
  {
  }

  lemma {:induction false} RoundSweeps(f: Forest, p: Addr, rank: map<Addr, int>, b: set<Addr>)
    requires Emptied(f, p, rank) && ParentLives(f, p) && f.tree.kids[p] != [] && Down(f, b) && p in b && OwnedIn(f, b)
    ensures var g := NextRound(f, p, rank); Round(f, g, Dead(f, g, p), Fallback(f, p), p)
    decreases Mobile(f), 1, 0
  {
    var c := f.tree.kids[p][0];
    HolderOk(f, p, c, rank);
    NoNull(f, p);
    HeadInside(f, p, rank, b);
    assert c in f.dtor && c in f.tree.up;
    hide Ranked, Shrinks, Drain, Free, OwnedIn, Fallback, DrainRound, Round, Down;
    if c in f.refs.target {
      RoundHandle(f, p, c, rank);
      RoundHandleOwners(f, p, c, rank, Fallback(f, p));
    } else if f.refs.list[c] != [] {
      RoundReferencedOwners(f, p, c, rank, b, Fallback(f, p));
    } else if f.dtor[c] == Refuses {
      RoundRefusedOwners(f, p, c, rank);
    } else {
      RoundAccepted(f, p, c, rank);
      var g := Free(f, c, rank).0;
      FreeSweeps(f, c, rank, b);
      RoundAcceptedOwners(f, p, c, rank, g, Fallback(f, p));
    }
  }

  /** What freeing an unreferenced chunk comes to when its destructor accepts, `b` holding what lies below it. */
  lemma {:induction false} FreeSweeps(f: Forest, p: Addr, rank: map<Addr, int>, b: set<Addr>)
    requires Inv(f) && p in Live(f) && p != f.nullCtx && Ranked(f, rank, p)
    requires f.refs.list[p] == [] && p !in f.tree.out && f.dtor[p] != Refuses && p !in f.refs.target
    requires Down(f, b) && p in b && OwnedIn(f, b)
    ensures var g := Free(f, p, rank).0; Swept(f, g, Dead(f, g, p), Fallback(f, p), p)
    decreases Mobile(f), 0, 0
  {
    hide Inv, Ranked, Shrinks, Drain, Free, OwnedIn, Fallback, ParentLives, Emptying, Swept, Down, Inside;
    KeysAgree(f);
    FreeStep(f, p, rank);
    EmptyingFacts(f, p);
    var e := Emptying(f, p);
    EmptyingParent(f, p, b);
    EmptyingInside(f, p, b);
    InsideDown(f, e, b);
    var g := Drain(e, p, rank);
    DrainSweeps(e, p, rank, b);
    assert p in g.tree.out && p !in g.refs.target by { StillMarked(e, p, g); }
    SweepReleased(f, p, g, Fallback(f, p));
  }

  lemma StillMarked(e: Forest, p: Addr, g: Forest)
    requires Inv(e) && p in e.tree.out && Shrinks(e, g)
    ensures p in g.tree.out && (p !in e.refs.target ==> p !in g.refs.target)
  {
  }

  lemma EmptyingParent(f: Forest, p: Addr, b: set<Addr>)
    requires Inv(f) && p in Live(f) && p !in f.tree.out && p !in f.refs.target && OwnedIn(f, b)
    ensures var e := Emptying(f, p); ParentLives(e, p) && OwnedIn(e, b) && Fallback(e, p) == Fallback(f, p)
  {
    EmptyingFacts(f, p);
    assert p in f.tree.up && UpOk(f.tree, p);
    assert f.tree.up[p] in f.refs.target ==> HandleOk(f, f.tree.up[p]);
    hide Emptying;
  }

  lemma SweepReleased(f: Forest, p: Addr, g: Forest, fb: Addr)
    requires Inv(f) && p in Live(f) && p !in f.tree.out && p !in f.refs.target
    requires Inv(g) && p in g.tree.out && p !in g.refs.target
    requires Swept(Emptying(f, p), g, Dead(Emptying(f, p), g, p), fb, p)
    ensures Swept(f, Released(g, p), Dead(f, Released(g, p), p), fb, p)
  {
    hide Inv, Emptying, Kept, Lost, HandlesStay, Dead;
    KeysAgree(f);
    var e, r := Emptying(f, p), Released(g, p);
    EmptyingFacts(f, p);
    var w := Dead(e, g, p);
    ReleasedDead(f, p, g);
    forall x | Settled(r, x)
      ensures Settled(f, x) && Kept(f, r, w, fb, x)
    {
      assert Settled(g, x);
      EmptyingOwners(f, p, x);
      ReleasedOwners(g, p, x);
      KeptSame(e, g, f, r, w, fb, x);
    }
    forall x | Settled(f, x) && x !in Live(r) && x != p
      ensures Lost(f, w, x)
    {
      EmptyingOwners(f, p, x);
      LostSame(e, f, w, x);
    }
  }

  lemma ReleasedDead(f: Forest, p: Addr, g: Forest)
    requires Inv(f) && p in Live(f) && p !in f.refs.target && p !in g.refs.target && HandlesStay(Emptying(f, p), g)
    ensures Dead(Emptying(f, p), g, p) == Dead(f, Released(g, p), p) && HandlesStay(f, Released(g, p))
  {
    EmptyingFacts(f, p);
    hide Inv, Emptying;
  }

  lemma EmptyingOwners(f: Forest, p: Addr, x: Addr)
    requires Inv(f) && p in Live(f) && p !in f.refs.target && x != p
    ensures Settled(Emptying(f, p), x) <==> Settled(f, x)
    ensures Settled(f, x) ==> Owners(Emptying(f, p), x) == Owners(f, x) && Emptying(f, p).dtor[x] == f.dtor[x]
  {
    EmptyingFacts(f, p);
    hide Inv;
  }

  lemma ReleasedOwners(g: Forest, p: Addr, x: Addr)
    requires Inv(g) && p !in g.refs.target && x != p && Settled(g, x)
    ensures Settled(Released(g, p), x) && Owners(Released(g, p), x) == Owners(g, x)
  {
    assert ListOk(g.refs, x);
    HoldersAgree(g.tree.up, g.tree.up - {p}, g.refs.list[x]);
    hide Inv;
  }

  lemma KeptSame(e: Forest, g: Forest, f: Forest, r: Forest, w: set<Addr>, fb: Addr, x: Addr)
    requires Settled(e, x) && Settled(g, x) && Settled(f, x) && Settled(r, x) && Kept(e, g, w, fb, x)
    requires Owners(e, x) == Owners(f, x) && e.dtor[x] == f.dtor[x] && Owners(r, x) == Owners(g, x)
    ensures Kept(f, r, w, fb, x)
  {
  }

  lemma LostSame(e: Forest, f: Forest, w: set<Addr>, x: Addr)
    requires Settled(e, x) && Settled(f, x) && Lost(e, w, x)
    requires Owners(e, x) == Owners(f, x) && e.dtor[x] == f.dtor[x]
    ensures Lost(f, w, x)
  {
  }
}
