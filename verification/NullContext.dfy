/**
 Freeing the null context: the loop over its children, and exactly when it ends.
 */
module NullContext {
  import opened Seqs
  import opened ChildLists
  import opened RefLists
  import opened Forests
  import opened FreeRounds
  import opened Acyclicity
  import opened TopLevel

  /** There is a null context, it is the only root, and nothing is being freed. */
  ghost predicate Tracked(f: Forest, rank: map<Addr, int>) {
    Inv(f) && f.nullCtx != NULL && f.tree.out == {} && Ranked(f, rank, NULL) && Rooted(f)
  }

  /** `x` refuses. */
  predicate Resists(f: Forest, x: Addr) {
    x in f.dtor && f.dtor[x] == Refuses
  }

  // ------------------------------------------------------------------ refusing chunks survive every free

  lemma HandleFreedResists(f: Forest, h: Addr, x: Addr)
    requires Inv(f) && h in f.refs.target && Resists(f, x)
    ensures h in f.dtor && h in f.tree.up && f.refs.target[h] in f.refs.list && Resists(HandleFreed(f, h), x)
  {
    IsHandle(f, h);
    hide Inv;
  }

  lemma EmptyingResists(f: Forest, p: Addr, x: Addr)
    requires Inv(f) && p in Live(f) && Resists(f, x) && x != p
    ensures p in f.dtor && p in f.tree.up && (p in f.refs.target ==> f.refs.target[p] in f.refs.list) && Resists(Emptying(f, p), x)
  {
    KeysAgree(f);
    EmptyingFacts(f, p);
    hide Inv;
  }

  lemma {:induction false} FreeResists(f: Forest, p: Addr, rank: map<Addr, int>, x: Addr)
    requires Inv(f) && p in Live(f) && p != f.nullCtx && Ranked(f, rank, p) && Resists(f, x)
    ensures Resists(Free(f, p, rank).0, x)
    decreases Mobile(f), 0, 0
  {
    hide Inv, Ranked, Drain, Shrinks, Above, HandleFreed, Emptying;
    KeysAgree(f);
    if f.refs.list[p] != [] {
      var h := f.refs.list[p][0];
      StillFreeable(f, p, h, rank);
      HandleFreedResists(f, h, x);
      if Above(f.tree, p, h) {
        FreeResists(HandleFreed(f, h), p, rank, x);
      }
    } else if p !in f.tree.out && f.dtor[p] != Refuses {
      FreeStep(f, p, rank);
      EmptyingResists(f, p, x);
      DrainResists(Emptying(f, p), p, rank, x);
    }
  }

  lemma {:induction false} DrainResists(f: Forest, p: Addr, rank: map<Addr, int>, x: Addr)
    requires Emptied(f, p, rank) && Resists(f, x)
    ensures Resists(Drain(f, p, rank), x)
    decreases Mobile(f), 1, |f.tree.kids[p]|
  {
    hide Inv, Ranked, Free, Drain, Shrinks, DrainRound;
    if f.tree.kids[p] == [] {
      DrainNothing(f, p, rank);
    } else {
      var c := f.tree.kids[p][0];
      HolderOk(f, p, c, rank);
      RankedAny(f, rank, c);
      FreeResists(f, c, rank, x);
      DrainStep(f, p, rank);
      RoundResists(f, p, c, rank, Free(f, c, rank), x);
      DrainResists(NextRound(f, p, rank), p, rank, x);
    }
  }

  lemma RoundResists(f: Forest, p: Addr, c: Addr, rank: map<Addr, int>, r: (Forest, int), x: Addr)
    requires Emptied(f, p, rank) && HeadChild(f, p, c) && FreePost(f, c, rank, r.0, r.1) && Resists(r.0, x)
    ensures Resists(DrainRound(f, p, c, rank, r), x)
  {
    hide Inv, Ranked, Shrinks, Adopter, Holder;
    if r.1 == -1 {
      RefusedRoundOk(f, p, c, rank, r.0);
    }
  }

  // ------------------------------------------------------------------ one round

  /** The first child of the null context. */
  lemma HeadOfNull(f: Forest, rank: map<Addr, int>)
    requires Tracked(f, rank)
    ensures f.nullCtx in Live(f) && f.nullCtx in f.tree.up && f.tree.up[f.nullCtx] == NULL && f.nullCtx !in f.refs.target && NULL !in Live(f)
    ensures f.tree.kids[f.nullCtx] != [] ==>
      var c := f.tree.kids[f.nullCtx][0];
      && c in Live(f) && c != f.nullCtx && Ranked(f, rank, c) && c in f.refs.list && c in f.dtor && c in f.tree.up && f.tree.up[c] == f.nullCtx
      && (f.refs.list[c] != [] ==> f.refs.list[c][0] in f.tree.up)
  {
    NullCtxLive(f);
    KeysAgree(f);
    var s := f.tree.kids[f.nullCtx];
    if s != [] {
      assert KidsOk(f.tree, f.nullCtx);
      ChildUp(f.tree, f.nullCtx, 0);
      RankedAny(f, rank, s[0]);
      if f.refs.list[s[0]] != [] {
        NewestHangs(f, s[0]);
      }
    }
    hide Ranked, RefsInv;
  }

  lemma NewestHangs(f: Forest, c: Addr)
    requires Inv(f) && c in f.refs.list && f.refs.list[c] != []
    ensures var h := f.refs.list[c][0];
      && h in f.refs.target && f.refs.target[h] == c && h in f.tree.up
      && (f.tree.up[h] == NULL || (f.tree.up[h] in Live(f) && f.tree.up[h] !in f.refs.target))
  {
    assert ListOk(f.refs, c);
    Targets(f.refs, c, 0);
    var h := f.refs.list[c][0];
    IsHandle(f, h);
    assert UpOk(f.tree, h);
    assert f.tree.up[h] in f.refs.target ==> HandleOk(f, f.tree.up[h]);
    hide RefsInv;
  }

  /** Who takes the child over ranks below it and is still there. */
  lemma TakerOk(f: Forest, rank: map<Addr, int>, g: Forest)
    requires Tracked(f, rank) && f.tree.kids[f.nullCtx] != [] && Inv(g) && Shrinks(f, g) && OnlyHandlesGone(f, g)
    requires f.tree.kids[f.nullCtx][0] !in f.refs.target
    ensures var c := f.tree.kids[f.nullCtx][0];
      && c in Live(g) && c in g.tree.up && c !in g.refs.target && c !in g.tree.out && g.nullCtx == f.nullCtx && g.nullCtx in g.tree.kids && g.nullCtx in g.tree.up
      && c in f.refs.list && (f.refs.list[c] != [] ==> f.refs.list[c][0] in f.tree.up)
      && var q := Adopter(g, f.nullCtx, Holder(f, c)); q == Holder(f, c) && q in Live(g) && q !in g.refs.target && Rk(rank, q) < Rk(rank, c)
  {
    hide TreeInv, RefsInv;
    HeadOfNull(f, rank);
    KeysAgree(g);
    var c := f.tree.kids[f.nullCtx][0];
    if f.refs.list[c] != [] {
      NewestHangs(f, c);
    }
  }

  /** The round of the loop that deals with the first child of the null context, whose own parent is NULL. */
  ghost function NullRound(f: Forest, rank: map<Addr, int>): (g: Forest)
    requires Tracked(f, rank) && f.tree.kids[f.nullCtx] != []
  {
    HeadOfNull(f, rank);
    var c := f.tree.kids[f.nullCtx][0];
    var r := Free(f, c, rank);
    if r.1 == -1 then
      TakerOk(f, rank, r.0);
      Stolen(r.0, Adopter(r.0, f.nullCtx, Holder(f, c)), c)
    else r.0
  }

  /** A round keeps the state in order, and makes progress unless the first child is not referenced and refuses. */
  lemma RoundKeeps(f: Forest, rank: map<Addr, int>)
    requires Tracked(f, rank) && f.tree.kids[f.nullCtx] != []
    ensures var c, g := f.tree.kids[f.nullCtx][0], NullRound(f, rank);
      && c in f.refs.list && c in f.dtor && Tracked(g, rank) && Shrinks(f, g) && Mobile(g) <= Mobile(f)
      && (f.refs.list[c] != [] || f.dtor[c] != Refuses ==> Mobile(g) < Mobile(f))
  {
    hide Inv, Ranked, Rooted, Free, Stolen, Adopter, Holder, Mobile, Shrinks;
    HeadOfNull(f, rank);
    var c := f.tree.kids[f.nullCtx][0];
    var r := Free(f, c, rank);
    assert Ranked(r.0, rank, NULL);
    FreeRooted(f, c, rank);
    SameOut(f, r.0);
    ShrinksMobile(f, r.0);
    OnlyRefuserStays(f, c, rank);
    if r.1 == -1 {
      var g := NullRound(f, rank);
      TakerOk(f, rank, r.0);
      var q := Holder(f, c);
      StolenInv(r.0, q, c);
      StolenRanked(r.0, q, c, rank);
      StolenShrinks(r.0, q, c);
      StolenRooted(r.0, q, c);
      SameOut(r.0, g);
      ShrinksMobile(r.0, g);
      ShrinksTransitive(f, r.0, g);
    } else {
      MobileShrinks(f, r.0, c);
    }
  }

  /** A free that does not make progress has met a refusal. */
  lemma OnlyRefuserStays(f: Forest, c: Addr, rank: map<Addr, int>)
    requires Inv(f) && c in Live(f) && c != f.nullCtx && Ranked(f, rank, c) && c in f.refs.list && c in f.dtor && f.tree.out == {}
    ensures var r := Free(f, c, rank);
      (r.1 == -1 ==> Mobile(r.0) < Mobile(f) || (f.refs.list[c] == [] && f.dtor[c] == Refuses)) && (r.1 != -1 ==> c !in Live(r.0))
  {
    hide Inv, Ranked, Shrinks, OnlyHandlesGone;
    if f.refs.list[c] == [] && f.dtor[c] != Refuses {
      FreeStep(f, c, rank);
    }
  }

  lemma RoundResistsToo(f: Forest, rank: map<Addr, int>, x: Addr)
    requires Tracked(f, rank) && f.tree.kids[f.nullCtx] != [] && Resists(f, x)
    ensures Resists(NullRound(f, rank), x)
  {
    hide Inv, Ranked, Rooted, Free, Adopter, Holder;
    HeadOfNull(f, rank);
    var c := f.tree.kids[f.nullCtx][0];
    FreeResists(f, c, rank, x);
    if Free(f, c, rank).1 == -1 {
      TakerOk(f, rank, Free(f, c, rank).0);
    }
  }

  /** A round changes nothing exactly when the first child is not referenced and refuses. */
  lemma StuckExactly(f: Forest, rank: map<Addr, int>)
    requires Tracked(f, rank) && f.tree.kids[f.nullCtx] != []
    ensures var c := f.tree.kids[f.nullCtx][0];
      && c in f.refs.list && c in f.dtor
      && (NullRound(f, rank) == f <==> f.refs.list[c] == [] && f.dtor[c] == Refuses)
  {
    hide Inv, Ranked, Rooted, Stolen, Drain, Shrinks;
    HeadOfNull(f, rank);
    RoundKeeps(f, rank);
    var c := f.tree.kids[f.nullCtx][0];
    if f.refs.list[c] == [] && f.dtor[c] == Refuses {
      HandedBack(f, rank, c);
    }
  }

  lemma HandedBack(f: Forest, rank: map<Addr, int>, c: Addr)
    requires Tracked(f, rank) && f.tree.kids[f.nullCtx] != [] && c == f.tree.kids[f.nullCtx][0] && c in f.tree.up && f.tree.up[c] == f.nullCtx
    ensures f.nullCtx in f.tree.kids && Stolen(f, f.nullCtx, c) == f
  {
    HeadOfNull(f, rank);
    assert KidsOk(f.tree, f.nullCtx);
    ChildUp(f.tree, f.nullCtx, 0);
    MoveHead(f.tree, c);
  }

  // ------------------------------------------------------------------ all rounds

  /** The state after `n` rounds, or when there is no child left. */
  ghost function Rounds(f: Forest, rank: map<Addr, int>, n: nat): (g: Forest)
    requires Tracked(f, rank)
    ensures Tracked(g, rank) && Shrinks(f, g)
    decreases n
  {
    HeadOfNull(f, rank);
    if n == 0 || f.tree.kids[f.nullCtx] == [] then
      ShrinksItself(f);
      f
    else
      RoundKeeps(f, rank);
      var g := Rounds(NullRound(f, rank), rank, n - 1);
      Later(f, NullRound(f, rank), g);
      g
  }

  lemma Later(f: Forest, g: Forest, h: Forest)
    requires Inv(f) && Inv(g) && Inv(h) && Shrinks(f, g) && Shrinks(g, h)
    ensures Shrinks(f, h)
  {
    hide Inv, Shrinks;
    ShrinksTransitive(f, g, h);
  }

  ghost predicate Ended(f: Forest)
    requires f.nullCtx in f.tree.kids
  {
    f.tree.kids[f.nullCtx] == []
  }

  /** As many rounds as there are chunks end the loop or bring it to a state that no round changes. */
  lemma {:induction false} EndsOrSticks(f: Forest, rank: map<Addr, int>) returns (n: nat)
    requires Tracked(f, rank)
    ensures n <= Mobile(f)
    ensures var g := Rounds(f, rank, n);
      g.nullCtx in g.tree.kids && (Ended(g) || NullRound(g, rank) == g)
    decreases Mobile(f)
  {
    hide Inv, Ranked, Rooted, Shrinks, Mobile, NullRound;
    HeadOfNull(f, rank);
    n := 0;
    if !Ended(f) {
      StuckExactly(f, rank);
      RoundKeeps(f, rank);
      if NullRound(f, rank) != f {
        n := EndsOrSticks(NullRound(f, rank), rank);
        n := n + 1;
      }
    }
  }

  /** A state that a round does not change is never left. */
  lemma {:induction false} StuckForever(f: Forest, rank: map<Addr, int>, n: nat)
    requires Tracked(f, rank) && f.nullCtx in f.tree.kids && (Ended(f) || NullRound(f, rank) == f)
    ensures Rounds(f, rank, n) == f
    decreases n
  {
    hide Inv, Ranked, Rooted, Shrinks, NullRound;
    if n > 0 && !Ended(f) {
      StuckForever(f, rank, n - 1);
    }
  }

  lemma {:induction false} RoundsResist(f: Forest, rank: map<Addr, int>, n: nat, x: Addr)
    requires Tracked(f, rank) && Resists(f, x)
    ensures Resists(Rounds(f, rank, n), x)
    decreases n
  {
    hide Inv, Ranked, Rooted, Shrinks, NullRound;
    HeadOfNull(f, rank);
    if n > 0 && f.tree.kids[f.nullCtx] != [] {
      RoundKeeps(f, rank);
      RoundResistsToo(f, rank, x);
      RoundsResist(NullRound(f, rank), rank, n - 1, x);
    }
  }

  /** Everything hangs below the null context: once that has no child, nothing else is alive. */
  lemma {:induction false} NothingElse(f: Forest, rank: map<Addr, int>, x: Addr)
    requires Tracked(f, rank) && f.nullCtx in f.tree.kids && Ended(f) && x in Live(f)
    ensures x == f.nullCtx
    decreases Rk(rank, x)
  {
    HeadOfNull(f, rank);
    KeysAgree(f);
    UpLive(f, x);
    if x != f.nullCtx {
      assert UpOk(f.tree, x);
      NothingElse(f, rank, f.tree.up[x]);
    }
  }

  /** The loop has ended after at most `n` rounds. */
  ghost predicate EndsWithin(f: Forest, rank: map<Addr, int>, n: nat)
    requires Tracked(f, rank)
  {
    var g := Rounds(f, rank, n);
    g.nullCtx in g.tree.kids && Ended(g)
  }

  /** When it has ended it has released every other chunk. */
  lemma AloneAtEnd(f: Forest, rank: map<Addr, int>, n: nat)
    requires Tracked(f, rank) && EndsWithin(f, rank, n)
    ensures Live(Rounds(f, rank, n)) == {f.nullCtx}
  {
    hide Inv, Ranked, Rooted, Rounds;
    var g := Rounds(f, rank, n);
    SameOut(f, g);
    HeadOfNull(g, rank);
    forall x | x in Live(g) ensures x == f.nullCtx {
      NothingElse(g, rank, x);
    }
  }

  /** Without a refusing chunk no state is stuck. */
  lemma NobodySticks(f: Forest, rank: map<Addr, int>, g: Forest)
    requires Tracked(f, rank) && Tracked(g, rank) && Shrinks(f, g) && forall x :: x in f.dtor && x != f.nullCtx ==> f.dtor[x] != Refuses
    requires g.nullCtx in g.tree.kids && (Ended(g) || NullRound(g, rank) == g)
    ensures Ended(g)
  {
    hide Inv, Ranked, Rooted, NullRound;
    HeadOfNull(g, rank);
    if !Ended(g) {
      StuckExactly(g, rank);
    }
  }

  /** The loop that frees the null context ends if and only if no other chunk refuses. */
  lemma EndsExactly(f: Forest, rank: map<Addr, int>)
    requires Tracked(f, rank)
    ensures (exists n: nat :: EndsWithin(f, rank, n)) <==> forall x :: x in f.dtor && x != f.nullCtx ==> f.dtor[x] != Refuses
  {
    hide Inv, Ranked, Rooted, Shrinks, Rounds, NullRound, EndsWithin, Ended;
    forall x, n: nat | Resists(f, x) && x != f.nullCtx ensures !EndsWithin(f, rank, n) {
      RoundsResist(f, rank, n, x);
      ResistersLive(Rounds(f, rank, n), x);
      if EndsWithin(f, rank, n) {
        AloneAtEnd(f, rank, n);
      }
    }
    if forall x :: x in f.dtor && x != f.nullCtx ==> f.dtor[x] != Refuses {
      var n := EndsOrSticks(f, rank);
      NobodySticks(f, rank, Rounds(f, rank, n));
      assert EndsWithin(f, rank, n) by { IsEnded(f, rank, n); }
    } else {
      var x :| x in f.dtor && x != f.nullCtx && f.dtor[x] == Refuses;
      assert Resists(f, x);
    }
  }

  lemma IsEnded(f: Forest, rank: map<Addr, int>, n: nat)
    requires Tracked(f, rank) && Rounds(f, rank, n).nullCtx in Rounds(f, rank, n).tree.kids && Ended(Rounds(f, rank, n))
    ensures EndsWithin(f, rank, n)
  {
    hide Inv, Ranked, Rooted, Shrinks, Rounds;
  }

  lemma ResistersLive(f: Forest, x: Addr)
    requires Inv(f) && Resists(f, x)
    ensures x in Live(f)
  {
    KeysAgree(f);
  }
}
