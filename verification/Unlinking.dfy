/**
 Removing one owner of a chunk: dropping a reference, unlinking from a context, and freeing a
 referenced chunk again and again.
 */
module Unlinking {
  import opened Seqs
  import opened ChildLists
  import opened RefLists
  import opened Forests
  import opened Ownership
  import opened FreeRounds
  import opened Operations
  import opened Acyclicity
  import opened TopLevel
  import opened StaleReads

  /** `p` can be freed: apart from references to `p` itself ownership is acyclic. */
  ghost predicate Freeable(f: Forest, p: Addr) {
    Inv(f) && p in Live(f) && p != f.nullCtx && exists rank :: Ranked(f, rank, p)
  }

  ghost function FreeOf(f: Forest, p: Addr): (Forest, int)
    requires Freeable(f, p)
  {
    var rank :| Ranked(f, rank, p);
    Free(f, p, rank)
  }

  /** Every witness gives the same result. */
  lemma FreeOfIs(f: Forest, p: Addr, rank: map<Addr, int>)
    requires Inv(f) && p in Live(f) && p != f.nullCtx && Ranked(f, rank, p)
    ensures Freeable(f, p) && FreeOf(f, p) == Free(f, p, rank)
  {
    hide Inv, Ranked, Free;
    var r :| Ranked(f, r, p) && FreeOf(f, p) == Free(f, p, r);
    FreeSame(f, p, rank, r);
  }

  /** The first of the handles `hs` that hangs from `q`; NULL if there is none. */
  function FindHandle(up: map<Addr, Addr>, hs: seq<Addr>, q: Addr): Addr {
    if hs == [] then NULL
    else if Up(up, hs[0]) == q then hs[0]
    else FindHandle(up, hs[1..], q)
  }

  /** Drop the newest reference to `p` that hangs from the context. */
  ghost function Unreferenced(f: Forest, ctx: Addr, p: Addr): (Forest, int)
    requires Inv(f) && p in f.refs.list
  {
    var h := FindHandle(f.tree.up, f.refs.list[p], Context(f, ctx));
    if h in f.refs.target then
      HandleFacts(f, h);
      (HandleFreed(f, h), 0)
    else (f, -1)
  }

  lemma {:induction false} FindHandleAt(up: map<Addr, Addr>, hs: seq<Addr>, q: Addr)
    ensures q in Holders(up, hs) ==> exists i :: 0 <= i < |hs| && FindHandle(up, hs, q) == hs[i] && Up(up, hs[i]) == q
    ensures q !in Holders(up, hs) ==> FindHandle(up, hs, q) == NULL
  {
    if hs != [] {
      FindHandleAt(up, hs[1..], q);
      var r := Holders(up, hs);
      assert r[1..] == Holders(up, hs[1..]) && r == [r[0]] + r[1..];
      if Up(up, hs[0]) != q && q in r {
        var i :| 0 <= i < |hs[1..]| && FindHandle(up, hs[1..], q) == hs[1..][i] && Up(up, hs[1..][i]) == q;
        assert hs[i + 1] == hs[1..][i];
      }
    }
  }

  /** `s` without the first `q`. */
  function RemoveFirst(s: seq<Addr>, q: Addr): (r: seq<Addr>)
    ensures multiset(r) == multiset(s) - multiset{q}
  {
    if s == [] then []
    else
      assert s == [s[0]] + s[1..];
      if s[0] == q then s[1..] else [s[0]] + RemoveFirst(s[1..], q)
  }

  lemma HoldersCons(up: map<Addr, Addr>, x: Addr, hs: seq<Addr>)
    ensures Holders(up, [x] + hs) == [Up(up, x)] + Holders(up, hs)
  {
    assert ([x] + hs)[1..] == hs;
  }

  lemma RemoveFirstCons(x: Addr, s: seq<Addr>, q: Addr)
    ensures RemoveFirst([x] + s, q) == if x == q then s else [x] + RemoveFirst(s, q)
  {
    assert ([x] + s)[1..] == s;
  }

  lemma NotEmpty(up: map<Addr, Addr>, hs: seq<Addr>, q: Addr)
    requires q in Holders(up, hs)
    ensures hs != []
  {
  }

  lemma {:induction false} HoldersRemove(up: map<Addr, Addr>, hs: seq<Addr>, q: Addr)
    requires NoDup(hs) && q in Holders(up, hs)
    ensures Holders(up, Drop(hs, {FindHandle(up, hs, q)})) == RemoveFirst(Holders(up, hs), q)
  {
    hide Holders, NoDup, RemoveFirst;
    NotEmpty(up, hs, q);
    var rest := hs[1..];
    NoDupTail(hs);
    assert hs == [hs[0]] + rest;
    HoldersCons(up, hs[0], rest);
    RemoveFirstCons(Up(up, hs[0]), Holders(up, rest), q);
    if Up(up, hs[0]) == q {
      DropHead(hs);
    } else {
      var h := FindHandle(up, rest, q);
      FindHandleAt(up, rest, q);
      HoldersRemove(up, rest, q);
      HoldersCons(up, hs[0], Drop(rest, {h}));
    }
  }

  lemma NoNullTarget(f: Forest)
    requires Inv(f)
    ensures NULL !in f.refs.target
  {
    KeysAgree(f);
    assert forall h :: h in f.refs.target ==> HandleOk(f, h);
  }

  lemma OwnersWithoutHandle(f: Forest, h: Addr, p: Addr)
    requires Inv(f) && Settled(f, p) && h in f.refs.target && f.refs.target[h] == p && h in f.tree.up
    ensures Settled(HandleFreed(f, h), p)
    ensures Owners(HandleFreed(f, h), p) == [f.tree.up[p]] + Holders(f.tree.up, Drop(f.refs.list[p], {h}))
  {
    HandleFreedOwners(f, h, p, {});
    assert HandleOk(f, h);
    var g := HandleFreed(f, h);
    assert g.tree.up == f.tree.up - {h} && g.refs.list[p] == Drop(f.refs.list[p], {h});
    HoldersAgree(g.tree.up, f.tree.up, g.refs.list[p]);
  }

  /** What the removal of a reference changes: one handle goes, and one owner of `p` with it. */
  lemma UnreferencedOwners(f: Forest, ctx: Addr, p: Addr)
    requires Inv(f) && Settled(f, p)
    ensures var (g, ret), q := Unreferenced(f, ctx, p), Context(f, ctx);
      && (q !in Owners(f, p)[1..] ==> g == f && ret == -1)
      && (q in Owners(f, p)[1..] ==>
            && ret == 0 && Inv(g) && Settled(g, p) && Live(g) < Live(f) && OnlyHandlesGone(f, g) && Shrinks(f, g)
            && Owners(g, p) == [f.tree.up[p]] + RemoveFirst(Owners(f, p)[1..], q)
            && forall x :: Settled(f, x) && x != p ==> Settled(g, x) && Owners(g, x) == Owners(f, x))
  {
    var q, hs := Context(f, ctx), f.refs.list[p];
    var h := FindHandle(f.tree.up, hs, q);
    assert ListOk(f.refs, p) && Owners(f, p)[1..] == Holders(f.tree.up, hs);
    FindHandleAt(f.tree.up, hs, q);
    hide Inv, HandleFreed, Shrinks, Owners, OnlyHandlesGone;
    if q in Holders(f.tree.up, hs) {
      assert h in f.refs.target && f.refs.target[h] == p;
      HandleFacts(f, h);
      HandleFreedOk(f, h);
      HoldersRemove(f.tree.up, hs, q);
      OwnersWithoutHandle(f, h, p);
      forall x | Settled(f, x) && x != p ensures Settled(HandleFreed(f, h), x) && Owners(HandleFreed(f, h), x) == Owners(f, x) {
        HandleFreedOwners(f, h, x, {});
      }
    } else {
      NoNullTarget(f);
    }
  }

  // ------------------------------------------------------------------ unlinking from a context

  /** The chunk `p` loses the owner `ctx`: a reference from there if it has one, else its place below
      its parent, which goes to the context of the newest reference. */
  ghost function OwnerRemoved(f: Forest, ctx: Addr, p: Addr): (Forest, int)
    requires Freeable(f, p) && Settled(f, p)
  {
    var r := Unreferenced(f, ctx, p);
    if r.1 == 0 then r
    else if f.tree.up[p] != Context(f, ctx) then (f, -1)
    else if f.refs.list[p] == [] then FreeOf(f, p)
    else
      HandleContext(f, p);
      var q := f.tree.up[f.refs.list[p][0]];
      var r1 := Unreferenced(f, q, p);
      if r1.1 != 0 then (f, -1)
      else
        UnreferencedOwners(f, q, p);
        StillContext(f, r1.0, q);
        (Stolen(r1.0, q, p), 0)
  }

  lemma HandleContext(f: Forest, p: Addr)
    requires Inv(f) && p in f.refs.list && f.refs.list[p] != []
    ensures var h := f.refs.list[p][0]; h in f.tree.up && IsContext(f, f.tree.up[h]) && h in f.refs.target && f.refs.target[h] == p
  {
    var h := f.refs.list[p][0];
    assert ListOk(f.refs, p) && h in f.refs.list[p];
    assert HandleOk(f, h) && UpOk(f.tree, h);
    assert f.tree.up[h] in f.refs.target ==> HandleOk(f, f.tree.up[h]);
  }

  lemma StillContext(f: Forest, g: Forest, q: Addr)
    requires Inv(f) && Inv(g) && OnlyHandlesGone(f, g) && IsContext(f, q) && Shrinks(f, g)
    ensures IsContext(g, q) && (g.nullCtx == NULL || g.nullCtx in g.tree.kids)
  {
  }

  /** The owners of `p` change to `owners`, and nobody else's. */
  ghost predicate OwnersBecome(f: Forest, g: Forest, p: Addr, owners: seq<Addr>) {
    && Inv(g) && Settled(g, p) && Owners(g, p) == owners && Live(g) < Live(f)
    && forall x :: Settled(f, x) && x != p ==> Settled(g, x) && Owners(g, x) == Owners(f, x)
  }

  /** All cases of removing an owner, by where it stands among the owners of `p`. A chunk that holds
      a reference to itself cannot become its own parent. */
  lemma OwnerRemovedCases(f: Forest, ctx: Addr, p: Addr)
    requires Freeable(f, p) && Settled(f, p)
    ensures var (g, ret) := OwnerRemoved(f, ctx, p);
      var q, up, tail := Context(f, ctx), f.tree.up[p], Owners(f, p)[1..];
      if q in tail then ret == 0 && OwnersBecome(f, g, p, [up] + RemoveFirst(tail, q))
      else if q != up then (g, ret) == (f, -1)
      else if tail == [] then (g, ret) == FreeOf(f, p)
      else
        var heir := Context(f, tail[0]);
        if heir in tail then ret == 0 && OwnersBecome(f, g, p, [if heir == p then up else heir] + RemoveFirst(tail, heir))
        else (g, ret) == (f, -1)
  {
    hide Inv, Shrinks, FreeOf, Stolen, OnlyHandlesGone, Freeable, HandleFreed, Unreferenced, RemoveFirst, OwnersBecome;
    FreeableFacts(f, p);
    UnreferencedBecome(f, ctx, p);
    var q, hs := Context(f, ctx), f.refs.list[p];
    assert Owners(f, p)[1..] == Holders(f.tree.up, hs);
    if q !in Holders(f.tree.up, hs) && q == f.tree.up[p] && hs != [] {
      InheritedCase(f, p);
    }
  }

  lemma UnreferencedBecome(f: Forest, ctx: Addr, p: Addr)
    requires Inv(f) && Settled(f, p)
    ensures var (g, ret), tail := Unreferenced(f, ctx, p), Owners(f, p)[1..];
      if Context(f, ctx) in tail then ret == 0 && OwnersBecome(f, g, p, [f.tree.up[p]] + RemoveFirst(tail, Context(f, ctx)))
      else (g, ret) == (f, -1)
  {
    hide Inv, Shrinks, OnlyHandlesGone, Unreferenced, RemoveFirst, Settled, Owners;
    UnreferencedOwners(f, ctx, p);
  }

  /** The parent goes and the context of the newest reference takes its place. */
  lemma InheritedCase(f: Forest, p: Addr)
    requires Inv(f) && Settled(f, p) && p != f.nullCtx && f.refs.list[p] != []
    ensures var h := f.refs.list[p][0]; h in f.tree.up
    ensures var q, tail := f.tree.up[f.refs.list[p][0]], Owners(f, p)[1..];
      var (g, ret), heir := Unreferenced(f, q, p), Context(f, q);
      && tail != [] && tail[0] == q && (ret == 0 <==> heir in tail)
      && (ret == 0 ==>
            p in g.tree.up && IsContext(g, q) && (g.nullCtx == NULL || g.nullCtx in g.tree.kids)
            && OwnersBecome(f, Stolen(g, q, p), p, [if heir == p then f.tree.up[p] else heir] + RemoveFirst(tail, heir)))
  {
    hide Inv, Shrinks, Stolen, OnlyHandlesGone, Unreferenced, RemoveFirst;
    HandleContext(f, p);
    var q, tail := f.tree.up[f.refs.list[p][0]], Owners(f, p)[1..];
    assert tail == Holders(f.tree.up, f.refs.list[p]);
    UnreferencedOwners(f, q, p);
    var g := Unreferenced(f, q, p).0;
    if Unreferenced(f, q, p).1 == 0 {
      StillContext(f, g, q);
      NullCtxSame(f, g);
      if Context(f, q) == p {
        NotMoved(g, q, p);
      } else {
        HeirApparent(f, g, p, q, RemoveFirst(tail, Context(f, q)));
      }
    }
  }

  lemma NullCtxSame(f: Forest, g: Forest)
    requires Shrinks(f, g)
    ensures g.nullCtx == f.nullCtx
  {
  }

  lemma NotMoved(g: Forest, q: Addr, p: Addr)
    requires p in g.tree.up && IsContext(g, q) && Context(g, q) == p && (g.nullCtx == NULL || g.nullCtx in g.tree.kids)
    ensures Stolen(g, q, p) == g
  {
  }

  lemma FreeableFacts(f: Forest, p: Addr)
    requires Freeable(f, p)
    ensures Inv(f) && p in Live(f) && p != f.nullCtx
  {
  }

  /** Handing `p`, one reference less, to the context of that reference. */
  lemma HeirApparent(f: Forest, g: Forest, p: Addr, q: Addr, tail: seq<Addr>)
    requires Settled(f, p) && p != f.nullCtx && IsContext(g, q) && g.nullCtx == f.nullCtx && Context(f, q) != p
    requires OwnersBecome(f, g, p, [f.tree.up[p]] + tail) && p in g.tree.up && (g.nullCtx == NULL || g.nullCtx in g.tree.kids)
    ensures OwnersBecome(f, Stolen(g, q, p), p, [Context(f, q)] + tail)
  {
    hide Inv, Stolen, Owners;
    StolenInv(g, q, p);
    StolenOwners(g, q, p, p);
    assert ([f.tree.up[p]] + tail)[1..] == tail;
    forall x | Settled(f, x) && x != p ensures Settled(Stolen(g, q, p), x) && Owners(Stolen(g, q, p), x) == Owners(f, x) {
      StolenOwners(g, q, p, x);
    }
  }

  lemma NotItsOwnOwner(f: Forest, p: Addr)
    requires Inv(f) && Acyclic(f) && p in Live(f) && p in f.refs.list && f.refs.list[p] != []
    ensures f.refs.list[p][0] in f.tree.up && f.tree.up[f.refs.list[p][0]] != p
  {
    var rank :| Ranked(f, rank, NULL);
    HandleContext(f, p);
    KeysAgree(f);
  }

  /** Under acyclic ownership unlinking removes exactly one occurrence of the context from the owners of
      `p`. When that was the parent, the context of the newest reference becomes the parent; when it was
      the last owner, `p` is freed. */
  lemma RemovesOneOwner(f: Forest, ctx: Addr, p: Addr)
    requires Freeable(f, p) && Acyclic(f) && Settled(f, p) && Rooted(f)
    ensures var (g, ret), q := OwnerRemoved(f, ctx, p), Context(f, ctx);
      if q !in Owners(f, p) then (g, ret) == (f, -1)
      else if |Owners(f, p)| == 1 then (g, ret) == FreeOf(f, p)
      else
        && ret == 0 && OwnersBecome(f, g, p, Owners(g, p))
        && multiset(Owners(g, p)) == multiset(Owners(f, p)) - multiset{q}
        && (q !in Owners(f, p)[1..] ==> Owners(g, p) == Owners(f, p)[1..])
        && (q in Owners(f, p)[1..] ==> Owners(g, p)[0] == f.tree.up[p])
  {
    hide Inv, Acyclic, Freeable, OwnerRemoved, FreeOf, RemoveFirst, OwnersBecome, Owners, Rooted, Context;
    FreeableFacts(f, p);
    OwnerRemovedCases(f, ctx, p);
    var o, q := Owners(f, p), Context(f, ctx);
    OwnersSplit(f, p);
    OwnerGone(o, q);
    if |o| > 1 {
      NewestRooted(f, p);
      HeirIsNewest(f, p);
      var g := OwnerRemoved(f, ctx, p).0;
      if q in o[1..] {
        BecomeOwners(f, g, p, [o[0]] + RemoveFirst(o[1..], q));
      } else if q == o[0] {
        BecomeOwners(f, g, p, o[1..]);
      }
    }
  }

  /** The first of the later occurrences goes, else the first element. */
  lemma OwnerGone(o: seq<Addr>, q: Addr)
    requires o != []
    ensures q in o <==> q == o[0] || q in o[1..]
    ensures q in o[1..] ==> multiset([o[0]] + RemoveFirst(o[1..], q)) == multiset(o) - multiset{q} && |o| > 1
    ensures q == o[0] && q !in o[1..] ==> multiset(o[1..]) == multiset(o) - multiset{q}
  {
    assert o == [o[0]] + o[1..];
  }

  lemma BecomeOwners(f: Forest, g: Forest, p: Addr, s: seq<Addr>)
    requires OwnersBecome(f, g, p, s)
    ensures Settled(g, p) && Owners(g, p) == s
  {
  }

  lemma OwnersSplit(f: Forest, p: Addr)
    requires Settled(f, p)
    ensures Owners(f, p) != [] && Owners(f, p)[0] == f.tree.up[p] && Owners(f, p) == [f.tree.up[p]] + Owners(f, p)[1..]
  {
  }

  lemma HeirIsNewest(f: Forest, p: Addr)
    requires Inv(f) && Acyclic(f) && Settled(f, p) && |Owners(f, p)| > 1 && (Owners(f, p)[1] != NULL || f.nullCtx == NULL)
    ensures var tail := Owners(f, p)[1..];
      Context(f, tail[0]) == tail[0] != p && tail == [tail[0]] + RemoveFirst(tail, tail[0])
  {
    hide Acyclic;
    NotItsOwnOwner(f, p);
    HoldersHead(f.tree.up, f.refs.list[p]);
    var tail := Owners(f, p)[1..];
    assert tail == [tail[0]] + tail[1..];
    RemoveFirstCons(tail[0], tail[1..], tail[0]);
  }

  lemma NewestRooted(f: Forest, p: Addr)
    requires Inv(f) && Rooted(f) && Settled(f, p) && |Owners(f, p)| > 1
    ensures Owners(f, p)[1] != NULL || f.nullCtx == NULL
  {
    HandleContext(f, p);
    HoldersHead(f.tree.up, f.refs.list[p]);
    assert Owners(f, p)[1] == Holders(f.tree.up, f.refs.list[p])[0];
    hide TreeInv, RefsInv;
  }

  lemma HoldersHead(up: map<Addr, Addr>, hs: seq<Addr>)
    requires hs != [] && hs[0] in up
    ensures Holders(up, hs) != [] && Holders(up, hs)[0] == up[hs[0]]
  {
  }

  // ------------------------------------------------------------------ freeing a referenced chunk

  /** The state after `n` attempts to free `p`. */
  ghost function FreedTimes(f: Forest, p: Addr, n: nat): Forest
    decreases n
  {
    if n > 0 && Freeable(f, p) then FreedTimes(FreeOf(f, p).0, p, n - 1) else f
  }

  /** An attempt to free a referenced chunk fails and costs it the newest reference. */
  lemma ReferencedAttempt(f: Forest, p: Addr)
    requires Inv(f) && Acyclic(f) && p in Live(f) && p != f.nullCtx && f.refs.list[p] != []
    ensures Freeable(f, p)
    ensures var (g, ret), h := FreeOf(f, p), f.refs.list[p][0];
      && ret == -1 && Live(g) == Live(f) - {h} && OnlyHandlesGone(f, g) && Shrinks(f, g)
      && Inv(g) && Acyclic(g) && p in Live(g) && p != g.nullCtx && g.refs.list[p] == f.refs.list[p][1..]
  {
    hide Inv, Ranked, FreeOf, Free, HandleFreed, Freeable;
    var rank :| Ranked(f, rank, NULL);
    RankedAny(f, rank, p);
    KeysAgree(f);
    FreeOfIs(f, p, rank);
    FreeReferenced(f, p, rank);
    FreeLosesHandle(f, p, rank);
    NewestGone(f, p);
  }

  lemma NewestGone(f: Forest, p: Addr)
    requires Inv(f) && p in f.refs.list && f.refs.list[p] != []
    ensures var h := f.refs.list[p][0];
      && h in f.refs.target && f.refs.target[h] in f.refs.list && h in f.dtor && h in f.tree.up && p in HandleFreed(f, h).refs.list
      && HandleFreed(f, h).refs.list[p] == f.refs.list[p][1..]
  {
    HandleContext(f, p);
    HandleFacts(f, f.refs.list[p][0]);
    assert ListOk(f.refs, p);
    DropHead(f.refs.list[p]);
  }

  /** As many attempts as there are references: each fails and takes the newest one left. */
  lemma {:induction false} FreedTimesHandles(f: Forest, p: Addr, n: nat)
    requires Inv(f) && Acyclic(f) && Settled(f, p) && p != f.nullCtx && n <= |f.refs.list[p]|
    ensures var g := FreedTimes(f, p, n);
      && Inv(g) && Acyclic(g) && Settled(g, p) && p != g.nullCtx && g.dtor[p] == f.dtor[p]
      && g.refs.list[p] == f.refs.list[p][n..] && Live(g) == Live(f) - (set h | h in f.refs.list[p][..n])
    decreases n
  {
    hide Inv, Acyclic, FreeOf, Freeable;
    if n > 0 {
      ReferencedAttempt(f, p);
      var g, s := FreeOf(f, p).0, f.refs.list[p];
      AttemptSettled(f, g, p);
      FreedTimesHandles(g, p, n - 1);
      assert s[1..][n - 1..] == s[n..] && s[..n] == [s[0]] + s[1..][..n - 1];
    }
  }

  lemma AttemptSettled(f: Forest, g: Forest, p: Addr)
    requires Inv(g) && Shrinks(f, g) && Settled(f, p) && p in Live(g)
    ensures Settled(g, p) && g.dtor[p] == f.dtor[p]
  {
    KeysAgree(g);
  }

  /** While it is referenced from elsewhere, or refuses, an attempt to free `p` empties nothing: no walk looks back. */
  lemma AttemptIsSafe(f: Forest, p: Addr)
    requires Inv(f) && Acyclic(f) && Settled(f, p) && p != f.nullCtx && (f.refs.list[p] != [] || f.dtor[p] == Refuses)
    ensures SafeToFree(f, p)
  {
    hide Inv, Ranked, Above, HandleFreed, Emptying, DrainReadsLive, Predecessor;
    var rank :| Ranked(f, rank, NULL);
    RankedAny(f, rank, p);
    var m := Back(p, Predecessor(f.tree, p));
    if f.refs.list[p] != [] {
      FreeReferenced(f, p, rank);
      FreeLosesHandle(f, p, rank);
      var h := f.refs.list[p][0];
      NoReferenceFromBelow(f, p, h, rank) by { KeysAgree(f); }
    }
    assert FreeReadsLive(f, p, rank, m);
    assert ReadsLive(f, p, rank, m);
  }

  /** With `k` references, none from below `p`, `k` attempts to free `p` fail, each taking the newest
      reference left, and the next one releases `p` unless its destructor refuses. */
  lemma FreeTakesAllReferences(f: Forest, p: Addr, n: nat)
    requires Inv(f) && Acyclic(f) && Settled(f, p) && p != f.nullCtx && n <= |f.refs.list[p]|
    ensures var g := FreedTimes(f, p, n);
      && Live(g) == Live(f) - (set h | h in f.refs.list[p][..n]) && Freeable(g, p)
      && FreeOf(g, p).1 == (if n < |f.refs.list[p]| || f.dtor[p] == Refuses then -1 else 0)
      && (FreeOf(g, p).1 == 0 ==> p !in Live(FreeOf(g, p).0))
      && (FreeOf(g, p).1 == -1 ==> SafeToFree(g, p))
  {
    hide Inv, Ranked, FreeOf, Freeable, FreedTimes, Drain, Shrinks, Emptied, Emptying, SafeToFree;
    FreedTimesHandles(f, p, n);
    var g := FreedTimes(f, p, n);
    if n < |f.refs.list[p]| || f.dtor[p] == Refuses {
      AttemptIsSafe(g, p);
    }
    if n < |f.refs.list[p]| {
      ReferencedAttempt(g, p);
    } else {
      var rank :| Ranked(g, rank, NULL);
      RankedAny(g, rank, p);
      FreeOfIs(g, p, rank);
    }
  }
}
