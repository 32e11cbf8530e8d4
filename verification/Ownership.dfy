/**
 Who owns a chunk: its tree parent first, then the contexts of the handles that reference it,
 newest first. How the single edits change these lists.
 */
module Ownership {
  import opened Seqs
  import opened ChildLists
  import opened RefLists
  import opened Forests

  function Up(up: map<Addr, Addr>, a: Addr): Addr {
    if a in up then up[a] else NULL
  }

  /** The contexts of the handles `hs`. */
  function Holders(up: map<Addr, Addr>, hs: seq<Addr>): (r: seq<Addr>)
    ensures |r| == |hs| && forall i :: 0 <= i < |hs| ==> r[i] == Up(up, hs[i])
  {
    if hs == [] then [] else [Up(up, hs[0])] + Holders(up, hs[1..])
  }

  /** All owners of `x`, the tree parent (NULL when top-level) in front. */
  function Owners(f: Forest, x: Addr): seq<Addr>
    requires x in f.tree.up && x in f.refs.list
  {
    [f.tree.up[x]] + Holders(f.tree.up, f.refs.list[x])
  }

  /** A chunk that is neither a handle nor being emptied. */
  predicate Settled(f: Forest, x: Addr) {
    x in f.tree.kids && x in f.tree.up && x in f.refs.list && x in f.dtor && x !in f.tree.out && x !in f.refs.target
  }

  lemma HoldersAgree(up: map<Addr, Addr>, up': map<Addr, Addr>, hs: seq<Addr>)
    requires forall h :: h in hs ==> Up(up, h) == Up(up', h)
    ensures Holders(up, hs) == Holders(up', hs)
  {
    forall i | 0 <= i < |hs| ensures Up(up, hs[i]) == Up(up', hs[i]) {
      assert hs[i] in hs;
    }
  }

  /** Dropping a handle whose context is in `v` is invisible once `v` is dropped from the owners. */
  lemma {:induction false} HoldersWithout(up: map<Addr, Addr>, hs: seq<Addr>, h: Addr, v: set<Addr>)
    requires Up(up, h) in v
    ensures Drop(Holders(up, Drop(hs, {h})), v) == Drop(Holders(up, hs), v)
  {
    if hs != [] {
      HoldersWithout(up, hs[1..], h, v);
      var d := Drop(hs[1..], {h});
      assert Holders(up, hs)[1..] == Holders(up, hs[1..]);
      if hs[0] != h {
        assert ([hs[0]] + d)[1..] == d;
        assert Holders(up, [hs[0]] + d)[1..] == Holders(up, d);
      }
    }
  }

  lemma OwnersLive(f: Forest, x: Addr)
    requires Inv(f) && Settled(f, x)
    ensures forall i :: 0 <= i < |Owners(f, x)| ==> Owners(f, x)[i] in Live(f) || Owners(f, x)[i] == NULL
  {
    var hs := f.refs.list[x];
    assert UpOk(f.tree, x) && ListOk(f.refs, x);
    forall i | 0 <= i < |hs| ensures Up(f.tree.up, hs[i]) in Live(f) || Up(f.tree.up, hs[i]) == NULL {
      assert hs[i] in hs && HandleOk(f, hs[i]) && UpOk(f.tree, hs[i]);
    }
  }

  /** Freeing handle `h` takes one entry from the owners of its target and touches no other chunk's. */
  lemma HandleFreedOwners(f: Forest, h: Addr, x: Addr, v: set<Addr>)
    requires Inv(f) && h in f.refs.target && h in f.tree.up && Settled(f, x)
    ensures Settled(HandleFreed(f, h), x)
    ensures x != f.refs.target[h] ==> Owners(HandleFreed(f, h), x) == Owners(f, x)
    ensures f.tree.up[h] in v ==> Drop(Owners(HandleFreed(f, h), x), v) == Drop(Owners(f, x), v)
  {
    assert HandleOk(f, h) && ListOk(f.refs, x);
    var g := HandleFreed(f, h);
    var hs := g.refs.list[x];
    assert g.tree.up == f.tree.up - {h};
    assert hs == if x == f.refs.target[h] then Drop(f.refs.list[x], {h}) else f.refs.list[x];
    HoldersAgree(g.tree.up, f.tree.up, hs);
    hide Inv, HandleFreed;
    if f.tree.up[h] in v {
      HoldersWithout(f.tree.up, f.refs.list[x], h, v);
      DropConcat([f.tree.up[x]], Holders(f.tree.up, hs), v);
      DropConcat([f.tree.up[x]], Holders(f.tree.up, f.refs.list[x]), v);
    }
  }

  /** Re-parenting `c` replaces the first owner of `c` and touches no other chunk's owners. */
  lemma StolenOwners(f: Forest, q: Addr, c: Addr, x: Addr)
    requires Inv(f) && Settled(f, x) && Settled(f, c) && c != f.nullCtx
    requires q == NULL || (q in Live(f) && q != c)
    ensures Settled(Stolen(f, q, c), x)
    ensures var q1 := if q == NULL then f.nullCtx else q;
      Owners(Stolen(f, q, c), x) == if x == c then [q1] + Owners(f, x)[1..] else Owners(f, x)
  {
    var q1 := if q == NULL then f.nullCtx else q;
    MoveInv(f.tree, q1, c);
    assert ListOk(f.refs, x);
    HoldersAgree(f.tree.up[c := q1], f.tree.up, f.refs.list[x]);
    assert Owners(f, x)[1..] == Holders(f.tree.up, f.refs.list[x]);
    hide Inv, Move;
  }
}
