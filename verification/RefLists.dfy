/**
 The reference lists of the allocator as a value: for every live chunk the handles that
 reference it, newest first, and for every handle the chunk it references.
 */
module RefLists {
  import opened Seqs

  datatype Refs = Refs(list: map<Addr, seq<Addr>>, target: map<Addr, Addr>)

  ghost predicate ListOk(r: Refs, a: Addr)
    requires a in r.list
  {
    && NoDup(r.list[a])
    && forall h :: h in r.list[a] ==> h in r.target && r.target[h] == a
  }

  lemma Targets(r: Refs, a: Addr, i: nat)
    requires a in r.list && ListOk(r, a) && i < |r.list[a]|
    ensures r.list[a][i] in r.target && r.target[r.list[a][i]] == a
  {
    var h := AtIn(r.list[a], i);
  }

  /** Each list holds exactly the handles that target its chunk. */
  ghost predicate RefsInv(r: Refs) {
    && (forall a :: a in r.list ==> ListOk(r, a))
    && (forall h :: h in r.target ==> r.target[h] in r.list && h in r.list[r.target[h]])
  }

  /** Handle `h` now references `a`; newest first. */
  function Hook(r: Refs, h: Addr, a: Addr): Refs
    requires a in r.list
  {
    Refs(r.list[a := [h] + r.list[a]], r.target[h := a])
  }

  /** Handle `h` references nothing any more. */
  function Unhook(r: Refs, h: Addr): Refs
    requires h in r.target && r.target[h] in r.list
  {
    var a := r.target[h];
    Refs(r.list[a := Drop(r.list[a], {h})], r.target - {h})
  }

  function RefsRemove(r: Refs, a: Addr): Refs {
    r.(list := r.list - {a})
  }

  lemma HookInv(r: Refs, h: Addr, a: Addr)
    requires RefsInv(r) && a in r.list && h !in r.target
    ensures RefsInv(Hook(r, h, a))
  {
    NoDupCons(h, r.list[a]);
  }

  lemma UnhookInv(r: Refs, h: Addr)
    requires RefsInv(r) && h in r.target
    ensures RefsInv(Unhook(r, h))
  {
    assert ListOk(r, r.target[h]);
    DropNoDup(r.list[r.target[h]], {h});
  }

  lemma RefsRemoveInv(r: Refs, a: Addr)
    requires RefsInv(r) && a in r.list && r.list[a] == []
    ensures RefsInv(RefsRemove(r, a))
  {
  }
}
