/**
 How the `refs` field of the chunk headers and the `next`, `prev` and `ptr` fields in the bodies
 of the handles spell out the reference lists.
 */
module RefLinks {
  import opened Seqs
  import opened Tlist
  import opened RefLists

  datatype Hooks = Hooks(refs: map<Addr, Addr>, next: map<Addr, Addr>, prev: map<Addr, Addr>, ptr: map<Addr, Addr>)

  ghost predicate HookList(k: Hooks, a: Addr, s: seq<Addr>) {
    Linked(k.next, k.prev, s) && a in k.refs && k.refs[a] == At(s, 0)
  }

  ghost predicate HookLists(k: Hooks, r: Refs) {
    forall a :: a in r.list ==> HookList(k, a, r.list[a])
  }

  ghost predicate HookDomains(k: Hooks, r: Refs) {
    && k.refs.Keys == r.list.Keys
    && k.next.Keys == k.prev.Keys == k.ptr.Keys && r.target.Keys <= k.ptr.Keys
    && (forall h :: h in r.target ==> k.ptr[h] == r.target[h])
  }

  ghost predicate RefRep(k: Hooks, r: Refs) {
    HookDomains(k, r) && HookLists(k, r)
  }

  lemma ListsApart(r: Refs, a: Addr, b: Addr)
    requires RefsInv(r) && a in r.list && b in r.list && a != b
    ensures forall i :: 0 <= i < |r.list[a]| ==> r.list[a][i] !in r.list[b]
  {
    assert ListOk(r, a) && ListOk(r, b);
    forall i | 0 <= i < |r.list[a]| ensures r.list[a][i] !in r.list[b] {
      var h := AtIn(r.list[a], i);
    }
  }

  // ------------------------------------------------------------------ taking a handle out of its list

  ghost predicate UnhookedFields(k: Hooks, k': Hooks, s: seq<Addr>, i: nat, a: Addr)
    requires i < |s|
  {
    && Linked(k'.next, k'.prev, Cut(s, i))
    && SameOutside(k.next, k'.next, s) && SameOutside(k.prev, k'.prev, s)
    && k'.refs == k.refs[a := At(Cut(s, i), 0)] && k'.ptr == k.ptr
  }

  lemma UnhookCuts(r: Refs, a: Addr, i: nat)
    requires RefsInv(r) && a in r.list && i < |r.list[a]|
    ensures r.list[a][i] in r.target && r.target[r.list[a][i]] == a
    ensures Unhook(r, r.list[a][i]) == Refs(r.list[a := Cut(r.list[a], i)], r.target - {r.list[a][i]})
  {
    assert ListOk(r, a) && r.list[a][i] in r.list[a];
    DropAt(r.list[a], i);
  }

  lemma UnhookRep(k: Hooks, k': Hooks, r: Refs, a: Addr, i: nat)
    requires RefsInv(r) && RefRep(k, r) && a in r.list && i < |r.list[a]|
    requires UnhookedFields(k, k', r.list[a], i, a)
    ensures r.list[a][i] in r.target && r.target[r.list[a][i]] == a && RefRep(k', Unhook(r, r.list[a][i]))
  {
    UnhookCuts(r, a, i);
    UnhookDomains(k, k', r, a, i);
    hide RefsInv, HookList, HookDomains, Unhook, Linked, SameOutside;
    forall b | b in r.list
      ensures HookList(k', b, if b == a then Cut(r.list[a], i) else r.list[b])
    {
      UnhookList(k, k', r, a, i, b);
    }
    hide UnhookedFields;
  }

  lemma UnhookDomains(k: Hooks, k': Hooks, r: Refs, a: Addr, i: nat)
    requires RefsInv(r) && HookDomains(k, r) && a in r.list && i < |r.list[a]|
    requires UnhookedFields(k, k', r.list[a], i, a)
    ensures r.list[a][i] in r.target && HookDomains(k', Unhook(r, r.list[a][i]))
  {
    UnhookCuts(r, a, i);
    hide RefsInv, Unhook, Linked, Cut;
    assert a in k.refs;
    assert k'.refs.Keys == k.refs.Keys;
  }

  lemma UnhookList(k: Hooks, k': Hooks, r: Refs, a: Addr, i: nat, b: Addr)
    requires RefsInv(r) && HookLists(k, r) && a in r.list && i < |r.list[a]| && b in r.list
    requires UnhookedFields(k, k', r.list[a], i, a)
    ensures HookList(k', b, if b == a then Cut(r.list[a], i) else r.list[b])
  {
    if b != a {
      ListsApart(r, b, a);
      assert HookList(k, b, r.list[b]);
      hide RefsInv, HookLists, Linked;
      LinkedFrame(k.next, k.prev, k'.next, k'.prev, r.list[b], r.list[a]);
    }
  }

  // ------------------------------------------------------------------ putting a handle in front

  ghost predicate HookedFields(k: Hooks, k': Hooks, s: seq<Addr>, a: Addr, h: Addr) {
    && Linked(k'.next, k'.prev, [h] + s)
    && SameOutside(k.next, k'.next, [h] + s) && SameOutside(k.prev, k'.prev, [h] + s)
    && k'.refs == k.refs[a := h] && h in k.ptr && k'.ptr == k.ptr[h := a]
  }

  lemma HookRep(k: Hooks, k': Hooks, r: Refs, a: Addr, h: Addr)
    requires RefsInv(r) && RefRep(k, r) && a in r.list && h !in r.target && HookedFields(k, k', r.list[a], a, h)
    ensures RefRep(k', Hook(r, h, a))
  {
    hide RefsInv, HookList, HookDomains, HookedFields, HookLists;
    HookKeys(k, k', r, a, h);
    forall b | b in r.list
      ensures HookList(k', b, if b == a then [h] + r.list[a] else r.list[b])
    {
      HookOther(k, k', r, a, h, b);
    }
    AllHooked(k', Hook(r, h, a));
  }

  lemma AllHooked(k: Hooks, r: Refs)
    requires forall b :: b in r.list ==> HookList(k, b, r.list[b])
    ensures HookLists(k, r)
  {
    hide HookList;
  }

  lemma HookKeys(k: Hooks, k': Hooks, r: Refs, a: Addr, h: Addr)
    requires HookDomains(k, r) && a in r.list && h !in r.target && HookedFields(k, k', r.list[a], a, h)
    ensures HookDomains(k', Hook(r, h, a))
  {
    hide Linked;
    assert a in k.refs;
    assert k'.refs.Keys == k.refs.Keys;
    assert k'.ptr.Keys == k.ptr.Keys;
  }

  lemma HookOther(k: Hooks, k': Hooks, r: Refs, a: Addr, h: Addr, b: Addr)
    requires RefsInv(r) && HookLists(k, r) && a in r.list && b in r.list && h !in r.target
    requires HookedFields(k, k', r.list[a], a, h)
    ensures HookList(k', b, if b == a then [h] + r.list[a] else r.list[b])
  {
    if b != a {
      ListsApart(r, b, a);
      assert HookList(k, b, r.list[b]) && ListOk(r, b);
      forall i | 0 <= i < |r.list[b]| ensures r.list[b][i] !in [h] + r.list[a] {
        assert r.list[b][i] in r.list[b];
      }
      hide RefsInv, HookLists, Linked;
      LinkedFrame(k.next, k.prev, k'.next, k'.prev, r.list[b], [h] + r.list[a]);
    }
  }

  // ------------------------------------------------------------------ releasing a chunk

  lemma UnrefRep(k: Hooks, k': Hooks, r: Refs, p: Addr)
    requires RefsInv(r) && RefRep(k, r) && p in r.list && r.list[p] == [] && p !in r.target
    requires k' == Hooks(k.refs - {p}, k.next - {p}, k.prev - {p}, k.ptr - {p})
    ensures RefRep(k', RefsRemove(r, p))
  {
    hide HookList;
    forall b | b in r.list && b != p
      ensures HookList(k', b, r.list[b])
    {
      UnrefList(k, k', r, p, b);
    }
    hide RefsInv, HookLists;
  }

  lemma UnrefList(k: Hooks, k': Hooks, r: Refs, p: Addr, b: Addr)
    requires RefsInv(r) && HookLists(k, r) && b in r.list && b != p && p !in r.target
    requires k' == Hooks(k.refs - {p}, k.next - {p}, k.prev - {p}, k.ptr - {p})
    ensures HookList(k', b, r.list[b])
  {
    assert ListOk(r, b) && HookList(k, b, r.list[b]);
    forall i | 0 <= i < |r.list[b]| ensures r.list[b][i] != p {
      assert r.list[b][i] in r.list[b];
    }
    hide RefsInv, HookLists, NoDup;
  }

  /** Where a handle is found, and what its fields hold. */
  lemma HookedAt(k: Hooks, r: Refs, h: Addr)
    requires RefsInv(r) && RefRep(k, r) && h in r.target
    ensures r.target[h] in r.list && h in k.ptr && k.ptr[h] == r.target[h] && r.target[h] in k.refs
    ensures var s := r.list[r.target[h]];
      && Index(s, h) < |s| && s[Index(s, h)] == h && Linked(k.next, k.prev, s) && k.refs[r.target[h]] == At(s, 0)
  {
    var a := r.target[h];
    assert ListOk(r, a) && HookList(k, a, r.list[a]);
    var i :| 0 <= i < |r.list[a]| && r.list[a][i] == h;
    IndexAt(r.list[a], i);
  }
}
