/**
 How the `next`, `prev`, `parent` and `child` fields of the chunk headers spell out the tree:
 each child list is linked, only its head carries `parent`, and a chunk that is being emptied
 still leads to the parent it had.
 */
module Siblings {
  import opened Seqs
  import opened Tlist
  import opened ChildLists

  datatype Links = Links(next: map<Addr, Addr>, prev: map<Addr, Addr>, parent: map<Addr, Addr>, child: map<Addr, Addr>)

  /** Only the head of the list `s` carries the parent `a`. */
  ghost predicate HeadMarked(parent: map<Addr, Addr>, a: Addr, s: seq<Addr>) {
    forall i :: 0 <= i < |s| ==> s[i] in parent && parent[s[i]] == if i == 0 then a else NULL
  }

  ghost predicate ListRep(l: Links, a: Addr, s: seq<Addr>) {
    Linked(l.next, l.prev, s) && HeadMarked(l.parent, a, s) && a in l.child && l.child[a] == At(s, 0)
  }

  ghost predicate TopRep(l: Links, c: Addr) {
    && c in l.next && c in l.prev && c in l.parent
    && l.next[c] == NULL && l.prev[c] == NULL && l.parent[c] == NULL
  }

  /** A chunk off its list: what is left in its fields still leads to its old parent, unless the chunk in
      front of it has been released. */
  ghost predicate StaleRep(l: Links, t: Tree, x: Addr)
    requires x in t.up
  {
    && x in l.prev && x in l.parent
    && (t.up[x] != NULL ==> t.up[x] in t.kids)
    && if l.prev[x] == NULL then l.parent[x] == t.up[x]
       else
         var y := l.prev[x];
         l.parent[x] == NULL && t.up[x] != NULL && (y in t.up ==> t.up[y] == t.up[x])
  }

  ghost predicate Domains(l: Links, t: Tree) {
    l.next.Keys == l.prev.Keys == l.parent.Keys == l.child.Keys == t.kids.Keys
  }

  ghost predicate SibRep(l: Links, t: Tree) {
    Domains(l, t) && ListsRep(l, t) && OthersRep(l, t)
  }

  /** No chunk that is being emptied still points at `c`. */
  ghost predicate NotStale(l: Links, t: Tree, c: Addr) {
    forall x :: x in t.out && x in l.prev && x != c ==> l.prev[x] != c
  }

  /** The parts of `SibRep` that are not about child lists. */
  ghost predicate OthersRep(l: Links, t: Tree) {
    && (forall c :: c in t.up && c !in t.out && t.up[c] == NULL ==> TopRep(l, c))
    && (forall x :: x in t.out && x in t.up ==> StaleRep(l, t, x))
  }

  ghost predicate ListsRep(l: Links, t: Tree) {
    forall a :: a in t.kids ==> ListRep(l, a, t.kids[a])
  }

  lemma ListFrame(l: Links, l': Links, a: Addr, s: seq<Addr>, w: seq<Addr>)
    requires ListRep(l, a, s) && a in l'.child && l'.child[a] == l.child[a]
    requires SameOutside(l.next, l'.next, w) && SameOutside(l.prev, l'.prev, w) && SameOutside(l.parent, l'.parent, w)
    requires forall i :: 0 <= i < |s| ==> s[i] !in w
    ensures ListRep(l', a, s)
  {
    LinkedFrame(l.next, l.prev, l'.next, l'.prev, s, w);
  }

  /** The lists of two parents share no chunk. */
  lemma ListsDisjoint(t: Tree, a: Addr, q: Addr)
    requires TreeInv(t) && a in t.kids && q in t.kids && a != q
    ensures forall i :: 0 <= i < |t.kids[a]| ==> t.kids[a][i] !in t.kids[q]
  {
    assert KidsOk(t, a) && KidsOk(t, q);
    forall i | 0 <= i < |t.kids[a]| ensures t.kids[a][i] !in t.kids[q] {
      var c := AtIn(t.kids[a], i);
    }
  }

  /** What unlinking child `k` of `q` does to the fields. */
  ghost predicate UnlinkedFields(l: Links, l': Links, s: seq<Addr>, k: nat, q: Addr)
    requires k < |s|
  {
    && Linked(l'.next, l'.prev, Cut(s, k)) && HeadMarked(l'.parent, q, Cut(s, k))
    && SameOutside(l.next, l'.next, s) && SameOutside(l.prev, l'.prev, s) && SameOutside(l.parent, l'.parent, s)
    && l'.child == l.child[q := At(Cut(s, k), 0)]
    && s[k] in l'.prev && l'.prev[s[k]] == At(s, k - 1)
    && s[k] in l'.parent && l'.parent[s[k]] == if k == 0 then q else NULL
  }

  lemma UnlinkOthers(l: Links, l': Links, t: Tree, q: Addr, k: nat)
    requires TreeInv(t) && SibRep(l, t) && q in t.kids && q != NULL && k < |t.kids[q]|
    requires UnlinkedFields(l, l', t.kids[q], k, q)
    ensures t.kids[q][k] in t.up
    ensures OthersRep(l', Detach(t, t.kids[q][k]))
  {
    hide Linked, HeadMarked, TreeInv, ListsRep, OthersRep, StaleRep, TopRep, KidsOk, UnlinkedFields, Detach;
    AllKidsOk(t, q);
    ChildUp(t, q, k);
    var c := t.kids[q][k];
    DetachKeeps(t, q, k);
    forall x | x in t.out && x in t.up && x != c ensures StaleRep(l', Detach(t, c), x) {
      UnlinkStale(l, l', t, q, k, x);
    }
    AllListed(l, t, q);
    UnlinkedStale(l, l', t, q, k);
    forall y | y in t.up && y !in t.out && t.up[y] == NULL ensures TopRep(l', y) {
      UnlinkTopLevel(l, l', t, q, k, y);
    }
    OthersWhole(l', Detach(t, c));
  }

  lemma DetachKeeps(t: Tree, q: Addr, k: nat)
    requires q in t.kids && k < |t.kids[q]| && t.kids[q][k] in t.up
    ensures var c := t.kids[q][k]; Detach(t, c).up == t.up && Detach(t, c).out == t.out + {c} && Detach(t, c).kids.Keys == t.kids.Keys
  {
  }

  lemma OthersWhole(l: Links, t: Tree)
    requires forall c :: c in t.up && c !in t.out && t.up[c] == NULL ==> TopRep(l, c)
    requires forall x :: x in t.out && x in t.up ==> StaleRep(l, t, x)
    ensures OthersRep(l, t)
  {
  }

  /** A chunk taken off earlier is not touched. */
  lemma UnlinkStale(l: Links, l': Links, t: Tree, q: Addr, k: nat, x: Addr)
    requires OthersRep(l, t) && q in t.kids && KidsOk(t, q) && k < |t.kids[q]| && t.kids[q][k] in t.up
    requires UnlinkedFields(l, l', t.kids[q], k, q) && x in t.out && x in t.up
    ensures StaleRep(l', Detach(t, t.kids[q][k]), x)
  {
    DetachKeeps(t, q, k);
    hide Linked, HeadMarked, TopRep, Detach;
    assert StaleRep(l, t, x) && x !in t.kids[q];
  }

  /** What is left in the fields of the chunk itself. */
  lemma UnlinkedStale(l: Links, l': Links, t: Tree, q: Addr, k: nat)
    requires q in t.kids && KidsOk(t, q) && q != NULL && k < |t.kids[q]| && UnlinkedFields(l, l', t.kids[q], k, q)
    requires ListRep(l, q, t.kids[q]) && t.kids[q][k] in t.up
    ensures StaleRep(l', Detach(t, t.kids[q][k]), t.kids[q][k])
  {
    DetachKeeps(t, q, k);
    ChildUp(t, q, k);
    if k > 0 {
      ChildUp(t, q, k - 1);
    }
    hide HeadMarked, Detach, NoDup;
  }

  lemma UnlinkTopLevel(l: Links, l': Links, t: Tree, q: Addr, k: nat, y: Addr)
    requires OthersRep(l, t) && q in t.kids && q != NULL && KidsOk(t, q) && k < |t.kids[q]| && UnlinkedFields(l, l', t.kids[q], k, q)
    requires y in t.up && y !in t.out && t.up[y] == NULL
    ensures TopRep(l', y)
  {
    hide Linked, HeadMarked;
    assert TopRep(l, y) && y !in t.kids[q];
  }

  lemma UnlinkList(l: Links, l': Links, t: Tree, q: Addr, k: nat, a: Addr)
    requires TreeInv(t) && SibRep(l, t) && q in t.kids && q != NULL && k < |t.kids[q]| && a in t.kids
    requires UnlinkedFields(l, l', t.kids[q], k, q)
    ensures ListRep(l', a, if a == q then Cut(t.kids[q], k) else t.kids[a])
  {
    if a != q {
      ListsDisjoint(t, a, q);
      hide TreeInv;
      assert ListRep(l, a, t.kids[a]);
      hide ListRep, Linked, HeadMarked;
      ListFrame(l, l', a, t.kids[a], t.kids[q]);
    }
  }

  lemma DetachCuts(t: Tree, q: Addr, k: nat)
    requires TreeInv(t) && q in t.kids && k < |t.kids[q]|
    ensures t.kids[q][k] in t.up
    ensures Detach(t, t.kids[q][k]) == Tree(t.kids[q := Cut(t.kids[q], k)], t.up, t.out + {t.kids[q][k]})
  {
    assert KidsOk(t, q) && t.kids[q][k] in t.kids[q];
    DropAt(t.kids[q], k);
  }

  lemma UnlinkRep(l: Links, l': Links, t: Tree, q: Addr, k: nat)
    requires TreeInv(t) && SibRep(l, t) && q in t.kids && q != NULL && k < |t.kids[q]|
    requires UnlinkedFields(l, l', t.kids[q], k, q)
    ensures t.kids[q][k] in t.up && SibRep(l', Detach(t, t.kids[q][k]))
  {
    hide ListsRep, OthersRep, TreeInv, NotStale, UnlinkedFields, Domains, Detach;
    UnlinkLists(l, l', t, q, k);
    UnlinkOthers(l, l', t, q, k);
    UnlinkDomains(l, l', t, q, k);
  }

  lemma UnlinkDomains(l: Links, l': Links, t: Tree, q: Addr, k: nat)
    requires TreeInv(t) && Domains(l, t) && q in t.kids && k < |t.kids[q]|
    requires UnlinkedFields(l, l', t.kids[q], k, q)
    ensures t.kids[q][k] in t.up && Domains(l', Detach(t, t.kids[q][k]))
  {
    DetachCuts(t, q, k);
    hide TreeInv, Linked, HeadMarked, Detach, Cut;
    assert q in l.child;
    assert l'.child.Keys == l.child.Keys;
  }

  lemma UnlinkLists(l: Links, l': Links, t: Tree, q: Addr, k: nat)
    requires TreeInv(t) && SibRep(l, t) && q in t.kids && q != NULL && k < |t.kids[q]|
    requires UnlinkedFields(l, l', t.kids[q], k, q)
    ensures t.kids[q][k] in t.up && ListsRep(l', Detach(t, t.kids[q][k]))
  {
    hide Detach, TreeInv, ListRep, SibRep, UnlinkedFields, Cut;
    DetachCuts(t, q, k);
    var s, t' := Cut(t.kids[q], k), Detach(t, t.kids[q][k]);
    assert t'.kids == t.kids[q := s];
    forall a | a in t'.kids
      ensures ListRep(l', a, t'.kids[a])
    {
      UnlinkList(l, l', t, q, k, a);
    }
  }

  // ------------------------------------------------------------------ putting a chunk in front of a list

  ghost predicate AttachedFields(l: Links, l': Links, s: seq<Addr>, q: Addr, c: Addr) {
    && Linked(l'.next, l'.prev, [c] + s) && HeadMarked(l'.parent, q, [c] + s)
    && SameOutside(l.next, l'.next, [c] + s) && SameOutside(l.prev, l'.prev, [c] + s) && SameOutside(l.parent, l'.parent, [c] + s)
    && l'.child == l.child[q := c]
  }

  lemma AttachList(l: Links, l': Links, t: Tree, q: Addr, c: Addr, a: Addr)
    requires TreeInv(t) && SibRep(l, t) && q in t.kids && a in t.kids && c in t.out
    requires AttachedFields(l, l', t.kids[q], q, c)
    ensures ListRep(l', a, if a == q then [c] + t.kids[q] else t.kids[a])
  {
    if a != q {
      ListsDisjoint(t, a, q);
      assert KidsOk(t, a);
      forall i | 0 <= i < |t.kids[a]| ensures t.kids[a][i] !in [c] + t.kids[q] {
        assert t.kids[a][i] in t.kids[a];
      }
      hide TreeInv;
      assert ListRep(l, a, t.kids[a]);
      hide ListRep, Linked, HeadMarked;
      ListFrame(l, l', a, t.kids[a], [c] + t.kids[q]);
    }
  }

  lemma AttachOthers(l: Links, l': Links, t: Tree, q: Addr, c: Addr)
    requires TreeInv(t) && OthersRep(l, t) && q in t.kids && q != NULL && c in t.out && c != q && NotStale(l, t, c)
    requires AttachedFields(l, l', t.kids[q], q, c)
    ensures OthersRep(l', Attach(t, q, c))
  {
    hide Linked, HeadMarked, TreeInv, TopRep, StaleRep, KidsOk, AttachedFields;
    assert KidsOk(t, q) by { AllKidsOk(t, q); }
    var t' := Attach(t, q, c);
    forall x | x in t'.out && x in t'.up
      ensures StaleRep(l', t', x)
    {
      AttachStale(l, l', t, q, c, x);
    }
    forall y | y in t'.up && y !in t'.out && t'.up[y] == NULL
      ensures TopRep(l', y)
    {
      AttachTop(l, l', t, q, c, y);
    }
  }

  lemma AllKidsOk(t: Tree, q: Addr)
    requires TreeInv(t) && q in t.kids
    ensures KidsOk(t, q)
  {
  }

  lemma AttachStale(l: Links, l': Links, t: Tree, q: Addr, c: Addr, x: Addr)
    requires OthersRep(l, t) && q in t.kids && KidsOk(t, q) && c in t.out && c != q && NotStale(l, t, c)
    requires AttachedFields(l, l', t.kids[q], q, c) && x in t.out && x in t.up && x != c
    ensures StaleRep(l', Attach(t, q, c), x)
  {
    hide Linked, HeadMarked, TopRep;
    assert StaleRep(l, t, x);
    assert x !in [c] + t.kids[q];
  }

  lemma AttachTop(l: Links, l': Links, t: Tree, q: Addr, c: Addr, y: Addr)
    requires q in t.kids && q != NULL && KidsOk(t, q) && AttachedFields(l, l', t.kids[q], q, c)
    requires TopRep(l, y) && y in t.up && t.up[y] == NULL && y != c
    ensures TopRep(l', y)
  {
    hide Linked, HeadMarked;
    assert y !in [c] + t.kids[q];
  }

  lemma AttachRep(l: Links, l': Links, t: Tree, q: Addr, c: Addr)
    requires TreeInv(t) && SibRep(l, t) && q in t.kids && q != NULL && c in t.out && c != q && NotStale(l, t, c)
    requires AttachedFields(l, l', t.kids[q], q, c)
    ensures SibRep(l', Attach(t, q, c))
  {
    hide Attach, TreeInv, ListsRep, OthersRep, AttachedFields, NotStale, Domains;
    AttachOthers(l, l', t, q, c);
    AttachLists(l, l', t, q, c);
    AttachDomains(l, l', t, q, c);
  }

  lemma AttachDomains(l: Links, l': Links, t: Tree, q: Addr, c: Addr)
    requires Domains(l, t) && q in t.kids && AttachedFields(l, l', t.kids[q], q, c)
    ensures Domains(l', Attach(t, q, c))
  {
    hide Linked, HeadMarked;
  }

  lemma AttachLists(l: Links, l': Links, t: Tree, q: Addr, c: Addr)
    requires TreeInv(t) && SibRep(l, t) && q in t.kids && q != NULL && c in t.out
    requires AttachedFields(l, l', t.kids[q], q, c)
    ensures ListsRep(l', Attach(t, q, c))
  {
    hide TreeInv, ListRep, SibRep, AttachedFields;
    forall a | a in t.kids
      ensures ListRep(l', a, if a == q then [c] + t.kids[q] else t.kids[a])
    {
      AttachList(l, l', t, q, c, a);
    }
  }

  /** The chunk `c`, on no list, whose fields change without touching another chunk's. */
  lemma OnlyFieldsOf(l: Links, l': Links, t: Tree, c: Addr, a: Addr)
    requires TreeInv(t) && ListsRep(l, t) && c in t.out && a in t.kids && a in l'.child && l'.child[a] == l.child[a]
    requires SameOutside(l.next, l'.next, [c]) && SameOutside(l.prev, l'.prev, [c]) && SameOutside(l.parent, l'.parent, [c])
    ensures ListRep(l', a, t.kids[a])
  {
    assert KidsOk(t, a) && ListRep(l, a, t.kids[a]);
    forall i | 0 <= i < |t.kids[a]| ensures t.kids[a][i] !in [c] {
      assert t.kids[a][i] in t.kids[a];
    }
    hide TreeInv, ListsRep;
    ListFrame(l, l', a, t.kids[a], [c]);
  }

  /** A chunk put at top level. */
  lemma TopLevelRep(l: Links, l': Links, t: Tree, c: Addr)
    requires TreeInv(t) && SibRep(l, t) && c in t.out && NotStale(l, t, c)
    requires l' == Links(l.next[c := NULL], l.prev[c := NULL], l.parent[c := NULL], l.child)
    ensures SibRep(l', Attach(t, NULL, c))
  {
    hide ListsRep, OthersRep, TreeInv, NotStale, Attach, Domains;
    TopLevelOthers(l, l', t, c);
    TopLevelLists(l, l', t, c);
  }

  lemma SetOne(m: map<Addr, Addr>, c: Addr)
    requires c in m
    ensures SameOutside(m, m[c := NULL], [c])
  {
  }

  lemma TopLevelLists(l: Links, l': Links, t: Tree, c: Addr)
    requires TreeInv(t) && Domains(l, t) && ListsRep(l, t) && c in t.out
    requires l' == Links(l.next[c := NULL], l.prev[c := NULL], l.parent[c := NULL], l.child)
    ensures Domains(l', Attach(t, NULL, c)) && ListsRep(l', Attach(t, NULL, c))
  {
    assert c in l.next.Keys;
    SetOne(l.next, c);
    SetOne(l.prev, c);
    SetOne(l.parent, c);
    hide TreeInv, ListRep, SameOutside;
    forall a | a in t.kids
      ensures ListRep(l', a, t.kids[a])
    {
      OnlyFieldsOf(l, l', t, c, a);
    }
  }

  lemma TopLevelOthers(l: Links, l': Links, t: Tree, c: Addr)
    requires TreeInv(t) && SibRep(l, t) && c in t.out && NotStale(l, t, c)
    requires l' == Links(l.next[c := NULL], l.prev[c := NULL], l.parent[c := NULL], l.child)
    ensures OthersRep(l', Attach(t, NULL, c))
  {
    hide ListsRep;
  }

  /** Releasing a chunk that is on no list and has no children. */
  lemma ReleaseRep(l: Links, l': Links, t: Tree, p: Addr)
    requires TreeInv(t) && SibRep(l, t) && p in t.out && p in t.kids && t.kids[p] == []
    requires forall x :: x in t.out && x != p && x in t.up ==> t.up[x] != p
    requires l' == Links(l.next - {p}, l.prev - {p}, l.parent - {p}, l.child - {p})
    ensures SibRep(l', TreeRemove(t, p))
  {
    hide ListsRep, OthersRep, TreeInv, NotStale, TreeRemove, Domains;
    ReleaseOthers(l, l', t, p);
    ReleaseLists(l, l', t, p);
  }

  lemma ReleaseLists(l: Links, l': Links, t: Tree, p: Addr)
    requires TreeInv(t) && Domains(l, t) && ListsRep(l, t) && p in t.out
    requires l' == Links(l.next - {p}, l.prev - {p}, l.parent - {p}, l.child - {p})
    ensures Domains(l', TreeRemove(t, p)) && ListsRep(l', TreeRemove(t, p))
  {
    hide TreeInv, ListRep;
    forall a | a in t.kids && a != p
      ensures ListRep(l', a, t.kids[a])
    {
      ReleaseList(l, l', t, p, a);
    }
  }

  lemma ReleaseOthers(l: Links, l': Links, t: Tree, p: Addr)
    requires TreeInv(t) && SibRep(l, t) && p in t.out && p in t.kids && t.kids[p] == []
    requires forall x :: x in t.out && x != p && x in t.up ==> t.up[x] != p
    requires l' == Links(l.next - {p}, l.prev - {p}, l.parent - {p}, l.child - {p})
    ensures OthersRep(l', TreeRemove(t, p))
  {
    hide ListsRep;
  }

  lemma ReleaseList(l: Links, l': Links, t: Tree, p: Addr, a: Addr)
    requires TreeInv(t) && ListsRep(l, t) && p in t.out && a in t.kids && a != p
    requires l' == Links(l.next - {p}, l.prev - {p}, l.parent - {p}, l.child - {p})
    ensures ListRep(l', a, t.kids[a])
  {
    hide TreeInv, ListsRep, NoDup, Linked, KidsOk, HeadMarked;
    AllKidsOk(t, a);
    AllListed(l, t, a);
    forall i | 0 <= i < |t.kids[a]| ensures t.kids[a][i] != p {
      ChildUp(t, a, i);
    }
    LinkedWithout(l.next, l.prev, t.kids[a], p);
    HeadWithout(l.parent, a, t.kids[a], p);
  }

  lemma AllListed(l: Links, t: Tree, a: Addr)
    requires ListsRep(l, t) && a in t.kids
    ensures ListRep(l, a, t.kids[a])
  {
  }

  lemma LinkedWithout(next: map<Addr, Addr>, prev: map<Addr, Addr>, s: seq<Addr>, p: Addr)
    requires Linked(next, prev, s) && forall i :: 0 <= i < |s| ==> s[i] != p
    ensures Linked(next - {p}, prev - {p}, s)
  {
    hide NoDup;
  }

  lemma HeadWithout(parent: map<Addr, Addr>, a: Addr, s: seq<Addr>, p: Addr)
    requires HeadMarked(parent, a, s) && forall i :: 0 <= i < |s| ==> s[i] != p
    ensures HeadMarked(parent - {p}, a, s)
  {
  }

  // ------------------------------------------------------------------ the cases of unlinking

  /** A chunk without neighbours and parent is unlinked as it stands. */
  lemma UnlinkTop(l: Links, t: Tree, c: Addr)
    requires TreeInv(t) && SibRep(l, t) && c in t.up && c !in t.out && t.up[c] == NULL
    ensures TopRep(l, c) && SibRep(l, Detach(t, c))
  {
    hide ListsRep, TreeInv, OthersRep, Detach;
    TopDetached(t, c);
    TopOthers(l, t, c);
    ListsSame(l, t, Detach(t, c));
  }

  lemma TopDetached(t: Tree, c: Addr)
    requires TreeInv(t) && c in t.up && c !in t.out && t.up[c] == NULL
    ensures Detach(t, c) == Tree(t.kids, t.up, t.out + {c})
  {
    assert NULL !in t.kids by { assert forall a :: a in t.up ==> UpOk(t, a); }
    hide TreeInv;
  }

  lemma TopOthers(l: Links, t: Tree, c: Addr)
    requires OthersRep(l, t) && c in t.up && c !in t.out && t.up[c] == NULL
    ensures TopRep(l, c) && OthersRep(l, Tree(t.kids, t.up, t.out + {c}))
  {
    var t' := Tree(t.kids, t.up, t.out + {c});
    assert TopRep(l, c);
    forall x | x in t'.out && x in t'.up ensures StaleRep(l, t', x) {
      assert x != c ==> StaleRep(l, t, x);
    }
  }

  lemma ListsSame(l: Links, t: Tree, t': Tree)
    requires ListsRep(l, t) && t'.kids == t.kids
    ensures ListsRep(l, t')
  {
  }

  /** The head of a list leaves it. */
  lemma UnlinkHead(l: Links, l': Links, s: seq<Addr>, q: Addr)
    requires ListRep(l, q, s) && s != [] && q != NULL
    requires Linked(l'.next, l'.prev, Cut(s, 0)) && SameOutside(l.next, l'.next, s) && SameOutside(l.prev, l'.prev, s)
    requires s[0] in l'.prev && l'.prev[s[0]] == NULL
    requires l'.child == l.child[q := At(Cut(s, 0), 0)]
    requires l'.parent == if |s| > 1 then l.parent[s[1] := q] else l.parent
    ensures UnlinkedFields(l, l', s, 0, q)
  {
    hide Linked, SameOutside, Cut;
    FirstOut(l, s, q);
    MarkNext(l.parent, q, s);
  }

  lemma FirstOut(l: Links, s: seq<Addr>, q: Addr)
    requires Linked(l.next, l.prev, s) && s != []
    ensures NoDup(s) && Cut(s, 0) == s[1..] && At(s, -1) == NULL
  {
  }

  /** The mark moves from the first to the second node. */
  lemma MarkNext(parent: map<Addr, Addr>, q: Addr, s: seq<Addr>)
    requires HeadMarked(parent, q, s) && NoDup(s) && s != []
    ensures var parent' := if |s| > 1 then parent[s[1] := q] else parent;
      && HeadMarked(parent', q, s[1..]) && SameOutside(parent, parent', s) && s[0] in parent' && parent'[s[0]] == q
  {
  }

  /** A chunk further down a list leaves it; its own fields stay as they were. */
  lemma UnlinkInner(l: Links, l': Links, s: seq<Addr>, k: nat, q: Addr)
    requires ListRep(l, q, s) && 0 < k < |s|
    requires l'.next == l.next[s[k - 1] := At(s, k + 1)]
    requires l'.prev == if k + 1 < |s| then l.prev[s[k + 1] := s[k - 1]] else l.prev
    requires l'.child == l.child && l'.parent == l.parent
    ensures UnlinkedFields(l, l', s, k, q)
  {
    hide NoDup, Cut;
    Others(s, k);
    CutLinked(l.next, l.prev, l'.next, l'.prev, s, k);
    MarkKept(l.parent, q, s, k);
    hide HeadMarked;
    assert Cut(s, k) != [] && At(Cut(s, k), 0) == s[0] by { CutHead(s, k); CutSize(s, k); }
  }

  lemma CutSize(s: seq<Addr>, k: nat)
    requires k < |s|
    ensures |Cut(s, k)| == |s| - 1
  {
  }

  /** The first node keeps the mark when a later one goes. */
  lemma MarkKept(parent: map<Addr, Addr>, q: Addr, s: seq<Addr>, k: nat)
    requires HeadMarked(parent, q, s) && 0 < k < |s|
    ensures HeadMarked(parent, q, Cut(s, k)) && s[k] in parent && parent[s[k]] == NULL
  {
  }

  /** The entries of `w` are as they were. */
  ghost predicate SameOn(m: map<Addr, Addr>, m': map<Addr, Addr>, w: set<Addr>) {
    forall x :: x in w && x in m ==> x in m' && m'[x] == m[x]
  }

  lemma UnlinkKeepsStale(l: Links, l': Links, t: Tree, q: Addr, k: nat)
    requires TreeInv(t) && q in t.kids && k < |t.kids[q]| && UnlinkedFields(l, l', t.kids[q], k, q)
    requires t.kids[q][k] in l.prev && l.prev[t.kids[q][k]] == At(t.kids[q], k - 1)
    ensures SameOn(l.prev, l'.prev, t.out + {t.kids[q][k]})
  {
    assert KidsOk(t, q);
    hide Linked, HeadMarked, TreeInv;
  }

  lemma AttachKeepsStale(l: Links, l': Links, t: Tree, q: Addr, c: Addr)
    requires TreeInv(t) && q in t.kids && AttachedFields(l, l', t.kids[q], q, c)
    ensures SameOn(l.prev, l'.prev, t.out - {c})
  {
    assert KidsOk(t, q);
    hide Linked, HeadMarked, TreeInv;
  }

  lemma SetKeeps(m: map<Addr, Addr>, c: Addr, v: Addr, w: set<Addr>)
    requires c !in w
    ensures SameOn(m, m[c := v], w)
  {
  }

  lemma SameOnChain(m: map<Addr, Addr>, m1: map<Addr, Addr>, m2: map<Addr, Addr>, w1: set<Addr>, w: set<Addr>)
    requires SameOn(m, m1, w1) && SameOn(m1, m2, w) && w <= w1
    ensures SameOn(m, m2, w)
  {
  }

  lemma StaysNotStale(l: Links, l': Links, t: Tree, c: Addr)
    requires NotStale(l, t, c) && SameOn(l.prev, l'.prev, t.out + {c}) && l'.prev.Keys == l.prev.Keys
    requires c in t.up
    ensures NotStale(l', Detach(t, c), c)
  {
  }
}
