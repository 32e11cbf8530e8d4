/**
 The child lists of the allocator as a value: for every live chunk its ordered list of
 children and its parent, and which chunks are in no list because they are being emptied.
 */
module ChildLists {
  import opened Seqs

  /** `up` is the tree parent, NULL for a top-level chunk. A chunk in `out` hangs in no list;
      its `up` remembers the parent it was taken from. */
  datatype Tree = Tree(kids: map<Addr, seq<Addr>>, up: map<Addr, Addr>, out: set<Addr>)

  ghost predicate KidsOk(t: Tree, a: Addr)
    requires a in t.kids
  {
    && NoDup(t.kids[a])
    && forall c :: c in t.kids[a] ==> c in t.up && t.up[c] == a && c !in t.out
  }

  lemma ChildUp(t: Tree, a: Addr, i: nat)
    requires a in t.kids && KidsOk(t, a) && i < |t.kids[a]|
    ensures t.kids[a][i] in t.up && t.up[t.kids[a][i]] == a && t.kids[a][i] !in t.out
  {
    var c := AtIn(t.kids[a], i);
  }

  ghost predicate UpOk(t: Tree, a: Addr)
    requires a in t.up
  {
    && a != NULL && t.up[a] != a
    && (t.up[a] != NULL && a !in t.out ==> t.up[a] in t.kids && a in t.kids[t.up[a]])
  }

  ghost predicate TreeInv(t: Tree) {
    && t.kids.Keys == t.up.Keys && t.out <= t.up.Keys
    && (forall a :: a in t.kids ==> KidsOk(t, a))
    && (forall a :: a in t.up ==> UpOk(t, a))
  }

  /** Take `c` out of its parent's child list. */
  function Detach(t: Tree, c: Addr): Tree
    requires c in t.up
  {
    var q := t.up[c];
    t.(kids := if q in t.kids then t.kids[q := Drop(t.kids[q], {c})] else t.kids, out := t.out + {c})
  }

  /** Put `c` at the head of `q`'s child list, or at top level when `q` is NULL. */
  function Attach(t: Tree, q: Addr, c: Addr): Tree
    requires q == NULL || q in t.kids
  {
    Tree(if q == NULL then t.kids else t.kids[q := [c] + t.kids[q]], t.up[c := q], t.out - {c})
  }

  function Move(t: Tree, q: Addr, c: Addr): Tree
    requires c in t.up && (q == NULL || q in t.kids)
  {
    Attach(Detach(t, c), q, c)
  }

  /** The chunk is gone. */
  function TreeRemove(t: Tree, c: Addr): Tree {
    Tree(t.kids - {c}, t.up - {c}, t.out - {c})
  }

  lemma DetachInv(t: Tree, c: Addr)
    requires TreeInv(t) && c in t.up
    ensures TreeInv(Detach(t, c))
  {
    if t.up[c] in t.kids {
      DropNoDup(t.kids[t.up[c]], {c});
    }
  }

  lemma AttachInv(t: Tree, q: Addr, c: Addr)
    requires TreeInv(t) && c in t.out && c != q && (q == NULL || q in t.kids)
    ensures TreeInv(Attach(t, q, c))
  {
    if q != NULL {
      NoDupCons(c, t.kids[q]);
    }
  }

  lemma TreeRemoveInv(t: Tree, c: Addr)
    requires TreeInv(t) && c in t.out && t.kids[c] == []
    ensures TreeInv(TreeRemove(t, c))
  {
  }

  lemma MoveInv(t: Tree, q: Addr, c: Addr)
    requires TreeInv(t) && c in t.up && c != q && (q == NULL || q in t.kids)
    ensures TreeInv(Move(t, q, c))
    ensures Move(t, q, c).out == t.out - {c}
    ensures Move(t, q, c).kids.Keys == t.kids.Keys && Move(t, q, c).up == t.up[c := q]
  {
    DetachInv(t, c);
    AttachInv(Detach(t, c), q, c);
  }

  /** Moving the head of a list to the head of the same list changes nothing. */
  lemma MoveHead(t: Tree, c: Addr)
    requires TreeInv(t) && c in t.up && c !in t.out && t.up[c] in t.kids && t.kids[t.up[c]] != [] && t.kids[t.up[c]][0] == c
    ensures Move(t, t.up[c], c) == t
  {
    var q := t.up[c];
    assert KidsOk(t, q);
    DropHead(t.kids[q]);
    assert t.kids[q] == [c] + t.kids[q][1..];
  }
}
