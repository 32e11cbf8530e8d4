/** Walking the `prev` fields to the head of a list: the walk ends, and at the old parent. */
module Walks {
  import opened Seqs
  import opened Tlist
  import opened ChildLists
  import opened Siblings

  /** How many `prev` steps are left at most. */
  function StepsLeft(t: Tree, c: Addr): nat
    requires c in t.up
  {
    var q := t.up[c];
    if q !in t.kids then 0
    else if c in t.out then |t.kids[q]|
    else Index(t.kids[q], c)
  }

  /** What a chunk off its list points back to, if anything, is still there. */
  ghost predicate Walkable(l: Links, t: Tree, c: Addr) {
    c in l.prev && (l.prev[c] == NULL || (l.prev[c] in t.up && l.prev[c] !in t.out))
  }

  lemma PrevStep(l: Links, t: Tree, c: Addr)
    requires TreeInv(t) && SibRep(l, t) && c in t.up && (c in t.out ==> Walkable(l, t, c))
    ensures c in l.prev && c in l.parent
    ensures l.prev[c] == NULL ==> l.parent[c] == t.up[c] && (t.up[c] == NULL || t.up[c] in t.kids)
    ensures l.prev[c] != NULL ==>
      var y := l.prev[c];
      y in t.up && y !in t.out && t.up[y] == t.up[c] && StepsLeft(t, y) < StepsLeft(t, c)
  {
    hide SibRep, TreeInv, Linked, HeadMarked, ListRep, KidsOk;
    var q := t.up[c];
    OtherAt(l, t, c);
    if c in t.out {
      if l.prev[c] != NULL {
        ListPosition(t, l.prev[c]);
      }
    } else if q != NULL {
      ChunkAt(l, t, c);
      AllKidsOk(t, q);
      KidsNoDup(t, q);
      var i := StepsLeft(t, c);
      if i > 0 {
        ChildUp(t, q, i - 1);
        IndexAt(t.kids[q], i - 1);
      }
    }
  }

  /** A chunk that is in no list. */
  lemma OtherAt(l: Links, t: Tree, c: Addr)
    requires SibRep(l, t) && c in t.up
    ensures c in t.out ==> StaleRep(l, t, c)
    ensures c !in t.out && t.up[c] == NULL ==> TopRep(l, c)
  {
    hide ListsRep;
  }

  lemma KidsNoDup(t: Tree, q: Addr)
    requires q in t.kids && KidsOk(t, q)
    ensures NoDup(t.kids[q])
  {
  }

  lemma ListPosition(t: Tree, c: Addr)
    requires TreeInv(t) && c in t.up && c !in t.out && t.up[c] != NULL
    ensures t.up[c] in t.kids && StepsLeft(t, c) < |t.kids[t.up[c]]| && t.kids[t.up[c]][StepsLeft(t, c)] == c
  {
    var q := t.up[c];
    assert UpOk(t, c) && KidsOk(t, q);
    var i :| 0 <= i < |t.kids[q]| && t.kids[q][i] == c;
    IndexAt(t.kids[q], i);
  }

  /** Where a chunk that hangs from a parent is found, and what its fields hold. */
  lemma ChunkAt(l: Links, t: Tree, c: Addr)
    requires TreeInv(t) && SibRep(l, t) && c in t.up && c !in t.out && t.up[c] != NULL
    ensures t.up[c] in t.kids
    ensures var q, k := t.up[c], StepsLeft(t, c); var s := t.kids[q];
      && k < |s| && s[k] == c && ListRep(l, q, s)
      && c in l.next && l.next[c] == At(s, k + 1) && c in l.prev && l.prev[c] == At(s, k - 1)
      && c in l.parent && l.parent[c] == (if k == 0 then q else NULL)
      && (k > 0 ==> s[k - 1] != NULL && s[k - 1] in l.next) && (k + 1 < |s| ==> s[k + 1] != NULL && s[k + 1] in l.prev)
  {
    hide TreeInv, SibRep, NoDup, StepsLeft;
    ListPosition(t, c);
    ListOf(l, t, t.up[c]);
  }

  /** What is known of a chunk that is about to leave its list. */
  lemma ReadyToUnlink(l: Links, t: Tree, c: Addr)
    requires TreeInv(t) && SibRep(l, t) && c in t.up && c !in t.out
    ensures Detach(t, c).out == t.out + {c}
    ensures t.up[c] == NULL ==> TopRep(l, c) && SibRep(l, Detach(t, c)) && SameOn(l.prev, l.prev, t.out + {c})
    ensures t.up[c] != NULL ==>
      t.up[c] in t.kids
      && var q, k := t.up[c], StepsLeft(t, c); var s := t.kids[q];
      && k < |s| && s[k] == c && ListRep(l, q, s) && c in l.prev && l.prev[c] == At(s, k - 1)
  {
    if t.up[c] == NULL {
      UnlinkTop(l, t, c);
      hide SibRep, TreeInv;
    } else {
      ChunkAt(l, t, c);
      hide SibRep, TreeInv;
    }
  }

  /** A chunk whose parent field is set heads the list of that parent. */
  lemma HeadOfParent(l: Links, t: Tree, c: Addr, q: Addr)
    requires TreeInv(t) && SibRep(l, t) && c in t.up && c !in t.out && c in l.parent && l.parent[c] == q && q != NULL
    ensures q in t.kids && t.up[c] == q && Move(t, q, c) == t
  {
    assert t.up[c] == NULL ==> TopRep(l, c);
    ChunkAt(l, t, c);
    MoveHead(t, c);
  }

  /** What moving `c` below `q` does to the marks and the domain. */
  lemma MoveFacts(t: Tree, q: Addr, c: Addr)
    requires TreeInv(t) && c in t.up && c !in t.out && c != q && (q == NULL || q in t.kids)
    ensures Detach(t, c).out == t.out + {c} && Detach(t, c).kids.Keys == t.kids.Keys && TreeInv(Detach(t, c))
    ensures Move(t, q, c) == Attach(Detach(t, c), q, c) && Move(t, q, c).out == t.out && c != NULL
    ensures q != NULL ==> c !in Detach(t, c).kids[q]
  {
    DetachInv(t, c);
    MoveInv(t, q, c);
    assert UpOk(t, c);
    if q != NULL {
      assert KidsOk(Detach(t, c), q);
    }
  }

  lemma ListOf(l: Links, t: Tree, q: Addr)
    requires SibRep(l, t) && q in t.kids
    ensures ListRep(l, q, t.kids[q])
  {
  }
}
