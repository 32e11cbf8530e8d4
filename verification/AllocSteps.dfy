/**
 Creating chunks and reference handles: the field updates spell out the edits of the abstract state.
 */
module AllocSteps {
  import opened Seqs
  import opened Tlist
  import opened ChildLists
  import opened RefLists
  import opened Forests
  import opened Siblings
  import opened RefLinks
  import opened Walks
  import opened Operations
  import opened TallocSteps

  /** The fields of the fresh chunk `a` before it is put anywhere. */
  function Blank(l: Links, a: Addr): Links {
    Links(l.next[a := NULL], l.prev[a := NULL], l.parent[a := NULL], l.child[a := NULL])
  }

  lemma BlankList(l: Links, t: Tree, a: Addr, x: Addr)
    requires ListsRep(l, t) && x in t.kids && TreeInv(t) && a !in t.kids
    ensures ListRep(Blank(l, a), x, t.kids[x])
  {
    assert ListRep(l, x, t.kids[x]) && KidsOk(t, x);
    NotInList(t.kids[x], t.up.Keys, a);
    hide TreeInv, ListsRep, NoDup, KidsOk;
  }

  lemma NotInList(s: seq<Addr>, w: set<Addr>, a: Addr)
    requires (forall c :: c in s ==> c in w) && a !in w
    ensures forall i :: 0 <= i < |s| ==> s[i] != a
  {
  }

  lemma BlankRep(l: Links, f: Forest, a: Addr)
    requires SibRep(l, f.tree) && Inv(f) && a !in Live(f) && a != NULL && f.tree.out == {}
    ensures SibRep(Blank(l, a), Newborn(f, a).tree)
  {
    hide Inv, ListsRep, OthersRep, TreeInv;
    KeysAgree(f);
    BlankLists(l, f, a);
    BlankOthers(l, f, a);
  }

  lemma BlankLists(l: Links, f: Forest, a: Addr)
    requires ListsRep(l, f.tree) && Inv(f) && a !in Live(f) && a != NULL
    ensures ListsRep(Blank(l, a), Newborn(f, a).tree)
  {
    var t := Newborn(f, a).tree;
    hide TreeInv, RefsInv, ListsRep, ListRep;
    assert ListRep(Blank(l, a), a, []) by { EmptyList(l, a); }
    forall x | x in t.kids ensures ListRep(Blank(l, a), x, t.kids[x]) {
      if x != a {
        BlankList(l, f.tree, a, x);
      }
    }
    assert ListsRep(Blank(l, a), t) by { AllLists(Blank(l, a), t); }
  }

  lemma EmptyList(l: Links, a: Addr)
    ensures ListRep(Blank(l, a), a, [])
  {
  }

  lemma AllLists(l: Links, t: Tree)
    requires forall x :: x in t.kids ==> ListRep(l, x, t.kids[x])
    ensures ListsRep(l, t)
  {
  }

  lemma BlankOthers(l: Links, f: Forest, a: Addr)
    requires OthersRep(l, f.tree) && Inv(f) && a !in Live(f) && a != NULL && f.tree.out == {}
    ensures OthersRep(Blank(l, a), Newborn(f, a).tree)
  {
    KeysAgree(f);
    hide Inv;
  }

  /** The fields written when `a` becomes a child of `q`, `s` being the old children. */
  lemma AllocBelow(l: Links, l2: Links, f: Forest, q: Addr, a: Addr)
    requires SibRep(l, f.tree) && Inv(f) && a !in Live(f) && a != NULL && f.tree.out == {} && q in Live(f) && q != NULL
    requires AttachedFields(Blank(l, a), l2, f.tree.kids[q], q, a)
    ensures SibRep(l2, Attach(Newborn(f, a).tree, q, a))
  {
    hide SibRep, TreeInv, AttachedFields, RefsInv, Attach;
    KeysAgree(f);
    NewbornInv(f, a);
    BlankRep(l, f, a);
    AttachRep(Blank(l, a), l2, Newborn(f, a).tree, q, a);
  }

  lemma AllocTop(l: Links, f: Forest, a: Addr)
    requires SibRep(l, f.tree) && Inv(f) && a !in Live(f) && a != NULL && f.tree.out == {}
    ensures SibRep(Blank(l, a), Attach(Newborn(f, a).tree, NULL, a))
  {
    hide SibRep, TreeInv, RefsInv;
    KeysAgree(f);
    NewbornInv(f, a);
    BlankRep(l, f, a);
    var b, t := Blank(l, a), Newborn(f, a).tree;
    assert b == Links(b.next[a := NULL], b.prev[a := NULL], b.parent[a := NULL], b.child);
    TopLevelRep(b, b, t, a);
  }

  /** Putting the fresh chunk in front of the list. */
  lemma FirstChild(l: Links, s: seq<Addr>, q: Addr, a: Addr)
    requires ListRep(l, q, s) && a !in s && a != NULL && q != a
    ensures var b := Blank(l, a);
      AttachedFields(b, Links(b.next[a := At(s, 0)], if s == [] then b.prev else b.prev[s[0] := a],
                              (if s == [] then b.parent else b.parent[s[0] := NULL])[a := q], b.child[q := a]), s, q, a)
  {
    hide Linked, HeadMarked, SameOutside;
    LinkedFront(l.next, l.prev, s, a);
    MarkFront(l.parent, q, s, a) by { LinkedNoDup(l.next, l.prev, s); }
  }

  lemma LinkedNoDup(next: map<Addr, Addr>, prev: map<Addr, Addr>, s: seq<Addr>)
    requires Linked(next, prev, s)
    ensures NoDup(s)
  {
  }

  lemma LinkedFront(next: map<Addr, Addr>, prev: map<Addr, Addr>, s: seq<Addr>, a: Addr)
    requires Linked(next, prev, s) && a !in s && a != NULL
    ensures var next', prev' := next[a := NULL][a := At(s, 0)], if s == [] then prev[a := NULL] else prev[a := NULL][s[0] := a];
      Linked(next', prev', [a] + s) && SameOutside(next[a := NULL], next', [a] + s) && SameOutside(prev[a := NULL], prev', [a] + s)
  {
    hide NoDup;
    NoDupCons(a, s);
    HeadIn(s);
    HeadOnce(s);
  }

  lemma HeadOnce(s: seq<Addr>)
    requires NoDup(s)
    ensures forall i :: 0 < i < |s| ==> s[i] != s[0]
  {
  }

  lemma MarkFront(parent: map<Addr, Addr>, q: Addr, s: seq<Addr>, a: Addr)
    requires HeadMarked(parent, q, s) && NoDup(s) && a !in s
    ensures var parent' := (if s == [] then parent[a := NULL] else parent[a := NULL][s[0] := NULL])[a := q];
      HeadMarked(parent', q, [a] + s) && SameOutside(parent[a := NULL], parent', [a] + s)
  {
    hide NoDup;
    HeadIn(s);
    HeadOnce(s);
  }

  // ------------------------------------------------------------------ the whole state

  lemma NewbornHooks(k: Hooks, f: Forest, a: Addr)
    requires RefRep(k, f.refs) && Inv(f) && a !in Live(f)
    ensures RefRep(k.(refs := k.refs[a := NULL]), Newborn(f, a).refs)
  {
    KeysAgree(f);
    var k', r := k.(refs := k.refs[a := NULL]), Newborn(f, a).refs;
    hide Inv, Linked;
    forall x | x in r.list ensures HookList(k', x, r.list[x]) {
      if x == a {
        NothingLinked(k);
      } else {
        assert HookList(k, x, f.refs.list[x]);
      }
    }
  }

  lemma NothingLinked(k: Hooks)
    ensures Linked(k.next, k.prev, [])
  {
  }

  lemma RepAllocated(l: Links, l2: Links, k: Hooks, d: map<Addr, Destructor>, sized: set<Addr>, calls: seq<Addr>, f: Forest, ctx: Addr, a: Addr)
    requires Represents(l, k, d, sized, calls, f) && f.tree.out == {} && a !in Live(f) && a != NULL && IsContext(f, ctx)
    requires Context(f, ctx) == NULL || Context(f, ctx) in Live(f)
    requires SibRep(l2, Allocated(f, ctx, a).tree)
    ensures Represents(l2, k.(refs := k.refs[a := NULL]), d[a := Unset], sized + {a}, calls, Allocated(f, ctx, a))
  {
    hide SibRep, RefRep, TreeInv, RefsInv, Inv, Attach;
    AllocatedInv(f, ctx, a);
    NewbornHooks(k, f, a);
    AllocDtor(d, f, a);
  }

  lemma AllocDtor(d: map<Addr, Destructor>, f: Forest, a: Addr)
    requires DtorRep(d, f.dtor, f.refs.target) && Inv(f) && a !in Live(f)
    ensures DtorRep(d[a := Unset], f.dtor[a := NoDtor], f.refs.target)
  {
    KeysAgree(f);
    assert forall h :: h in f.refs.target ==> HandleOk(f, h);
  }

  /** The chunk `h` becomes a handle. */
  lemma RepHooked(l: Links, k: Hooks, k2: Hooks, d: map<Addr, Destructor>, sized: set<Addr>, calls: seq<Addr>, f: Forest, p: Addr, h: Addr)
    requires Represents(l, k, d, sized, calls, f) && f.tree.out == {} && h in Live(f) && h !in f.refs.target && h != f.nullCtx
    requires f.tree.kids[h] == [] && h in f.refs.list && f.refs.list[h] == [] && h in f.dtor && f.dtor[h] == NoDtor
    requires p in Live(f) && p in f.refs.list && p !in f.refs.target && p != h && p != f.nullCtx && h != NULL
    requires HookedFields(Body(k, h), k2, f.refs.list[p], p, h)
    ensures Represents(l, k2, d[h := RefHandle], sized, calls, f.(refs := Hook(f.refs, h, p)))
  {
    hide SibRep, RefRep, TreeInv, RefsInv, Inv, HookedFields, Hook, HandleOk;
    RepFacts(l, k, d, sized, calls, f);
    HookedInv(f, h, p);
    BodyRep(k, f, h);
    HookRep(Body(k, h), k2, f.refs, p, h);
    HookedFacts(k, k2, f, p, h);
    HookDtor(d, f, h, p);
  }

  function Body(k: Hooks, h: Addr): Hooks {
    k.(next := k.next[h := NULL], prev := k.prev[h := NULL], ptr := k.ptr[h := NULL])
  }

  lemma HookedFacts(k: Hooks, k2: Hooks, f: Forest, p: Addr, h: Addr)
    requires p in f.refs.list && HookedFields(Body(k, h), k2, f.refs.list[p], p, h) && k.ptr.Keys <= Live(f) && h in Live(f)
    ensures k2.ptr.Keys <= Live(f)
  {
  }

  lemma HookedInv(f: Forest, h: Addr, p: Addr)
    requires Inv(f) && f.tree.out == {} && h in Live(f) && h !in f.refs.target && h != f.nullCtx && p != f.nullCtx
    requires f.tree.kids[h] == [] && f.refs.list[h] == [] && f.dtor[h] == NoDtor
    requires p in Live(f) && p !in f.refs.target && p != h
    ensures p in f.refs.list && Inv(f.(refs := Hook(f.refs, h, p)))
  {
    hide TreeInv, RefsInv;
    HookInv(f.refs, h, p);
    HookHandles(f, h, p);
  }

  lemma BodyRep(k: Hooks, f: Forest, h: Addr)
    requires RefRep(k, f.refs) && Inv(f) && h !in f.refs.target
    ensures RefRep(Body(k, h), f.refs)
  {
    hide Inv, HookList, HookLists;
    forall x | x in f.refs.list ensures HookList(Body(k, h), x, f.refs.list[x]) {
      BodyList(k, f, h, x);
    }
    AllHooks(Body(k, h), f.refs);
  }

  lemma AllHooks(k: Hooks, r: Refs)
    requires forall x :: x in r.list ==> HookList(k, x, r.list[x])
    ensures HookLists(k, r)
  {
  }

  lemma BodyList(k: Hooks, f: Forest, h: Addr, x: Addr)
    requires HookLists(k, f.refs) && Inv(f) && h !in f.refs.target && x in f.refs.list
    ensures HookList(Body(k, h), x, f.refs.list[x])
  {
    assert HookList(k, x, f.refs.list[x]) && ListOk(f.refs, x);
    NotInList(f.refs.list[x], f.refs.target.Keys, h);
    hide Inv, HookLists, NoDup;
  }

  lemma HookDtor(d: map<Addr, Destructor>, f: Forest, h: Addr, p: Addr)
    requires DtorRep(d, f.dtor, f.refs.target) && h in f.dtor && p in f.refs.list
    ensures DtorRep(d[h := RefHandle], f.dtor, Hook(f.refs, h, p).target)
  {
  }

  /** The fields after the updates that put the new chunk `a` in front of the children of `q`. */
  function ChildFields(l: Links, q: Addr, a: Addr): Links
    requires q in l.child
  {
    var c := l.child[q];
    Links(l.next[a := c], (if c == NULL then l.prev else l.prev[c := a])[a := NULL],
          (if c == NULL then l.parent else l.parent[c := NULL])[a := q], l.child[a := NULL][q := a])
  }

  lemma HeadField(l: Links, f: Forest, q: Addr, a: Addr)
    requires SibRep(l, f.tree) && Inv(f) && q in Live(f) && a !in Live(f)
    ensures ListRep(l, q, f.tree.kids[q]) && a !in f.tree.kids[q] && q != NULL
  {
    KeysAgree(f);
    ListOf(l, f.tree, q);
    assert KidsOk(f.tree, q);
  }

  lemma SameFields(l: Links, s: seq<Addr>, q: Addr, a: Addr)
    requires ListRep(l, q, s) && a !in s && a != NULL && q != a
    ensures var b, l' := Blank(l, a), ChildFields(l, q, a);
      && l'.next == b.next[a := At(s, 0)] && l'.prev == (if s == [] then b.prev else b.prev[s[0] := a])
      && l'.parent == (if s == [] then b.parent else b.parent[s[0] := NULL])[a := q] && l'.child == b.child[q := a]
  {
    HeadIn(s);
    hide NoDup;
  }

  lemma FirstOfList(l: Links, f: Forest, q: Addr, a: Addr)
    requires SibRep(l, f.tree) && Inv(f) && q in Live(f) && a !in Live(f) && a != NULL
    ensures q in l.child && q != NULL && q != a
    ensures l.child[q] != NULL ==> l.child[q] in l.prev && l.child[q] in l.parent && l.child[q] != a
    ensures AttachedFields(Blank(l, a), ChildFields(l, q, a), f.tree.kids[q], q, a)
  {
    hide Inv, SibRep, AttachedFields, Blank, ChildFields, NoDup;
    HeadField(l, f, q, a);
    FirstChild(l, f.tree.kids[q], q, a);
    SameFields(l, f.tree.kids[q], q, a);
  }

  /** Where the parent of the new chunk keeps its first child. */
  lemma InitFacts(l: Links, k: Hooks, d: map<Addr, Destructor>, sized: set<Addr>, calls: seq<Addr>, f: Forest, q: Addr, a: Addr)
    requires Represents(l, k, d, sized, calls, f) && a !in Live(f) && (q == NULL || q in Live(f))
    ensures a !in l.child && a !in l.prev && (q != NULL ==> q in l.child)
    ensures q in l.child && l.child[q] != NULL ==> l.child[q] in l.prev && l.child[q] in l.parent
  {
    hide Inv, SibRep, RefRep, DtorRep;
    RepFacts(l, k, d, sized, calls, f);
    if q != NULL {
      HeadField(l, f, q, a);
    }
  }

  /** The fields of a complete new chunk. */
  lemma RepInit(l: Links, l': Links, k: Hooks, d: map<Addr, Destructor>, sized: set<Addr>, calls: seq<Addr>, f: Forest, q: Addr, a: Addr)
    requires Represents(l, k, d, sized, calls, f) && f.tree.out == {} && a !in Live(f) && a != NULL
    requires (q == NULL || (q in Live(f) && q !in f.refs.target)) && (q == NULL ==> f.nullCtx == NULL) && (q != NULL ==> q in l.child)
    requires l' == if q == NULL then Blank(l, a) else ChildFields(l, q, a)
    ensures Context(f, q) == NULL || Context(f, q) in Live(f)
    ensures Allocated(f, q, a).tree.out == {} && Allocated(f, q, a).nullCtx == f.nullCtx
    ensures Represents(l', k.(refs := k.refs[a := NULL]), d[a := Unset], sized + {a}, calls, Allocated(f, q, a))
  {
    hide Inv, SibRep, RefRep, DtorRep, Represents, Blank, ChildFields, Newborn, Attach, AttachedFields;
    RepFacts(l, k, d, sized, calls, f);
    AllocatedInv(f, q, a);
    if q == NULL {
      AllocTop(l, f, a);
    } else {
      FirstOfList(l, f, q, a);
      AllocBelow(l, l', f, q, a);
    }
    RepAllocated(l, l', k, d, sized, calls, f, q, a);
  }

  /** A new chunk changes nobody else's references. */
  lemma AllocatedRefs(f: Forest, ctx: Addr, a: Addr)
    requires Inv(f) && a !in Live(f) && (Context(f, ctx) == NULL || Context(f, ctx) in Live(f))
    ensures Allocated(f, ctx, a).refs == f.refs.(list := f.refs.list[a := []])
    ensures a in Allocated(f, ctx, a).dtor && Allocated(f, ctx, a).dtor[a] == NoDtor
  {
  }

  lemma ReferencedIs(f: Forest, ctx: Addr, p: Addr, h: Addr)
    requires (Context(f, ctx) == NULL || Context(f, ctx) in Live(f)) && p in f.refs.list
    ensures p in Allocated(f, ctx, h).refs.list
    ensures Referenced(f, ctx, p, h) == Allocated(f, ctx, h).(refs := Hook(Allocated(f, ctx, h).refs, h, p))
  {
  }

  lemma HooksReady(k: Hooks, f: Forest, p: Addr, h: Addr)
    requires Inv(f) && RefRep(k, f.refs) && p in f.refs.list && h !in f.refs.target && h != NULL
    ensures h !in f.refs.list[p] && p in k.refs && k.refs[p] == At(f.refs.list[p], 0)
    ensures Linked(k.next[h := NULL], k.prev[h := NULL], f.refs.list[p])
  {
    hide HookDomains, TreeInv, HookLists;
    BodyRep(k, f, h);
    HooksOf(k, f.refs, p);
    HooksOf(Body(k, h), f.refs, p);
    assert ListOk(f.refs, p);
  }

  lemma HooksOf(k: Hooks, r: Refs, p: Addr)
    requires HookLists(k, r) && p in r.list
    ensures HookList(k, p, r.list[p])
  {
  }

  lemma HooksDone(k: Hooks, k': Hooks, s: seq<Addr>, p: Addr, h: Addr)
    requires Linked(k'.next, k'.prev, [h] + s) && p in k.refs
    requires SameOutside(k.next[h := NULL], k'.next, [h] + s) && SameOutside(k.prev[h := NULL], k'.prev, [h] + s)
    requires k'.refs == k.refs[p := h] && k'.ptr == k.ptr[h := p]
    ensures HookedFields(Body(k, h), k', s, p, h)
  {
    hide Linked, SameOutside;
  }
}
