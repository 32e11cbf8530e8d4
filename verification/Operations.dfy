/**
 The other operations of the allocator on the abstract state: allocation, references, re-parenting
 and the removal of one owner, and what they do to the owners of a chunk.
 */
module Operations {
  import opened Seqs
  import opened ChildLists
  import opened RefLists
  import opened Forests

  /** The limit on the size of a chunk. */
  const MAX_TALLOC_SIZE := 0x10000000

  /** The size of the body of a reference handle: three pointers. */
  const HANDLE_SIZE := 24

  function Context(f: Forest, ctx: Addr): Addr {
    if ctx == NULL then f.nullCtx else ctx
  }

  /** Nothing but the null context, if there is one. */
  function Fresh(nullCtx: Addr): Forest {
    if nullCtx == NULL then Forest(Tree(map[], map[], {}), Refs(map[], map[]), map[], NULL, [])
    else Forest(Tree(map[nullCtx := []], map[nullCtx := NULL], {}), Refs(map[nullCtx := []], map[]), map[nullCtx := NoDtor], nullCtx, [])
  }

  /** A chunk `a` that exists but hangs nowhere yet. */
  function Newborn(f: Forest, a: Addr): Forest {
    f.(tree := Tree(f.tree.kids[a := []], f.tree.up[a := NULL], f.tree.out + {a}),
       refs := f.refs.(list := f.refs.list[a := []]), dtor := f.dtor[a := NoDtor])
  }

  /** The new chunk `a` is the first child of its context. */
  function Allocated(f: Forest, ctx: Addr, a: Addr): Forest
    requires Context(f, ctx) == NULL || Context(f, ctx) in Live(f)
  {
    var g := Newborn(f, a);
    g.(tree := Attach(g.tree, Context(f, ctx), a))
  }

  /** The new handle `h` below `ctx` references `p`. */
  function Referenced(f: Forest, ctx: Addr, p: Addr, h: Addr): Forest
    requires (Context(f, ctx) == NULL || Context(f, ctx) in Live(f)) && p in f.refs.list
  {
    var g := Allocated(f, ctx, h);
    g.(refs := Hook(g.refs, h, p))
  }

  /** May `ctx` be handed to an operation as a context? */
  predicate IsContext(f: Forest, ctx: Addr) {
    ctx == NULL || (ctx in Live(f) && ctx !in f.refs.target)
  }

  lemma NewbornInv(f: Forest, a: Addr)
    requires Inv(f) && a !in Live(f) && a != NULL && f.tree.out == {}
    ensures Inv(Newborn(f, a))
  {
    var g := Newborn(f, a);
    KeysAgree(f);
    assert TreeInv(g.tree) by {
      forall x | x in g.tree.kids ensures KidsOk(g.tree, x) {
        if x != a {
          assert KidsOk(f.tree, x);
        }
      }
      forall x | x in g.tree.up ensures UpOk(g.tree, x) {
        if x != a {
          assert UpOk(f.tree, x);
        }
      }
    }
    NewbornRefs(f.refs, a);
    assert forall h :: h in f.refs.target ==> HandleOk(f, h);
    hide TreeInv, RefsInv;
  }

  lemma NewbornRefs(r: Refs, a: Addr)
    requires RefsInv(r) && a !in r.list
    ensures RefsInv(r.(list := r.list[a := []]))
  {
    var s := r.(list := r.list[a := []]);
    forall x | x in s.list ensures ListOk(s, x) {
      if x != a {
        assert ListOk(r, x);
      }
    }
  }

  lemma AllocatedInv(f: Forest, ctx: Addr, a: Addr)
    requires Inv(f) && f.tree.out == {} && a !in Live(f) && a != NULL && IsContext(f, ctx)
    ensures Context(f, ctx) == NULL || (Context(f, ctx) in Live(f) && Context(f, ctx) !in f.refs.target)
    ensures var g := Allocated(f, ctx, a);
      && Inv(g) && g.tree.out == {} && Live(g) == Live(f) + {a} && g.tree.kids[a] == [] && g.refs.list[a] == [] && a !in g.refs.target && g.nullCtx == f.nullCtx
  {
    hide TreeInv, RefsInv;
    KeysAgree(f);
    NewbornInv(f, a);
    var g, q := Newborn(f, a), Context(f, ctx);
    AttachInv(g.tree, q, a);
    AttachHandles(g, q, a);
  }

  lemma AttachHandles(f: Forest, q: Addr, a: Addr)
    requires Inv(f) && a in f.tree.out && a !in f.refs.target && (q == NULL || (q in Live(f) && q !in f.refs.target))
    ensures forall h :: h in f.refs.target ==> HandleOk(f.(tree := Attach(f.tree, q, a)), h)
  {
    hide TreeInv, RefsInv;
  }

  lemma ReferencedInv(f: Forest, ctx: Addr, p: Addr, h: Addr)
    requires Inv(f) && f.tree.out == {} && h !in Live(f) && h != NULL && IsContext(f, ctx)
    requires p in Live(f) && p !in f.refs.target && p != f.nullCtx
    ensures (Context(f, ctx) == NULL || Context(f, ctx) in Live(f)) && p in f.refs.list
    ensures var g := Referenced(f, ctx, p, h); Inv(g) && g.tree.out == {} && Live(g) == Live(f) + {h}
  {
    hide TreeInv, RefsInv;
    KeysAgree(f);
    AllocatedInv(f, ctx, h);
    var g := Allocated(f, ctx, h);
    HookInv(g.refs, h, p);
    HookHandles(g, h, p);
  }

  lemma HookHandles(f: Forest, h: Addr, p: Addr)
    requires Inv(f) && h in Live(f) && h !in f.refs.target && p in Live(f) && p !in f.refs.target && p != h
    requires f.tree.kids[h] == [] && f.refs.list[h] == [] && h !in f.tree.out && f.dtor[h] == NoDtor
    ensures var g := f.(refs := Hook(f.refs, h, p)); forall x :: x in g.refs.target ==> HandleOk(g, x)
  {
    hide TreeInv, RefsInv;
  }
}
