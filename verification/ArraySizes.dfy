/**
 Resizing a chunk to a number of elements: the count is 32 bits wide, so what the chunk gets is not always what was
 asked for.
 */
module ArraySizes {
  import opened Seqs
  import opened Forests
  import opened Ownership
  import opened FreeRounds
  import opened Operations
  import opened Unlinking
  import opened TallocSteps
  import opened Renaming

  const UINT_RANGE: nat := 0x1_0000_0000

  /** The resize of `p` to `k` bytes, with the memory `got`, led to `r` and from `f` to `g`. */
  ghost predicate Resizes(f: Forest, size: map<Addr, nat>, p: Addr, k: nat, got: Addr, r: Addr, g: Forest, size': map<Addr, nat>)
    requires p in f.refs.list
  {
    && r == (if f.refs.list[p] != [] then NULL else got)
    && (r == NULL ==> g == f && size' == size)
    && (r != NULL && r == p ==> g == f && size' == size[p := k])
    && (r != NULL && r != p ==> Movable(f, p, r) && r !in size && g == Renamed(f, p, r) && size' == ReKey<nat>(size, p, r)[r := k])
  }

  /** The resize of `p` to `n` elements of `el` bytes: refused, `p` is freed, or resized to the count that is left of `n`. */
  ghost predicate ArrayResized(f: Forest, size: map<Addr, nat>, p: Addr, el: nat, n: nat, got: Addr, r: Addr, g: Forest, size': map<Addr, nat>)
    requires p in f.refs.list && el > 0
  {
    var count := n % UINT_RANGE;
    if count >= MAX_TALLOC_SIZE / el then r == NULL && g == f && size' == size
    else if count == 0 then r == NULL && Freeable(f, p) && g == FreeOf(f, p).0 && SizesKept(size, size')
    else Resizes(f, size, p, el * count, got, r, g, size')
  }

  /** The resize of NULL to `n` elements: a new chunk `r` of the count that is left of `n`, if that is not 0. */
  ghost predicate ArrayMade(f: Forest, size: map<Addr, nat>, context: Addr, el: nat, n: nat, got: Addr, r: Addr, g: Forest, size': map<Addr, nat>)
    requires el > 0
  {
    var count := n % UINT_RANGE;
    && r == (if count == 0 || count >= MAX_TALLOC_SIZE / el then NULL else got)
    && (r == NULL ==> g == f)
    && (r != NULL ==>
          (Context(f, context) == NULL || Context(f, context) in Live(f))
          && g == Allocated(f, context, r) && size' == size[r := el * count])
  }

  /** The count that is left of `n` elements is refused: it is too large, or there is no memory, or the chunk cannot
      be resized or freed. */
  predicate CountRefused(f: Forest, p: Addr, el: nat, n: nat, got: Addr)
    requires p in f.refs.list && p in f.dtor && el > 0
  {
    var count := n % UINT_RANGE;
    || count >= MAX_TALLOC_SIZE / el
    || (count > 0 && (f.refs.list[p] != [] || got == NULL))
    || (count == 0 && f.refs.list[p] == [] && f.dtor[p] == Refuses)
  }

  /** Nothing happened, or there is a chunk of the size asked for. */
  ghost predicate AsAsked(f: Forest, el: nat, n: nat, r: Addr, g: Forest, size': map<Addr, nat>) {
    if r == NULL then g == f else r in size' && size'[r] == el * n
  }

  lemma Products(el: nat, a: nat, b: nat)
    requires el > 0
    ensures el * a == el * b <==> a == b
  {
    if a < b {
      assert el * b == el * a + el * (b - a) && el * (b - a) > 0;
    } else if b < a {
      assert el * a == el * b + el * (a - b) && el * (a - b) > 0;
    }
  }

  /** Below the limit on the count the size is below the limit. */
  lemma FitsLimit(el: nat, count: nat)
    requires el > 0 && count < MAX_TALLOC_SIZE / el
    ensures el * count < MAX_TALLOC_SIZE && (el * count == 0 <==> count == 0) && el <= MAX_TALLOC_SIZE
  {
    var q := MAX_TALLOC_SIZE / el;
    assert MAX_TALLOC_SIZE == q * el + MAX_TALLOC_SIZE % el;
    assert el * (count + 1) <= el * q by { Monotone(el, count + 1, q); }
    Products(el, count, 0);
  }

  lemma Monotone(el: nat, a: nat, b: nat)
    requires a <= b
    ensures el * a <= el * b
  {
  }

  /** A free that changes nothing is one that a destructor refused. */
  lemma FreeUnchanged(f: Forest, p: Addr)
    requires Freeable(f, p) && Settled(f, p)
    ensures FreeOf(f, p).0 == f <==> f.refs.list[p] == [] && f.dtor[p] == Refuses
    ensures f.refs.list[p] == [] && f.dtor[p] != Refuses ==> p !in Live(FreeOf(f, p).0)
  {
    hide Inv, Ranked, Drain, HandleFreed, Shrinks, OnlyHandlesGone, FreeOf;
    var rank :| Ranked(f, rank, p);
    FreeOfIs(f, p, rank);
    if f.refs.list[p] != [] {
      LosesOne(f, p, rank);
    } else if f.dtor[p] != Refuses {
      FreeStep(f, p, rank);
    }
  }

  lemma LosesOne(f: Forest, p: Addr, rank: map<Addr, int>)
    requires Inv(f) && p in Live(f) && p != f.nullCtx && Ranked(f, rank, p) && p in f.refs.list && f.refs.list[p] != []
    ensures Free(f, p, rank).0 != f
  {
    hide Inv, Ranked, HandleFreed, Shrinks, OnlyHandlesGone, Drain;
    StillFreeable(f, p, f.refs.list[p][0], rank);
    var g := HandleFreed(f, f.refs.list[p][0]);
    if Above(f.tree, p, f.refs.list[p][0]) {
      FreedSmaller(g, p, rank);
    }
  }

  lemma FreedSmaller(g: Forest, p: Addr, rank: map<Addr, int>)
    requires Inv(g) && p in Live(g) && p != g.nullCtx && Ranked(g, rank, p)
    ensures Mobile(Free(g, p, rank).0) <= Mobile(g)
  {
    hide Inv, Ranked, Free, Shrinks;
    ShrinksMobile(g, Free(g, p, rank).0);
  }

  /** The resize gives the size asked for, or leaves everything as it was, if and only if the number of elements is below
      2^32 or the count that is left of it is refused. */
  lemma AsAskedExactly(f: Forest, size: map<Addr, nat>, p: Addr, el: nat, n: nat, got: Addr, r: Addr, g: Forest, size': map<Addr, nat>)
    requires Settled(f, p) && p != NULL && el > 0 && n > 0 && ArrayResized(f, size, p, el, n, got, r, g, size')
    ensures AsAsked(f, el, n, r, g, size') <==> n < UINT_RANGE || CountRefused(f, p, el, n, got)
  {
    hide FreeOf, Freeable, Renamed, Movable, ReKey, SizesKept;
    var count := n % UINT_RANGE;
    if count < MAX_TALLOC_SIZE / el {
      if count == 0 {
        FreeUnchanged(f, p);
      } else {
        Products(el, n, count);
      }
    }
  }

  /** With 2^32 elements of a byte nothing is left of the count, and the chunk is released. */
  lemma WrapReleases(f: Forest, size: map<Addr, nat>, p: Addr, got: Addr, r: Addr, g: Forest, size': map<Addr, nat>)
    requires Settled(f, p) && f.refs.list[p] == [] && f.dtor[p] != Refuses && ArrayResized(f, size, p, 1, UINT_RANGE, got, r, g, size')
    ensures r == NULL && p !in Live(g)
  {
    hide FreeOf, Freeable, SizesKept;
    FreeUnchanged(f, p);
  }
}
