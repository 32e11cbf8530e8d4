/**
 Strings in chunks: a chunk holds its characters and one terminating NUL, and is named by itself.
 The two ways of appending find the end of the string differently: one by looking for the NUL, one
 by the size of the chunk.
 */
module TallocStrings {
  import opened Seqs
  import opened Forests
  import opened Ownership
  import opened Operations
  import opened Unlinking
  import opened StaleReads
  import opened ArraySizes
  import opened Renaming
  import opened TallocSteps
  import opened TallocHeap

  const NUL: char := '\0'

  const INT_MAX := 0x7FFF_FFFF

  /** A pointer to characters that may be NULL, or the outcome of formatting that may fail. */
  datatype Text = Absent | Text(chars: string)

  /** Where the first NUL is; the length if there is none. */
  function Len(m: string): (n: nat)
    ensures n <= |m| && NUL !in m[..n] && (n < |m| ==> m[n] == NUL)
  {
    if m == [] || m[0] == NUL then 0
    else
      var n := 1 + Len(m[1..]);
      assert m[..n] == [m[0]] + m[1..][..n - 1];
      n
  }

  lemma NotBefore(m: string, n: nat, k: nat)
    requires n <= |m| && NUL !in m[..n] && k < n
    ensures m[k] != NUL
  {
    assert m[k] == m[..n][k];
  }

  lemma LenIs(m: string, n: nat)
    requires n <= |m| && NUL !in m[..n] && (n < |m| ==> m[n] == NUL)
    ensures Len(m) == n
  {
    if Len(m) < n {
      NotBefore(m, n, Len(m));
    } else if n < Len(m) {
      NotBefore(m, Len(m), n);
    }
  }

  predicate Terminated(m: string) {
    m != [] && m[|m| - 1] == NUL
  }

  /** Everything before the last character. */
  function Contents(m: string): string
    requires m != []
  {
    m[..|m| - 1]
  }

  /** `piece` in place of what follows the characters before the first NUL. */
  function AtNul(m: string, piece: string): string {
    m[..Len(m)] + (piece + [NUL])
  }

  /** `piece` in place of the last character. */
  function AtSize(m: string, piece: string): string
    requires m != []
  {
    Contents(m) + (piece + [NUL])
  }

  /** Looking for the NUL and taking the size of the chunk come to the same exactly when the only NUL is the
      last character. */
  lemma AppendsAgree(m: string, piece: string)
    requires Terminated(m)
    ensures AtNul(m, piece) == AtSize(m, piece) <==> NUL !in Contents(m)
  {
    if NUL !in Contents(m) {
      LenIs(m, |m| - 1);
    } else {
      assert m[..Len(m)] != Contents(m);
      assert |AtNul(m, piece)| == |AtSize(m, piece)| ==> Len(m) == |m| - 1;
    }
  }

  /** How a piece is appended. */
  datatype Piece = ByNul(chars: string) | BySize(chars: string)

  function Joined(pieces: seq<Piece>): string {
    if pieces == [] then [] else Joined(pieces[..|pieces| - 1]) + pieces[|pieces| - 1].chars
  }

  /** The chunk after all pieces were appended to the chunk `m`. */
  function Appended(m: string, pieces: seq<Piece>): (r: string)
    requires m != []
    ensures r != []
  {
    if pieces == [] then m
    else
      var last := pieces[|pieces| - 1];
      var rest := Appended(m, pieces[..|pieces| - 1]);
      if last.ByNul? then AtNul(rest, last.chars) else AtSize(rest, last.chars)
  }

  lemma EndsOnce(text: string)
    requires NUL !in text
    ensures var m := text + [NUL]; Terminated(m) && Contents(m) == text && Len(m) == |text|
  {
    hide Len;
    var m := text + [NUL];
    EndsThere(m, text);
    LenIs(m, |text|);
  }

  lemma EndsThere(m: string, text: string)
    requires m == text + [NUL]
    ensures Terminated(m) && Contents(m) == text && m[..|text|] == text && m[|text|] == NUL
  {
  }

  /** However the pieces are appended, the chunk holds the first text and all pieces in order, and its size
      is one more than the length of the text. */
  lemma {:induction false} ChainHolds(text: string, pieces: seq<Piece>)
    requires NUL !in text && forall i :: 0 <= i < |pieces| ==> NUL !in pieces[i].chars
    ensures var m := Appended(text + [NUL], pieces);
      m == text + Joined(pieces) + [NUL] && NUL !in text + Joined(pieces) && Len(m) == |m| - 1
  {
    hide Len, Terminated, Contents, AtNul, AtSize;
    if pieces == [] {
      assert text + [] == text;
      EndsOnce(text);
    } else {
      var k := |pieces| - 1;
      var base, piece := text + Joined(pieces[..k]), pieces[k].chars;
      ChainHolds(text, pieces[..k]);
      LastPiece(base, piece);
      assert text + (Joined(pieces[..k]) + piece) == base + piece;
    }
  }

  lemma LastPiece(base: string, piece: string)
    requires NUL !in base && NUL !in piece
    ensures AtNul(base + [NUL], piece) == AtSize(base + [NUL], piece) == base + piece + [NUL]
    ensures NUL !in base + piece && Len(base + piece + [NUL]) == |base + piece|
  {
    hide Len, Terminated;
    EndsOnce(base);
    AppendsAgree(base + [NUL], piece);
    assert base + (piece + [NUL]) == (base + piece) + [NUL];
    hide AtNul;
    EndsOnce(base + piece);
  }

  /** The characters `data` are copied to offset `at`. */
  function Copied(m: string, at: nat, data: string): (r: string)
    requires at + |data| <= |m|
    ensures |r| == |m|
  {
    m[..at] + data + m[at + |data|..]
  }

  /** Memory of `n` characters that starts with what was in `m`; the rest is arbitrary. */
  function Resized(m: string, n: nat, raw: nat -> char): (r: string)
    ensures |r| == n && forall i :: 0 <= i < n && i < |m| ==> r[i] == m[i]
  {
    seq(n, i requires 0 <= i < n => if i < |m| then m[i] else raw(i))
  }

  /** A string behind the first `at` characters of resized memory. */
  lemma CopiedBehind(m: string, at: nat, data: string, raw: nat -> char)
    requires at <= |m|
    ensures Copied(Resized(m, at + |data|, raw), at, data) == m[..at] + data
  {
    assert Resized(m, at + |data|, raw)[..at] == m[..at];
  }

  // ------------------------------------------------------------------ the chunks that hold strings

  /** What a caller sees: the chunks, their sizes, and the strings in them. */
  datatype Snapshot = Snapshot(f: Forest, size: map<Addr, nat>, body: map<Addr, string>)

  /** The strings fill their chunks, and each chunk is named by itself. */
  ghost predicate Stored(s: Snapshot, name: map<Addr, Addr>) {
    && (forall a :: a in s.body ==> a in s.f.tree.kids && a in s.size && Terminated(s.body[a]) && |s.body[a]| == s.size[a] < MAX_TALLOC_SIZE)
    && (forall a :: a in s.body <==> a in name) && (forall a :: a in name ==> name[a] == a)
  }

  /** A new chunk `r` below the context holds `m`. */
  ghost predicate Made(s: Snapshot, t: Snapshot, context: Addr, r: Addr, m: string) {
    && (Context(s.f, context) == NULL || Context(s.f, context) in Live(s.f)) && r !in Live(s.f)
    && t == Snapshot(Allocated(s.f, context, r), s.size[r := |m|], s.body[r := m])
  }

  /** The chunk `p` has become the chunk `r`, which holds `m`; nothing else changed. */
  ghost predicate Regrown(s: Snapshot, t: Snapshot, p: Addr, r: Addr, m: string) {
    if r == p then
      t == s.(size := s.size[p := |m|], body := s.body[p := m])
    else
      && Movable(s.f, p, r) && r !in s.size
      && t == Snapshot(Renamed(s.f, p, r), ReKey<nat>(s.size, p, r)[r := |m|], (s.body - {p})[r := m])
  }

  /** The first `count` characters of `m`, and others if there are not so many. */
  predicate Cut(m: string, cut: string, count: nat) {
    |cut| == count && forall i :: 0 <= i < count && i < |m| ==> cut[i] == m[i]
  }

  /** The string in `p` was to become the `n` characters `m`, with the memory `got`. */
  ghost predicate Extended(s: Snapshot, t: Snapshot, p: Addr, n: nat, m: string, got: Addr, r: Addr, overrun: bool)
    requires Settled(s.f, p) && p in s.body
  {
    var count := n % UINT_RANGE;
    if count >= MAX_TALLOC_SIZE || (count > 0 && (s.f.refs.list[p] != [] || got == NULL)) then
      r == NULL && !overrun && t == s
    else if count == 0 then
      && r == NULL && !overrun && Freeable(s.f, p) && t.f == FreeOf(s.f, p).0
      && t.body == map a | a in s.body && a in Live(t.f) :: s.body[a]
    else
      && r == got && (overrun <==> n >= UINT_RANGE)
      && if overrun then (exists cut :: Cut(s.body[p], cut, count) && Regrown(s, t, p, r, cut)) else |m| == n && Regrown(s, t, p, r, m)
  }

  /** The strings that are left after a free. */
  lemma FreedStored(s: Snapshot, t: Snapshot, name: map<Addr, Addr>, name': map<Addr, Addr>)
    requires Stored(s, name) && SizesKept(s.size, t.size) && t.size.Keys == Live(t.f)
    requires t.body == (map a | a in s.body && a in t.size :: s.body[a]) && name' == map a | a in name && a in t.size :: name[a]
    ensures Stored(t, name')
  {
    hide Terminated;
  }

  lemma MadeStored(s: Snapshot, t: Snapshot, name: map<Addr, Addr>, context: Addr, r: Addr, m: string)
    requires Stored(s, name) && Made(s, t, context, r, m) && Inv(s.f) && s.f.tree.out == {} && r != NULL && IsContext(s.f, context)
    requires Terminated(m) && |m| < MAX_TALLOC_SIZE
    ensures Stored(t, name[r := r])
  {
    hide Inv, Allocated, Terminated;
    AllocatedInv(s.f, context, r);
  }

  lemma RegrownStored(s: Snapshot, t: Snapshot, name: map<Addr, Addr>, p: Addr, r: Addr, m: string)
    requires Stored(s, name) && Regrown(s, t, p, r, m) && Inv(s.f) && p in s.body && Terminated(m) && |m| < MAX_TALLOC_SIZE
    ensures Stored(t, (name - {p})[r := r])
  {
    hide Inv, Renamed, Terminated, ReKey, Movable;
    if r != p {
      MovableFacts(s.f, p, r);
      RenamedInv(s.f, p, r);
      forall a | a in t.body && a != r ensures a in s.body && a in t.f.tree.kids && a in t.size && t.size[a] == s.size[a] {
        assert Re(a, p, r) == a;
      }
    }
  }

  class Strings {
    const heap: Talloc
    /** the characters in the chunks that were made here */
    var body: map<Addr, string>
    /** where the name of each of these chunks is */
    var name: map<Addr, Addr>

    ghost function State(): Snapshot
      reads this, heap
    {
      Snapshot(heap.f, heap.size, body)
    }

    ghost predicate Valid()
      reads this, heap
    {
      heap.Quiet() && Stored(State(), name)
    }

    constructor (h: Talloc)
      requires h.Quiet()
      ensures Valid() && heap == h && body == map[]
    {
      heap, body, name := h, map[], map[];
    }

    method StrLen(m: string) returns (n: nat)
      requires NUL in m
      ensures n == Len(m) && n < |m|
    {
      n := 0;
      while m[n] != NUL
        invariant n < |m| && NUL !in m[..n] && NUL in m[n..]
        decreases |m| - n
      {
        assert m[..n + 1] == m[..n] + [m[n]] && m[n..] == [m[n]] + m[n + 1..];
        n := n + 1;
      }
      LenIs(m, n);
    }

    /** The characters `z` in a new chunk below the context. */
    method Memdup(context: Addr, z: string, got: Addr, raw: nat -> char) returns (r: Addr)
      requires Valid() && IsContext(heap.f, context) && (got == NULL || got !in Live(heap.f)) && Terminated(z)
      modifies this, heap
      ensures Valid() && r == if |z| >= MAX_TALLOC_SIZE then NULL else got
      ensures if r == NULL then State() == old(State()) else Made(old(State()), State(), context, r, z)
    {
      hide Represents, Inv, Allocated, Stored, Terminated, Resized, Copied;
      ghost var s, names := State(), name;
      QuietFacts();
      r := heap.Alloc(context, |z|, got);
      if r != NULL {
        CopiedBehind([], 0, z, raw);
        body, name := body[r := Copied(Resized([], |z|, raw), 0, z)], name[r := r];
        assert [][..0] + z == z;
        MadeStored(s, State(), names, context, r, z);
      }
    }

    lemma QuietFacts()
      requires heap.Quiet()
      ensures Inv(heap.f) && heap.f.tree.out == {} && NULL !in Live(heap.f)
    {
      hide Inv;
      KeysAgree(heap.f);
    }

    method Strdup(context: Addr, p: Text, got: Addr, raw: nat -> char) returns (r: Addr)
      requires Valid() && IsContext(heap.f, context) && (got == NULL || got !in Live(heap.f))
      requires p.Text? ==> NUL !in p.chars
      modifies this, heap
      ensures Valid() && r == if p.Absent? || |p.chars| + 1 >= MAX_TALLOC_SIZE then NULL else got
      ensures if r == NULL then State() == old(State()) else Made(old(State()), State(), context, r, p.chars + [NUL])
    {
      hide Represents, Stored, Made;
      if p.Absent? {
        return NULL;
      }
      r := Memdup(context, p.chars + [NUL], got, raw);
    }

    /** At most `n` of the characters at `p`. */
    method Strndup(context: Addr, p: string, n: nat, got: Addr, raw: nat -> char) returns (r: Addr)
      requires Valid() && IsContext(heap.f, context) && (got == NULL || got !in Live(heap.f))
      requires n <= |p| || NUL in p
      modifies this, heap
      ensures var len := if n < Len(p) then n else Len(p);
        && Valid() && NUL !in p[..len] && (r == if len + 1 >= MAX_TALLOC_SIZE then NULL else got)
        && if r == NULL then State() == old(State()) else Made(old(State()), State(), context, r, p[..len] + [NUL])
    {
      hide Represents, Stored, Made;
      var len := CountChars(p, n);
      r := Memdup(context, p[..len] + [NUL], got, raw);
    }

    /** The loop that stops at `n` characters or at a NUL. */
    method CountChars(p: string, n: nat) returns (len: nat)
      requires n <= |p| || NUL in p
      ensures len <= |p| && NUL !in p[..len] && len == if n < Len(p) then n else Len(p)
    {
      len := 0;
      while len < n && p[len] != NUL
        invariant len <= n && len <= Len(p)
      {
        len := len + 1;
      }
    }

    /** The formatted text in a new chunk. The formatting itself is given; it may fail, and the text may
        contain NUL characters. */
    method Vasprintf(context: Addr, formatted: Text, got: Addr, raw: nat -> char) returns (r: Addr)
      requires Valid() && IsContext(heap.f, context) && (got == NULL || got !in Live(heap.f))
      modifies this, heap
      ensures Valid() && r == if formatted.Absent? || |formatted.chars| + 1 >= MAX_TALLOC_SIZE then NULL else got
      ensures if r == NULL then State() == old(State()) else Made(old(State()), State(), context, r, formatted.chars + [NUL])
    {
      hide Represents, Stored, Made;
      if formatted.Absent? {
        return NULL;
      }
      r := Memdup(context, formatted.chars + [NUL], got, raw);
    }

    /** Resize the chunk `p`, which holds a string, and copy `data` behind its first `at` characters. When the count was
        cut to less than that, the copy would run over the end of the chunk: `overrun` says so, and nothing is copied. When
        nothing was left of the count the chunk has been freed. */
    method Extend(p: Addr, at: nat, data: string, got: Addr, raw: nat -> char) returns (r: Addr, overrun: bool)
      requires Valid() && p in body && at <= |body[p]| && Settled(heap.f, p) && p != heap.nullContext && Terminated(data)
      requires got == NULL || got !in Live(heap.f) || got == p
      requires (at + |data|) % UINT_RANGE == 0 ==> Freeable(heap.f, p) && SafeToFree(heap.f, p)
      modifies this, heap
      ensures Settled(old(heap.f), p) && p in old(body) && at <= |old(body)[p]|
      ensures Extended(old(State()), State(), p, at + |data|, old(body)[p][..at] + data, got, r, overrun)
      ensures if overrun then heap.Quiet() else Valid()
    {
      hide Represents, Inv, Movable, Renamed, ReKey, Resized, Copied, Stored, Terminated, FreeOf, Freeable, SafeToFree, SizesKept;
      ghost var s, names := State(), name;
      ghost var m := body[p][..at] + data;
      QuietFacts();
      EndsToo(body[p][..at], data);
      var n := at + |data|;
      r := heap.ReallocArray(NULL, p, 1, n, got);
      overrun := false;
      var count := n % UINT_RANGE;
      if count == 0 {
        SizesLive();
        body, name := map a | a in body && a in heap.size :: body[a], map a | a in name && a in heap.size :: name[a];
        FreedStored(s, State(), names, name);
      } else if r != NULL {
        overrun := count < n;
        if overrun {
          var cut := Resized(body[p], count, raw);
          body, name := (body - {p})[r := cut], (name - {p})[r := r];
          assert r == p ==> body == s.body[p := cut];
          assert Cut(s.body[p], cut, count) && Regrown(s, State(), p, r, cut);
        } else {
          CopiedBehind(body[p], at, data, raw);
          body, name := (body - {p})[r := Copied(Resized(body[p], count, raw), at, data)], (name - {p})[r := r];
          assert r == p ==> body == s.body[p := m];
          RegrownStored(s, State(), names, p, r, m);
        }
      }
    }

    lemma SizesLive()
      requires heap.Quiet()
      ensures heap.size.Keys == Live(heap.f)
    {
      hide Inv;
    }

    /** Append to the string `orig` behind the characters before its first NUL; NULL appends nothing. */
    method AppendString(orig: Addr, append: Text, got: Addr, raw: nat -> char) returns (r: Addr, overrun: bool)
      requires Valid() && orig in body && Settled(heap.f, orig) && orig != heap.nullContext
      requires got == NULL || got !in Live(heap.f) || got == orig
      requires append.Text? ==> NUL !in append.chars
      requires append.Text? && (Len(body[orig]) + |append.chars| + 1) % UINT_RANGE == 0 ==> Freeable(heap.f, orig) && SafeToFree(heap.f, orig)
      modifies this, heap
      ensures Settled(old(heap.f), orig) && orig in old(body)
      ensures if overrun then heap.Quiet() else Valid()
      ensures append.Absent? ==> r == orig && !overrun && State() == old(State())
      ensures append.Text? ==>
        var m := old(body)[orig]; Extended(old(State()), State(), orig, Len(m) + |append.chars| + 1, AtNul(m, append.chars), got, r, overrun)
    {
      hide Represents, Extended, Len, Settled, Freeable, SafeToFree;
      var olen := StrLen(body[orig]);
      if append.Absent? {
        return orig, false;
      }
      r, overrun := Extend(orig, olen, append.chars + [NUL], got, raw);
    }

    /** Append formatted text in place of the last character of the chunk `s`. A failed formatting and an empty
        text leave `s` as it is. */
    method VasprintfAppend(s: Addr, formatted: Text, got: Addr, raw: nat -> char) returns (r: Addr)
      requires Valid() && (s == NULL || (s in body && Settled(heap.f, s) && s != heap.nullContext))
      requires got == NULL || got !in Live(heap.f) || (got == s && s != NULL)
      requires formatted.Text? ==> |formatted.chars| <= INT_MAX
      modifies this, heap
      ensures Valid()
      ensures s == NULL ==> r == if formatted.Absent? || |formatted.chars| + 1 >= MAX_TALLOC_SIZE then NULL else got
      ensures s == NULL && r != NULL ==> Made(old(State()), State(), NULL, r, formatted.chars + [NUL])
      ensures s != NULL && (formatted.Absent? || formatted.chars == []) ==> r == s && State() == old(State())
      ensures s != NULL && formatted.Text? && formatted.chars != [] ==>
        && s in old(body) && Settled(old(heap.f), s) && old(body)[s] != []
        && r == (if |old(body)[s]| + |formatted.chars| >= MAX_TALLOC_SIZE || old(heap.f).refs.list[s] != [] then NULL else got)
        && (r != NULL ==> Regrown(old(State()), State(), s, r, AtSize(old(body)[s], formatted.chars)))
      ensures r == NULL ==> State() == old(State())
    {
      hide Represents, Made, Regrown, Settled;
      if s == NULL {
        r := Vasprintf(NULL, formatted, got, raw);
        return;
      }
      if formatted.Absent? || formatted.chars == [] {
        return s;
      }
      var last := heap.size[s] - 1;
      var overrun: bool;
      r, overrun := Extend(s, last, formatted.chars + [NUL], got, raw);
    }
  }

  lemma EndsToo(a: string, data: string)
    requires Terminated(data)
    ensures Terminated(a + data) && data != []
  {
  }
}
