/** Finite sequences of addresses: removal, duplicates, and the neighbour lookups a linked list needs. */
module Seqs {

  /** An address; 0 plays the part of the C null pointer. */
  type Addr = int

  const NULL: Addr := 0

  ghost predicate NoDup(s: seq<Addr>) {
    forall i, j :: 0 <= i < j < |s| ==> s[i] != s[j]
  }

  /** `s` without the elements of `w`, in the old order. */
  function Drop(s: seq<Addr>, w: set<Addr>): (r: seq<Addr>)
    ensures forall x :: x in r <==> x in s && x !in w
    ensures |r| <= |s|
  {
    if s == [] then []
    else if s[0] in w then Drop(s[1..], w)
    else [s[0]] + Drop(s[1..], w)
  }

  /** The element at position `i`, NULL off either end. */
  function At(s: seq<Addr>, i: int): Addr {
    if 0 <= i < |s| then s[i] else NULL
  }

  lemma {:induction false} NoDupTail(s: seq<Addr>)
    requires NoDup(s) && s != []
    ensures NoDup(s[1..]) && s[0] !in s[1..]
  {
    forall i, j | 0 <= i < j < |s[1..]| ensures s[1..][i] != s[1..][j] {
      assert s[1..][i] == s[i + 1] && s[1..][j] == s[j + 1];
    }
    forall k | 0 <= k < |s[1..]| ensures s[1..][k] != s[0] {
      assert s[1..][k] == s[k + 1];
    }
  }

  lemma {:induction false} NoDupCons(x: Addr, s: seq<Addr>)
    requires NoDup(s) && x !in s
    ensures NoDup([x] + s)
  {
    var t := [x] + s;
    forall i, j | 0 <= i < j < |t| ensures t[i] != t[j] {
      assert t[j] == s[j - 1];
      if i > 0 {
        assert t[i] == s[i - 1];
      }
    }
  }

  lemma {:induction false} DropNoDup(s: seq<Addr>, w: set<Addr>)
    requires NoDup(s)
    ensures NoDup(Drop(s, w))
  {
    if s != [] {
      NoDupTail(s);
      DropNoDup(s[1..], w);
      if s[0] !in w {
        NoDupCons(s[0], Drop(s[1..], w));
      }
    }
  }

  lemma {:induction false} DropNone(s: seq<Addr>, w: set<Addr>)
    requires forall i :: 0 <= i < |s| ==> s[i] !in w
    ensures Drop(s, w) == s
  {
    if s != [] {
      DropNone(s[1..], w);
      assert s == [s[0]] + s[1..];
    }
  }

  lemma {:induction false} DropUnion(s: seq<Addr>, v: set<Addr>, w: set<Addr>)
    ensures Drop(Drop(s, v), w) == Drop(s, v + w)
  {
    if s != [] {
      DropUnion(s[1..], v, w);
      if s[0] !in v {
        assert Drop(s, v)[1..] == Drop(s[1..], v);
      }
    }
  }

  lemma {:induction false} DropConcat(s: seq<Addr>, t: seq<Addr>, w: set<Addr>)
    ensures Drop(s + t, w) == Drop(s, w) + Drop(t, w)
  {
    if s == [] {
      assert s + t == t;
    } else {
      assert (s + t)[1..] == s[1..] + t;
      DropConcat(s[1..], t, w);
    }
  }

  /** Removing one element of a duplicate-free sequence cuts it out at its position. */
  lemma {:induction false} DropAt(s: seq<Addr>, k: nat)
    requires NoDup(s) && k < |s|
    ensures Drop(s, {s[k]}) == s[..k] + s[k + 1..]
  {
    NoDupTail(s);
    if k == 0 {
      DropNone(s[1..], {s[0]});
    } else {
      DropAt(s[1..], k - 1);
      assert s[1..][k - 1] == s[k];
      assert s[..k] + s[k + 1..] == [s[0]] + (s[1..][..k - 1] + s[1..][k..]);
    }
  }

  lemma {:induction false} DropHead(s: seq<Addr>)
    requires NoDup(s) && s != []
    ensures Drop(s, {s[0]}) == s[1..]
  {
    DropAt(s, 0);
  }

  lemma {:induction false} DropShrinks(s: seq<Addr>, x: Addr)
    requires x in s
    ensures |Drop(s, {x})| < |s|
  {
    if s[0] != x {
      assert x in s[1..];
      DropShrinks(s[1..], x);
    }
  }

  lemma AtIn(s: seq<Addr>, i: nat) returns (x: Addr)
    requires i < |s|
    ensures x == s[i] && x in s
  {
    x := s[i];
  }

  lemma HeadIn(s: seq<Addr>)
    ensures s == [] || s[0] in s
  {
  }

  /** The position of `x` in `s`. */
  function Index(s: seq<Addr>, x: Addr): nat {
    if s == [] || s[0] == x then 0 else 1 + Index(s[1..], x)
  }

  lemma {:induction false} IndexAt(s: seq<Addr>, i: nat)
    requires NoDup(s) && i < |s|
    ensures Index(s, s[i]) == i
  {
    if i > 0 {
      NoDupTail(s);
      assert s[1..][i - 1] == s[i];
      IndexAt(s[1..], i - 1);
    }
  }
}
