/**
 Walking a tree of chunks depth first, as the size and block counts do: chunks on the way carry a
 mark, and a marked chunk is not entered. Parent loops are allowed.
 */
module Traversal {
  import opened Seqs
  import opened ChildLists
  import opened Forests

  /** The chunks that are visited from `p` when those in `w` are marked. */
  function Visit(t: Tree, p: Addr, w: set<Addr>): seq<Addr>
    decreases |t.kids.Keys - w|, 0, 0
  {
    if p in w || p !in t.kids then []
    else
      assert t.kids.Keys - (w + {p}) == (t.kids.Keys - w) - {p};
      [p] + Visits(t, t.kids[p], w + {p})
  }

  function Visits(t: Tree, s: seq<Addr>, w: set<Addr>): seq<Addr>
    decreases |t.kids.Keys - w|, 1, |s|
  {
    if s == [] then [] else Visit(t, s[0], w) + Visits(t, s[1..], w)
  }

  /** `n` steps up from `x` lead to `p`, and no chunk on the way is marked. */
  ghost predicate Under(t: Tree, w: set<Addr>, p: Addr, x: Addr, n: nat) {
    UpN(t, x, n) == p && forall i :: 0 <= i <= n ==> UpN(t, x, i) in t.kids && UpN(t, x, i) !in w
  }

  /** No chunk hangs outside the child lists. */
  ghost predicate Hung(t: Tree) {
    TreeInv(t) && t.out == {} && NULL !in t.kids
  }

  lemma KidUp(t: Tree, p: Addr, i: nat)
    requires Hung(t) && p in t.kids && i < |t.kids[p]|
    ensures t.kids[p][i] in t.up && t.up[t.kids[p][i]] == p && p != NULL
  {
    assert KidsOk(t, p);
    ChildUp(t, p, i);
  }

  lemma UpKid(t: Tree, c: Addr) returns (i: nat)
    requires Hung(t) && c in t.up && t.up[c] in t.kids
    ensures i < |t.kids[t.up[c]]| && t.kids[t.up[c]][i] == c
  {
    assert UpOk(t, c) && t.up[c] != NULL;
    i :| 0 <= i < |t.kids[t.up[c]]| && t.kids[t.up[c]][i] == c;
  }

  /** Some position in `s` from which `x` is visited. */
  lemma {:induction false} VisitsFrom(t: Tree, s: seq<Addr>, w: set<Addr>, x: Addr) returns (i: nat)
    requires x in Visits(t, s, w)
    ensures i < |s| && x in Visit(t, s[i], w)
  {
    hide Visit;
    if x in Visit(t, s[0], w) {
      i := 0;
    } else {
      var j := VisitsFrom(t, s[1..], w, x);
      i := j + 1;
    }
  }

  lemma {:induction false} VisitsAll(t: Tree, s: seq<Addr>, w: set<Addr>, i: nat, x: Addr)
    requires i < |s| && x in Visit(t, s[i], w)
    ensures x in Visits(t, s, w)
  {
    hide Visit;
    if i > 0 {
      assert s[1..][i - 1] == s[i];
      VisitsAll(t, s[1..], w, i - 1, x);
    }
  }

  /** A visited chunk lies below the start, with no marked chunk on the way. */
  lemma {:induction false} VisitedUnder(t: Tree, p: Addr, w: set<Addr>, x: Addr) returns (n: nat)
    requires Hung(t) && x in Visit(t, p, w)
    ensures Under(t, w, p, x, n)
    decreases |t.kids.Keys - w|
  {
    hide Hung;
    assert p !in w && p in t.kids;
    if x == p {
      n := 0;
      assert UpN(t, x, 0) == x;
    } else {
      assert t.kids.Keys - (w + {p}) == (t.kids.Keys - w) - {p};
      var i := VisitsFrom(t, t.kids[p], w + {p}, x);
      KidUp(t, p, i);
      var m := VisitedUnder(t, t.kids[p][i], w + {p}, x);
      n := m + 1;
      assert UpN(t, x, m + 1) == p;
    }
  }

  /** The shortest way up to `p` meets `p` only at its end. */
  lemma {:induction false} Shortest(t: Tree, w: set<Addr>, p: Addr, x: Addr, n: nat) returns (m: nat)
    requires Under(t, w, p, x, n)
    ensures m <= n && Under(t, w, p, x, m) && forall i :: 0 <= i < m ==> UpN(t, x, i) != p
    decreases n
  {
    if i :| 0 <= i < n && UpN(t, x, i) == p {
      m := Shortest(t, w, p, x, i);
    } else {
      m := n;
    }
  }

  lemma {:induction false} UnderVisited(t: Tree, p: Addr, w: set<Addr>, x: Addr, n: nat)
    requires Hung(t) && Under(t, w, p, x, n)
    ensures x in Visit(t, p, w)
    decreases |t.kids.Keys - w|
  {
    hide Hung, Visits;
    var m := Shortest(t, w, p, x, n);
    if m == 0 {
      assert UpN(t, x, 0) == x;
    } else {
      var c := UpN(t, x, m - 1);
      assert UpN(t, x, m) == p != NULL by { NotNull(t, p); }
      var i := UpKid(t, c);
      assert t.kids.Keys - (w + {p}) == (t.kids.Keys - w) - {p};
      UnderVisited(t, c, w + {p}, x, m - 1);
      VisitsAll(t, t.kids[p], w + {p}, i, x);
    }
  }

  lemma NotNull(t: Tree, p: Addr)
    requires Hung(t) && p in t.kids
    ensures p != NULL
  {
  }

  // ------------------------------------------------------------------ each chunk is visited once

  lemma NoDupConcat(a: seq<Addr>, b: seq<Addr>)
    requires NoDup(a) && NoDup(b) && forall x :: x in a ==> x !in b
    ensures NoDup(a + b)
  {
    var s := a + b;
    forall i, j | 0 <= i < j < |s| ensures s[i] != s[j] {
      if i < |a| && j >= |a| {
        assert s[i] in a && s[j] == b[j - |a|];
      }
    }
  }

  /** Two children of the marked chunk `p`, or two top-level chunks, do not lead to the same chunk. */
  lemma OneWayDown(t: Tree, w: set<Addr>, p: Addr, c: Addr, d: Addr, x: Addr, n: nat, m: nat)
    requires Under(t, w, c, x, n) && Under(t, w, d, x, m) && (p in w || p !in t.kids)
    requires c in t.up && t.up[c] == p && d in t.up && t.up[d] == p
    ensures c == d
  {
    if n < m {
      assert UpN(t, x, n + 1) == p;
    } else if m < n {
      assert UpN(t, x, m + 1) == p;
    }
  }

  lemma {:induction false} VisitOnce(t: Tree, p: Addr, w: set<Addr>)
    requires Hung(t)
    ensures NoDup(Visit(t, p, w))
    decreases |t.kids.Keys - w|, 0, 0
  {
    hide Hung, NoDup;
    if p !in w && p in t.kids {
      assert t.kids.Keys - (w + {p}) == (t.kids.Keys - w) - {p};
      NoDupKids(t, p);
      VisitsOnce(t, p, t.kids[p], w + {p});
      NotReentered(t, t.kids[p], w + {p}, p);
      NoDupCons(p, Visits(t, t.kids[p], w + {p}));
    } else {
      assert NoDup([]) by { NothingTwice(); }
    }
  }

  lemma NothingTwice()
    ensures NoDup([])
  {
  }

  lemma NoDupKids(t: Tree, p: Addr)
    requires Hung(t) && p in t.kids
    ensures NoDup(t.kids[p]) && forall i :: 0 <= i < |t.kids[p]| ==> t.kids[p][i] in t.up && t.up[t.kids[p][i]] == p
  {
    forall i | 0 <= i < |t.kids[p]| ensures t.kids[p][i] in t.up && t.up[t.kids[p][i]] == p {
      KidUp(t, p, i);
    }
    assert KidsOk(t, p);
  }

  lemma VisitedUnmarked(t: Tree, p: Addr, w: set<Addr>, x: Addr)
    requires Hung(t) && x in Visit(t, p, w)
    ensures x !in w
  {
    hide Hung, Visit;
    var n := VisitedUnder(t, p, w, x);
    assert UpN(t, x, 0) == x;
  }

  lemma NotReentered(t: Tree, s: seq<Addr>, w: set<Addr>, p: Addr)
    requires Hung(t) && p in w
    ensures p !in Visits(t, s, w)
  {
    hide Hung, Visit, Visits;
    if p in Visits(t, s, w) {
      var i := VisitsFrom(t, s, w, p);
      VisitedUnmarked(t, s[i], w, p);
    }
  }

  lemma {:induction false} VisitsOnce(t: Tree, p: Addr, s: seq<Addr>, w: set<Addr>)
    requires Hung(t) && NoDup(s) && (p in w || p !in t.kids) && forall i :: 0 <= i < |s| ==> s[i] in t.up && t.up[s[i]] == p
    ensures NoDup(Visits(t, s, w))
    decreases |t.kids.Keys - w|, 1, |s|
  {
    hide Hung, Visit;
    if s != [] {
      NoDupTail(s);
      VisitOnce(t, s[0], w);
      VisitsOnce(t, p, s[1..], w);
      forall x | x in Visit(t, s[0], w) ensures x !in Visits(t, s[1..], w) {
        if x in Visits(t, s[1..], w) {
          var n := VisitedUnder(t, s[0], w, x);
          var j := VisitsFrom(t, s[1..], w, x);
          var m := VisitedUnder(t, s[1..][j], w, x);
          OneWayDown(t, w, p, s[0], s[1..][j], x, n, m);
        }
      }
      NoDupConcat(Visit(t, s[0], w), Visits(t, s[1..], w));
    }
  }

  /** From `p`, with nothing marked, exactly the chunks below `p` are visited, each once, even when `p`
      lies below itself. */
  lemma VisitsSubtree(t: Tree, p: Addr)
    requires Hung(t) && p in t.kids
    ensures NoDup(Visit(t, p, {}))
    ensures forall x :: x in Visit(t, p, {}) <==> x in t.kids && Above(t, p, x)
  {
    hide Hung, Visit;
    VisitOnce(t, p, {});
    forall x ensures x in Visit(t, p, {}) <==> x in t.kids && Above(t, p, x) {
      if x in Visit(t, p, {}) {
        var n := VisitedUnder(t, p, {}, x);
        assert UpN(t, x, 0) == x;
      }
      if x in t.kids && Above(t, p, x) {
        var n: nat :| UpN(t, x, n) == p;
        WayLive(t, p, x, n);
        UnderVisited(t, p, {}, x, n);
      }
    }
  }

  lemma {:induction false} WayLive(t: Tree, p: Addr, x: Addr, n: nat)
    requires Hung(t) && UpN(t, x, n) == p && p in t.kids
    ensures Under(t, {}, p, x, n)
    decreases n
  {
    if n > 0 {
      var y := UpN(t, x, n - 1);
      assert y in t.up by { NotNull(t, p); }
      WayLive(t, y, x, n - 1);
    }
  }
}
