/** The size arithmetic of shared memory segments, on 64-bit sizes that never get near overflow. */
module ShmLayout {

  const POINTER_SIZE: nat := 8
  const MAX_SHM_SIZE: nat := 64 * 1024 * 1024
  /** two ints, already a multiple of the pointer size */
  const MARKER_SIZE: nat := 8

  /** The next multiple of `m`. */
  function RoundUp(l: nat, m: nat): nat
    requires m > 0
  {
    (l + m - 1) / m * m
  }

  function Align(l: nat): nat {
    RoundUp(l, POINTER_SIZE)
  }

  function PageAlign(l: nat, page: nat): nat
    requires page > 0
  {
    RoundUp(l, page)
  }

  /** The result is the least multiple of `m` that is not below `l`. */
  lemma RoundUpLeast(l: nat, m: nat)
    requires m > 0
    ensures l <= RoundUp(l, m) < l + m && RoundUp(l, m) % m == 0
    ensures forall k: nat :: l <= k && k % m == 0 ==> RoundUp(l, m) <= k
  {
    var q := (l + m - 1) / m;
    MultipleOf(q, m);
    forall k: nat | l <= k && k % m == 0 ensures q * m <= k {
      LeastMultiple(l, m, k);
    }
  }

  lemma MultipleOf(q: nat, m: nat)
    requires m > 0
    ensures (q * m) % m == 0
  {
    DivModUnique(q * m, m, q, 0);
  }

  lemma DivModUnique(a: int, m: nat, q: int, r: int)
    requires m > 0 && a == q * m + r && 0 <= r < m
    ensures a / m == q && a % m == r
  {
    var c, d := a / m, a % m;
    Euclid(a, m);
    if c > q {
      MulStep(q, c, m);
    } else if c < q {
      MulStep(c, q, m);
    }
  }

  lemma Euclid(a: int, m: nat)
    requires m > 0
    ensures a == a / m * m + a % m && 0 <= a % m < m
  {
  }

  lemma MulStep(a: int, b: int, m: nat)
    requires a < b
    ensures a * m + m <= b * m
  {
    assert b * m == (b - a - 1) * m + (a + 1) * m;
  }

  lemma LeastMultiple(l: nat, m: nat, k: nat)
    requires m > 0 && l <= k && k % m == 0
    ensures (l + m - 1) / m * m <= k
  {
    var q, c := (l + m - 1) / m, k / m;
    Euclid(l + m - 1, m);
    Euclid(k, m);
    if q > c {
      MulStep(c, q, m);
    }
  }

  function Pow2(k: nat): nat {
    if k == 0 then 1 else 2 * Pow2(k - 1)
  }

  lemma {:induction false} Pow2Divides(j: nat, k: nat)
    requires j <= k
    ensures Pow2(j) > 0 && Pow2(k) % Pow2(j) == 0
    decreases k
  {
    Pow2Positive(j);
    if j < k {
      Pow2Divides(j, k - 1);
      var c := Pow2(k - 1) / Pow2(j);
      assert Pow2(k - 1) == c * Pow2(j);
      assert Pow2(k) == (2 * c) * Pow2(j);
      MultipleOf(2 * c, Pow2(j));
    } else {
      MultipleOf(1, Pow2(j));
    }
  }

  lemma {:induction false} Pow2Positive(k: nat)
    ensures Pow2(k) > 0
  {
    if k > 0 {
      Pow2Positive(k - 1);
    }
  }

  lemma MultipleTransitive(a: nat, b: nat, c: nat)
    requires b > 0 && c > 0 && a % b == 0 && b % c == 0
    ensures a % c == 0
  {
    var x, y := a / b, b / c;
    assert a == x * b && b == y * c;
    assert a == (x * y) * c;
    MultipleOf(x * y, c);
  }

  // ------------------------------------------------------------------ a segment

  /** The size of the segment that is created for `size` bytes. */
  function SegmentSize(size: nat, page: nat): nat
    requires page > 0
  {
    PageAlign(size, page) + MARKER_SIZE
  }

  /** What an attaching process checks of a segment's size. */
  predicate SizeAccepted(size: int) {
    0 < size <= MAX_SHM_SIZE + MARKER_SIZE && Align(size) == size
  }

  /** Where the marker lies in a segment of this size; the owner's process id follows it. */
  function MarkerOffset(segmentSize: nat): nat
    requires segmentSize >= MARKER_SIZE
  {
    segmentSize - MARKER_SIZE
  }

  lemma Aligned(n: nat)
    requires n % POINTER_SIZE == 0
    ensures Align(n) == n
  {
    RoundUpLeast(n, POINTER_SIZE);
  }

  /** A segment can be attached exactly when the rounded request is within the limit. */
  lemma AcceptedExactly(size: nat, page: nat)
    requires size > 0 && page > 0 && page % POINTER_SIZE == 0
    ensures SizeAccepted(SegmentSize(size, page)) <==> PageAlign(size, page) <= MAX_SHM_SIZE
  {
    RoundUpLeast(size, page);
    MultipleTransitive(PageAlign(size, page), page, POINTER_SIZE);
    Aligned(SegmentSize(size, page));
  }

  /** For every request and every page size from a pointer to 64 MiB: the segment passes the size checks, the
      marker lies behind the caller's bytes and, with the process id, inside the mapping. */
  lemma LayoutFits(size: nat, k: nat)
    requires 0 < size <= MAX_SHM_SIZE && POINTER_SIZE <= Pow2(k) <= MAX_SHM_SIZE
    ensures var page := Pow2(k); var segment := SegmentSize(size, page);
      && SizeAccepted(segment)
      && size <= MarkerOffset(segment)
      && MarkerOffset(segment) + MARKER_SIZE <= PageAlign(segment, page)
      && MarkerOffset(segment) == PageAlign(size, page)
  {
    var page := Pow2(k);
    Pow2Between(k);
    Pow2Divides(3, k);
    Pow2Divides(k, 26);
    RoundUpLeast(size, page);
    RoundUpLeast(SegmentSize(size, page), page);
    AcceptedExactly(size, page);
  }

  lemma Pow2Between(k: nat)
    requires 8 <= Pow2(k) <= MAX_SHM_SIZE
    ensures 3 <= k <= 26 && Pow2(3) == 8 && Pow2(26) == MAX_SHM_SIZE
  {
    Pow2Small();
    if k < 3 {
      Pow2Grows(k, 2);
    }
    if k > 26 {
      Pow2Grows(27, k);
    }
  }

  lemma Pow2Small()
    ensures Pow2(2) == 4 && Pow2(3) == 8 && Pow2(26) == MAX_SHM_SIZE && Pow2(27) == 2 * MAX_SHM_SIZE
  {
    assert Pow2(4) == 16 && Pow2(8) == 256 by { assert Pow2(6) == 64; }
    assert Pow2(12) == 4096 by { assert Pow2(10) == 1024; }
    assert Pow2(16) == 65536 by { assert Pow2(14) == 16384; }
    assert Pow2(20) == 1048576 by { assert Pow2(18) == 262144; }
    assert Pow2(24) == 16777216 by { assert Pow2(22) == 4194304; }
  }

  lemma {:induction false} Pow2Grows(j: nat, k: nat)
    requires j <= k
    ensures Pow2(j) <= Pow2(k)
    decreases k
  {
    if j < k {
      Pow2Grows(j, k - 1);
    }
  }
}
