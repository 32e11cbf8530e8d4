/**
 Segment names: printing an id as an unsigned decimal, and reading it back with `strtoul` in base 0
 (section 7.20.1.4 of ISO C99) on 64-bit longs.
 */
module SegmentNames {

  const PREFIX := "anek-shm-"
  const ULONG_MAX: nat := 0xFFFF_FFFF_FFFF_FFFF
  const UINT32_MAX: nat := 0xFFFF_FFFF

  /** The value of a digit in bases up to 16; 99 for every other character. */
  function Digit(c: char): nat {
    if '0' <= c <= '9' then c as nat - '0' as nat
    else if 'a' <= c <= 'f' then c as nat - 'a' as nat + 10
    else if 'A' <= c <= 'F' then c as nat - 'A' as nat + 10
    else 99
  }

  predicate IsSpace(c: char) {
    c in " \t\n\r" || c as nat == 11 || c as nat == 12
  }

  /** How many leading characters are white space. */
  function Spaces(s: string): (n: nat)
    ensures n <= |s|
  {
    if s != [] && IsSpace(s[0]) then 1 + Spaces(s[1..]) else 0
  }

  /** How many leading characters are digits in `base`. */
  function Digits(s: string, base: nat): (n: nat)
    ensures n <= |s|
  {
    if s != [] && Digit(s[0]) < base then 1 + Digits(s[1..], base) else 0
  }

  /** The number that the digits `s` stand for. */
  function Value(s: string, base: nat): nat {
    if s == [] then 0 else Value(s[..|s| - 1], base) * base + Digit(s[|s| - 1])
  }

  /** What `strtoul` returns, how much of the string it used, and whether it set ERANGE. */
  datatype Scan = Scan(value: nat, used: nat, outOfRange: bool)

  /** The digits of `s`, without sign and white space, in base 0: the prefixes 0x and 0 choose 16 and 8. */
  function ScanDigits(s: string): (r: (nat, nat))
    ensures r.1 <= |s|
  {
    if |s| > 2 && s[0] == '0' && s[1] in "xX" && Digit(s[2]) < 16 then
      var n := Digits(s[2..], 16);
      (Value(s[2..2 + n], 16), 2 + n)
    else if s != [] && s[0] == '0' then
      var n := Digits(s, 8);
      (Value(s[..n], 8), n)
    else
      var n := Digits(s, 10);
      (Value(s[..n], 10), n)
  }

  function StrToUl(s: string): (r: Scan)
    ensures r.used <= |s| && r.value <= ULONG_MAX
  {
    var i := Spaces(s);
    var j := if i < |s| && s[i] in "+-" then i + 1 else i;
    var (v, n) := ScanDigits(s[j..]);
    if n == 0 then Scan(0, 0, false)
    else if v > ULONG_MAX then Scan(ULONG_MAX, j + n, true)
    else if j > i && s[i] == '-' && v > 0 then Scan(ULONG_MAX + 1 - v, j + n, false)
    else Scan(v, j + n, false)
  }

  datatype Errno = NoError | EINVAL | ERANGE

  /** What a caller of `AvAtou` gets: a number, or the reason why there is none. */
  datatype Parsed = Number(n: nat) | Failed(errno: Errno)

  function Parse(s: string): Parsed {
    var l := StrToUl(s);
    if l.outOfRange then Failed(ERANGE)
    else if l.used < |s| then Failed(EINVAL)
    else if l.value > UINT32_MAX then Failed(ERANGE)
    else Number(l.value)
  }

  /** Read an unsigned 32-bit number; `ret` is meaningful when the result is 0. */
  method AvAtou(s: string) returns (result: int, ret: nat, errno: Errno)
    ensures result == 0 || result == -1
    ensures result == 0 <==> Readable(s)
    ensures result == 0 ==> ret == StrToUl(s).value <= UINT32_MAX && errno == NoError
    ensures result == -1 ==> errno == if StrToUl(s).outOfRange || StrToUl(s).used == |s| then ERANGE else EINVAL
    ensures (if result == 0 then Number(ret) else Failed(errno)) == Parse(s)
  {
    ret, errno := 0, NoError;
    var l := StrToUl(s);
    if l.outOfRange {
      errno := ERANGE;
    }
    if l.used < |s| || errno != NoError {
      if errno == NoError {
        errno := EINVAL;
      }
      return -1, ret, errno;
    }
    if l.value % (UINT32_MAX + 1) != l.value {
      return -1, ret, ERANGE;
    }
    return 0, l.value, errno;
  }

  /** The whole string is a number that fits 32 bits. */
  predicate Readable(s: string) {
    StrToUl(s).used == |s| && !StrToUl(s).outOfRange && StrToUl(s).value <= UINT32_MAX
  }

  // ------------------------------------------------------------------ printing

  function DigitChar(d: nat): char
    requires d < 10
  {
    ('0' as int + d) as char
  }

  /** The unsigned decimal representation. */
  function Decimal(u: nat): (s: string)
    ensures s != []
  {
    if u < 10 then [DigitChar(u)] else Decimal(u / 10) + [DigitChar(u % 10)]
  }

  function SegmentName(id: nat): string {
    PREFIX + Decimal(id)
  }

  lemma {:induction false} DecimalDigits(u: nat)
    ensures forall i :: 0 <= i < |Decimal(u)| ==> '0' <= Decimal(u)[i] <= '9'
    ensures Value(Decimal(u), 10) == u
    ensures Decimal(u)[0] == '0' <==> u == 0
  {
    if u >= 10 {
      DecimalDigits(u / 10);
      var s := Decimal(u / 10);
      assert Decimal(u)[..|s|] == s && Decimal(u)[0] == s[0];
    }
  }

  lemma {:induction false} AllDigits(s: string, base: nat)
    requires base >= 10 && forall i :: 0 <= i < |s| ==> '0' <= s[i] <= '9'
    ensures Digits(s, base) == |s|
  {
    if s != [] {
      AllDigits(s[1..], base);
    }
  }

  /** Reading a printed id gives the id back, for every 32-bit value. */
  lemma ReadsPrinted(u: nat)
    requires u <= UINT32_MAX
    ensures Readable(Decimal(u)) && StrToUl(Decimal(u)).value == u
  {
    var s := Decimal(u);
    DecimalDigits(u);
    assert !IsSpace(s[0]) && s[0] !in "+-";
    assert s[0..] == s;
    if u == 0 {
      assert s[1..] == "" && s[..1] == s && s[..0] == "";
      assert Digits(s, 8) == 1 && Value(s[..1], 8) == 0;
    } else {
      AllDigits(s, 10);
      assert s[..|s|] == s;
    }
  }

  /** A number as it is printed: decimal digits without a leading zero. */
  predicate Canonical(s: string) {
    s != [] && (forall i :: 0 <= i < |s| ==> '0' <= s[i] <= '9') && (s[0] == '0' ==> |s| == 1)
  }

  lemma {:induction false} DecimalOfValue(s: string)
    requires Canonical(s)
    ensures Decimal(Value(s, 10)) == s
  {
    hide Decimal;
    var k := |s| - 1;
    assert s == s[..k] + [s[k]];
    SameDigit(s[k]);
    if k > 0 {
      DecimalOfValue(s[..k]);
      DigitsAboveZero(s[..k]);
      OneDigitMore(Value(s[..k], 10), Digit(s[k]));
    } else {
      assert s[..k] == [] && Value([], 10) == 0;
      OnlyDigit(Digit(s[k]));
    }
  }

  lemma SameDigit(c: char)
    requires '0' <= c <= '9'
    ensures Digit(c) < 10 && DigitChar(Digit(c)) == c
  {
  }

  lemma OneDigitMore(v: nat, d: nat)
    requires v > 0 && d < 10
    ensures Decimal(v * 10 + d) == Decimal(v) + [DigitChar(d)]
  {
  }

  lemma OnlyDigit(d: nat)
    requires d < 10
    ensures Decimal(d) == [DigitChar(d)]
  {
  }

  lemma DigitsAboveZero(s: string)
    requires Canonical(s) && s[0] != '0' && Decimal(Value(s, 10)) == s
    ensures Value(s, 10) > 0
  {
    DecimalDigits(Value(s, 10));
    hide Value;
  }

  /** Digits without a leading zero are read in base 10. */
  lemma ScanCanonical(s: string)
    requires Canonical(s)
    ensures ScanDigits(s) == (Value(s, 10), |s|)
  {
    if s[0] == '0' {
      assert s == "0" && s[..1] == s && s[..0] == [] && s[1..] == [];
      assert Digits(s, 8) == 1 && Value(s, 8) == 0 == Value(s, 10);
    } else {
      AllDigits(s, 10);
      assert s[..|s|] == s;
    }
  }

  lemma ReadsCanonical(s: string)
    requires Canonical(s) && Readable(s)
    ensures StrToUl(s).value == Value(s, 10)
  {
    hide Value, ScanDigits;
    ScanCanonical(s);
    assert s[0..] == s;
  }

  /** What is read as a number is its printed form exactly when it consists of decimal digits without a leading zero:
      every other spelling, with spaces, a sign, zeros or a base prefix in front, names the segment as well. */
  lemma AliasesExactly(s: string)
    requires Readable(s)
    ensures s == Decimal(StrToUl(s).value) <==> Canonical(s)
  {
    hide StrToUl, Readable, Value;
    if Canonical(s) {
      ReadsCanonical(s);
      DecimalOfValue(s);
    }
    var v := StrToUl(s).value;
    DecimalDigits(v);
    SingleDigit(v);
  }

  lemma SingleDigit(v: nat)
    ensures v == 0 ==> |Decimal(v)| == 1
  {
  }

  /** There is such a spelling for every segment: a space in front of the number. */
  lemma SpacedAlias(u: nat)
    requires u <= UINT32_MAX
    ensures var s := " " + Decimal(u); Readable(s) && StrToUl(s).value == u && !Canonical(s)
  {
    hide Value, ScanDigits, Decimal;
    var d := Decimal(u);
    DecimalDigits(u);
    SingleDigit(u);
    ScanCanonical(d);
    OneSpace(d);
  }

  lemma OneSpace(d: string)
    requires d != [] && '0' <= d[0] <= '9'
    ensures var s := " " + d; s[0] == ' ' && s[1..] == d && Spaces(s) == 1
  {
    assert (" " + d)[1..] == d;
  }

  /** And the empty string is read as 0. */
  lemma BarePrefixIsZero()
    ensures Readable("") && StrToUl("").value == 0 && !Canonical("")
  {
  }

  function Pow10(k: nat): nat {
    if k == 0 then 1 else 10 * Pow10(k - 1)
  }

  lemma {:induction false} DecimalLength(u: nat, k: nat)
    requires k > 0 && u < Pow10(k)
    ensures |Decimal(u)| <= k
  {
    if u >= 10 {
      assert k > 1 && u / 10 < Pow10(k - 1);
      DecimalLength(u / 10, k - 1);
    }
  }

  /** The name of every 32-bit id, with its slash and terminator, fits the buffer of 32 characters. */
  lemma NameFits(id: nat)
    requires id <= UINT32_MAX
    ensures |"/" + SegmentName(id)| + 1 <= 32
  {
    assert Pow10(5) == 100000 by { assert Pow10(3) == 1000; }
    assert Pow10(10) == 10000000000 by { assert Pow10(8) == 100000000 by { assert Pow10(7) == 10000000; } }
    DecimalLength(id, 10);
  }
}
