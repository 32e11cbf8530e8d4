/**
 Reading numbers, against independent printers: every spelling of a number in base 10, 8 or 16, with white space, sign
 and leading zeros, and what may follow it.
 */
module Numerals {
  import opened SegmentNames

  const LOWER := "0123456789abcdef"
  const UPPER := "0123456789ABCDEF"

  datatype Base = Ten | Eight | Sixteen(x: char)

  function Radix(b: Base): nat {
    match b case Ten => 10 case Eight => 8 case Sixteen(_) => 16
  }

  /** What stands in front of the digits. */
  function Mark(b: Base): string {
    match b case Ten => "" case Eight => "0" case Sixteen(x) => ['0', x]
  }

  /** The digits of `u` in a base up to 16. */
  function Numeral(u: nat, radix: nat): (s: string)
    requires 2 <= radix <= 16
    ensures s != []
  {
    if u < radix then [LOWER[u]] else Numeral(u / radix, radix) + [LOWER[u % radix]]
  }

  /** The same digit; letters may be of either case. */
  predicate SameDigits(s: string, t: string) {
    |s| == |t| && forall i :: 0 <= i < |s| ==> SameDigit16(s[i], t[i])
  }

  predicate SameDigit16(c: char, lower: char) {
    exists d :: 0 <= d < 16 && lower == LOWER[d] && (c == LOWER[d] || c == UPPER[d])
  }

  function Zeros(k: nat): (s: string)
    ensures |s| == k && forall i :: 0 <= i < k ==> s[i] == '0'
  {
    seq(k, _ => '0')
  }

  /** The digits `s` spell `u`: in base 10 without zeros in front, which would mean base 8. */
  predicate Spells(s: string, b: Base, u: nat) {
    exists k: nat :: k <= |s| && SameDigits(s, Zeros(k) + Numeral(u, Radix(b))) && (b.Ten? ==> k == 0 && u > 0) && (b.Sixteen? ==> b.x in "xX")
  }

  predicate Blank(w: string) {
    forall i :: 0 <= i < |w| ==> w[i] as int in {9, 10, 11, 12, 13, 32}
  }

  /** No digit of the base stands in front. */
  predicate EndsDigits(rest: string, b: Base) {
    rest != [] ==> forall d :: 0 <= d < Radix(b) ==> rest[0] != LOWER[d] && rest[0] != UPPER[d]
  }

  // ------------------------------------------------------------------ digits

  lemma DigitOf(c: char, d: nat)
    requires d < 16 && (c == LOWER[d] || c == UPPER[d])
    ensures Digit(c) == d
  {
  }

  lemma DigitChars(c: char)
    requires Digit(c) < 16
    ensures c == LOWER[Digit(c)] || c == UPPER[Digit(c)]
  {
  }

  lemma EqualDigits(c: char, lower: char)
    requires SameDigit16(c, lower)
    ensures Digit(c) == Digit(lower) < 16
  {
    var d :| 0 <= d < 16 && lower == LOWER[d] && (c == LOWER[d] || c == UPPER[d]);
    DigitOf(c, d);
    DigitOf(lower, d);
  }

  lemma LowerIsDigit(d: nat)
    requires d < 16
    ensures Digit(LOWER[d]) == d && SameDigit16(LOWER[d], LOWER[d])
  {
    DigitOf(LOWER[d], d);
  }

  lemma NoDigit(c: char, radix: nat)
    requires radix in {8, 10, 16} && forall d :: 0 <= d < radix ==> c != LOWER[d] && c != UPPER[d]
    ensures Digit(c) >= radix
  {
    hide Digit;
    if Digit(c) < radix {
      DigitChars(c);
    }
  }

  lemma {:induction false} NumeralValue(u: nat, radix: nat)
    requires 2 <= radix <= 16
    ensures var s := Numeral(u, radix);
      Value(s, radix) == u && (forall i :: 0 <= i < |s| ==> Digit(s[i]) < radix) && (u > 0 ==> Digit(s[0]) > 0)
  {
    hide Digit, Numeral, Value;
    if u < radix {
      LastDigit(u, radix);
      LowerIsDigit(u);
      OneMore([], LOWER[u], radix);
      assert [] + [LOWER[u]] == [LOWER[u]];
    } else {
      var q, d := Quotient(u, radix);
      NumeralValue(q, radix);
      LowerIsDigit(d);
      OneMore(Numeral(q, radix), LOWER[d], radix);
    }
  }

  lemma LastDigit(u: nat, radix: nat)
    requires 2 <= radix <= 16 && u < radix
    ensures Numeral(u, radix) == [LOWER[u]] && Value([], radix) == 0
  {
  }

  lemma Quotient(u: nat, radix: nat) returns (q: nat, d: nat)
    requires 2 <= radix <= u && radix <= 16
    ensures 0 < q < u && q * radix + d == u && d < radix && Numeral(u, radix) == Numeral(q, radix) + [LOWER[d]]
  {
    hide Digit;
    q, d := u / radix, u % radix;
    Divided(u, radix);
  }

  lemma Divided(u: nat, radix: nat)
    requires 2 <= radix <= u
    ensures 0 < u / radix < u && u / radix * radix + u % radix == u && u % radix < radix
  {
  }

  lemma OneMore(s: string, c: char, radix: nat)
    ensures var t := s + [c];
      Value(t, radix) == Value(s, radix) * radix + Digit(c) && (forall i :: 0 <= i < |s| ==> t[i] == s[i]) && t[|s|] == c
  {
    assert (s + [c])[..|s|] == s;
  }

  lemma {:induction false} ZerosValue(k: nat, s: string, radix: nat)
    ensures Value(Zeros(k) + s, radix) == Value(s, radix)
    decreases |s|, k
  {
    var t := Zeros(k) + s;
    if s != [] {
      var n := |s| - 1;
      assert t[..|t| - 1] == Zeros(k) + s[..n];
      ZerosValue(k, s[..n], radix);
    } else if k > 0 {
      assert t == Zeros(k) && t[..k - 1] == Zeros(k - 1) + [];
      ZerosValue(k - 1, [], radix);
    } else {
      assert t == [];
    }
  }

  lemma {:induction false} SameValue(s: string, t: string, radix: nat)
    requires |s| == |t| && forall i :: 0 <= i < |s| ==> Digit(s[i]) == Digit(t[i])
    ensures Value(s, radix) == Value(t, radix)
  {
    if s != [] {
      var n := |s| - 1;
      assert s[..n] + [s[n]] == s && t[..n] + [t[n]] == t;
      SameValue(s[..n], t[..n], radix);
    }
  }

  lemma SpelledValue(s: string, b: Base, u: nat)
    requires Spells(s, b, u)
    ensures Value(s, Radix(b)) == u && s != [] && (forall i :: 0 <= i < |s| ==> Digit(s[i]) < Radix(b)) && (b.Ten? ==> Digit(s[0]) > 0)
  {
    hide Digit, Value, Numeral, SameDigit16;
    var r := Radix(b);
    var k: nat :| k <= |s| && SameDigits(s, Zeros(k) + Numeral(u, r)) && (b.Ten? ==> k == 0 && u > 0);
    var t := Zeros(k) + Numeral(u, r);
    NumeralValue(u, r);
    ZerosValue(k, Numeral(u, r), r);
    LowerIsDigit(0);
    forall i | 0 <= i < |s| ensures Digit(s[i]) == Digit(t[i]) < r {
      EqualDigits(s[i], t[i]);
      if i < k {
        assert t[i] == '0';
      } else {
        assert t[i] == Numeral(u, r)[i - k];
      }
    }
    SameValue(s, t, r);
    assert k == 0 ==> t[0] == Numeral(u, r)[0];
  }

  lemma {:induction false} DigitsStop(s: string, rest: string, radix: nat)
    requires (forall i :: 0 <= i < |s| ==> Digit(s[i]) < radix) && (rest != [] ==> Digit(rest[0]) >= radix)
    ensures Digits(s + rest, radix) == |s|
  {
    if s == [] {
      assert s + rest == rest;
    } else {
      assert (s + rest)[1..] == s[1..] + rest;
      DigitsStop(s[1..], rest, radix);
    }
  }

  // ------------------------------------------------------------------ a number and what follows

  lemma ScanNumber(s: string, b: Base, u: nat, rest: string)
    requires Spells(s, b, u) && EndsDigits(rest, b)
    ensures ScanDigits(Mark(b) + s + rest) == (u, |Mark(b) + s|)
  {
    hide Spells, Value, Digits, Digit;
    var r := Radix(b);
    SpelledValue(s, b, u);
    if rest != [] {
      NoDigit(rest[0], r);
    }
    DigitsStop(s, rest, r);
    var m := Mark(b) + s + rest;
    SpellsBase(s, b, u);
    match b
    case Ten =>
      FirstDigit(s[0]);
      assert m == s + rest && m[..|s|] == s && m[0] == s[0];
    case Sixteen(x) =>
      assert m[2..] == s + rest && m[2..2 + |s|] == s && m[0] == '0' && m[1] == x && m[2] == s[0];
    case Eight =>
      ScanOctal(s, u, rest);
  }

  lemma SpellsBase(s: string, b: Base, u: nat)
    requires Spells(s, b, u)
    ensures b.Sixteen? ==> b.x in "xX"
  {
  }

  lemma FirstDigit(c: char)
    requires 0 < Digit(c) < 10
    ensures c != '0'
  {
  }

  lemma ScanOctal(s: string, u: nat, rest: string)
    requires s != [] && (forall i :: 0 <= i < |s| ==> Digit(s[i]) < 8) && Value(s, 8) == u && Digits(s + rest, 8) == |s|
    ensures ScanDigits("0" + s + rest) == (u, 1 + |s|)
  {
    var m := "0" + s + rest;
    assert m[1..] == s + rest && m[0] == '0' && m[1] == s[0];
    assert Zeros(1) + s == "0" + s == m[..1 + |s|];
    ZerosValue(1, s, 8);
  }

  lemma {:induction false} SpacesOf(w: string, rest: string)
    requires Blank(w) && (rest != [] ==> rest[0] as int !in {9, 10, 11, 12, 13, 32})
    ensures Spaces(w + rest) == |w|
  {
    if w == [] {
      assert w + rest == rest;
    } else {
      assert (w + rest)[1..] == w[1..] + rest;
      SpacesOf(w[1..], rest);
    }
  }

  /** White space, a sign if `sign` is one, and `body`. */
  lemma SignedScan(w: string, sign: string, body: string)
    requires Blank(w) && sign in {"", "+", "-"} && body != [] && body[0] !in "+-" && body[0] as int !in {9, 10, 11, 12, 13, 32}
    ensures var s := w + sign + body;
      var (v, n) := ScanDigits(body);
      StrToUl(s) ==
        if n == 0 then Scan(0, 0, false)
        else if v > ULONG_MAX then Scan(ULONG_MAX, |w + sign| + n, true)
        else Scan(if sign == "-" && v > 0 then ULONG_MAX + 1 - v else v, |w + sign| + n, false)
  {
    hide ScanDigits, Spaces;
    var s := w + sign + body;
    assert s == w + (sign + body);
    SpacesOf(w, sign + body);
    assert s[|w|] == (sign + body)[0] && s[|w + sign|..] == body;
  }

  /** What `strtoul` makes of a number `u` that is spelled in any of the three bases, wherever it stands. */
  lemma ReadsNumber(w: string, sign: string, b: Base, s: string, u: nat, rest: string)
    requires Blank(w) && sign in {"", "+", "-"} && Spells(s, b, u) && EndsDigits(rest, b)
    ensures var used := |w + sign + Mark(b) + s|;
      StrToUl(w + sign + Mark(b) + s + rest) ==
        if u > ULONG_MAX then Scan(ULONG_MAX, used, true)
        else Scan(if sign == "-" && u > 0 then ULONG_MAX + 1 - u else u, used, false)
  {
    hide Spells, ScanDigits, StrToUl;
    var body := Mark(b) + s + rest;
    ScanNumber(s, b, u, rest);
    StartsWithDigit(s, b, u, rest);
    SignedScan(w, sign, body);
    assert w + sign + body == w + sign + Mark(b) + s + rest;
    assert |w + sign| + |Mark(b) + s| == |w + sign + Mark(b) + s|;
    assert |Mark(b) + s| > 0 by { SpelledValue(s, b, u); }
  }

  lemma StartsWithDigit(s: string, b: Base, u: nat, rest: string)
    requires Spells(s, b, u)
    ensures var body := Mark(b) + s + rest; body != [] && '0' <= body[0] <= '9' && Digit(body[0]) < 10
  {
    hide Spells;
    SpelledValue(s, b, u);
    if b.Ten? {
      DecimalChar(s[0]);
      assert (Mark(b) + s + rest)[0] == s[0];
    }
  }

  lemma DecimalChar(c: char)
    requires Digit(c) < 10
    ensures '0' <= c <= '9'
  {
  }

  /** And what `AvAtou` makes of it. */
  lemma ParsesNumber(w: string, sign: string, b: Base, s: string, u: nat, rest: string)
    requires Blank(w) && sign in {"", "+", "-"} && Spells(s, b, u) && EndsDigits(rest, b)
    ensures Parse(w + sign + Mark(b) + s + rest) ==
      if u > ULONG_MAX then Failed(ERANGE)
      else if rest != [] then Failed(EINVAL)
      else
        var n := if sign == "-" && u > 0 then ULONG_MAX + 1 - u else u;
        if n > UINT32_MAX then Failed(ERANGE) else Number(n)
  {
    hide Spells, StrToUl;
    ReadsNumber(w, sign, b, s, u, rest);
  }

  /** A zero with no digit behind it, also when a base mark without digits follows. */
  lemma ParsesZero(w: string, sign: string, rest: string)
    requires Blank(w) && sign in {"", "+", "-"} && EndsDigits(rest, Eight)
    requires rest != [] && rest[0] in "xX" ==> EndsDigits(rest[1..], Sixteen(rest[0]))
    ensures Parse(w + sign + "0" + rest) == if rest == [] then Number(0) else Failed(EINVAL)
  {
    hide StrToUl, Digits, Value;
    var body := "0" + rest;
    ScanZero(rest);
    SignedScan(w, sign, body);
    assert w + sign + body == w + sign + "0" + rest;
  }

  lemma ScanZero(rest: string)
    requires EndsDigits(rest, Eight) && (rest != [] && rest[0] in "xX" ==> EndsDigits(rest[1..], Sixteen(rest[0])))
    ensures ScanDigits("0" + rest) == (0, 1)
  {
    hide Value, Digits;
    var m := "0" + rest;
    if rest != [] {
      NoDigit(rest[0], 8);
      if rest[0] in "xX" && |rest| > 1 {
        assert rest[1..][0] == rest[1] == m[2];
        NoDigit(rest[1], 16);
      }
    }
    DigitsStop("0", rest, 8);
    ZerosValue(1, [], 8);
    NoValue();
    assert m[..1] == "0" == Zeros(1) + [];
  }

  lemma NoValue()
    ensures Value([], 8) == 0
  {
  }

  /** Without a digit there is no number, and only the empty string is accepted. */
  lemma ParsesNothing(w: string, sign: string, rest: string)
    requires Blank(w) && sign in {"", "+", "-"} && EndsDigits(rest, Ten)
    requires sign == "" ==> rest != [] ==> rest[0] !in "+-" && rest[0] as int !in {9, 10, 11, 12, 13, 32}
    ensures Parse(w + sign + rest) == if w + sign + rest == [] then Number(0) else Failed(EINVAL)
  {
    hide Spaces;
    var s := w + sign + rest;
    assert s == w + (sign + rest);
    SpacesOf(w, sign + rest);
    if rest != [] {
      NoDigit(rest[0], 10);
    }
    assert s[|w + sign|..] == rest && (sign != "" ==> s[|w|] == sign[0]);
    assert Digits(rest, 10) == 0;
  }

  // ------------------------------------------------------------------ plain spellings

  lemma SpellsItself(k: nat, b: Base, u: nat)
    requires b.Ten? ==> k == 0 && u > 0
    requires b.Sixteen? ==> b.x in "xX"
    ensures Spells(Zeros(k) + Numeral(u, Radix(b)), b, u)
  {
    var s := Zeros(k) + Numeral(u, Radix(b));
    AllLower(u, Radix(b));
    LowerIsDigit(0);
    hide SameDigit16, Numeral;
    forall i | 0 <= i < |s| ensures SameDigit16(s[i], s[i]) {
      if i < k {
        assert s[i] == LOWER[0];
      } else {
        assert s[i] == Numeral(u, Radix(b))[i - k];
      }
    }
    assert SameDigits(s, s);
  }

  lemma {:induction false} AllLower(u: nat, radix: nat)
    requires 2 <= radix <= 16
    ensures forall i :: 0 <= i < |Numeral(u, radix)| ==> SameDigit16(Numeral(u, radix)[i], Numeral(u, radix)[i])
  {
    hide SameDigit16, Numeral, Digit;
    if u >= radix {
      var q, d := Quotient(u, radix);
      AllLower(q, radix);
      LowerIsDigit(d);
    } else {
      LastDigit(u, radix);
      LowerIsDigit(u);
    }
  }

  /** The decimal printer of the segment names is this one. */
  lemma {:induction false} DecimalNumeral(u: nat)
    ensures Decimal(u) == Numeral(u, 10)
  {
    if u >= 10 {
      DecimalNumeral(u / 10);
    }
    assert DigitChar(u % 10) == LOWER[u % 10];
  }

  /** Every segment can be named in base 16 and 8, with leading zeros, and with a plus sign. */
  lemma OtherBases(u: nat, k: nat, x: char)
    requires u <= UINT32_MAX && x in "xX"
    ensures Parse(['0', x] + (Zeros(k) + Numeral(u, 16))) == Number(u)
    ensures Parse("0" + (Zeros(k) + Numeral(u, 8))) == Number(u)
    ensures u > 0 ==> Parse("+" + Decimal(u)) == Number(u)
  {
    hide Spells, Parse, Numeral, Decimal;
    SpellsItself(k, Sixteen(x), u);
    SpellsItself(k, Eight, u);
    ParsesNumber("", "", Sixteen(x), Zeros(k) + Numeral(u, 16), u, "");
    ParsesNumber("", "", Eight, Zeros(k) + Numeral(u, 8), u, "");
    Around("", "", ['0', x], Zeros(k) + Numeral(u, 16));
    Around("", "", "0", Zeros(k) + Numeral(u, 8));
    if u > 0 {
      DecimalNumeral(u);
      SpellsItself(0, Ten, u);
      assert Zeros(0) + Numeral(u, 10) == Decimal(u);
      ParsesNumber("", "+", Ten, Decimal(u), u, "");
      Around("", "+", "", Decimal(u));
    }
  }

  lemma Around(w: string, sign: string, mark: string, s: string)
    ensures w + sign + mark + s + "" == w + (sign + (mark + s))
    ensures w == "" ==> w + (sign + (mark + s)) == sign + (mark + s)
    ensures sign == "" ==> sign + (mark + s) == mark + s
    ensures mark == "" ==> mark + s == s
  {
  }

  /** A negative number is out of range, but for the 2^32 - 1 numbers closest to -2^64, which are read as their
      remainder: -18446744073709551615 names segment 1. */
  lemma NegativeExactly(u: nat)
    requires u > 0
    ensures Parse("-" + Decimal(u)) ==
      if ULONG_MAX - UINT32_MAX < u <= ULONG_MAX then Number(ULONG_MAX + 1 - u) else Failed(ERANGE)
  {
    hide Spells, Parse, Numeral, Decimal;
    DecimalNumeral(u);
    SpellsItself(0, Ten, u);
    assert Zeros(0) + Numeral(u, 10) == Decimal(u);
    ParsesNumber("", "-", Ten, Decimal(u), u, "");
    Around("", "-", "", Decimal(u));
  }
}
