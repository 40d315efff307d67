/** ParserHelper: a cursor over the text of a path attribute and the
    hand-written float scanner the path interpreter reads its operands with.
    `Lex` is the scanner's specification as a pure function over the text and
    a start position; the class below is the cursor itself, whose methods are
    proved to follow it. */
module Tokenizer {
  import opened Base
  import opened Floats

  /** The character ParserHelper keeps in `current` at position i: the
      character there, or '\0' once the end is reached. */
  function At(s: string, i: nat): char
  {
    if i < |s| then s[i] else '\0'
  }

  /** The first position at or after i that does not hold a decimal digit. */
  function DigitRunEnd(s: string, i: nat): (j: nat)
    requires i <= |s|
    ensures i <= j <= |s|
    ensures !IsDigit(At(s, j))
    decreases |s| - i
  {
    if i < |s| && IsDigit(s[i]) then DigitRunEnd(s, i + 1) else i
  }

  /** The first position at or after i that does not hold '0'. */
  function ZeroRunEnd(s: string, i: nat): (j: nat)
    requires i <= |s|
    ensures i <= j <= |s|
    ensures At(s, j) != '0'
    decreases |s| - i
  {
    if i < |s| && s[i] == '0' then ZeroRunEnd(s, i + 1) else i
  }

  /** The first position at or after i that is not Java whitespace. */
  function WhitespaceEnd(s: string, i: nat): (j: nat)
    requires i <= |s|
    ensures i <= j <= |s|
    ensures forall k :: i <= k < j ==> IsJavaWhitespace(s[k])
    ensures j == |s| || !IsJavaWhitespace(s[j])
    decreases |s| - i
  {
    if i < |s| && IsJavaWhitespace(s[i]) then WhitespaceEnd(s, i + 1) else i
  }

  /** The separators skipNumberSeparator passes over. */
  predicate IsNumberSeparator(c: char)
  {
    c == ' ' || c == ',' || c == '\n' || c == '\t'
  }

  /** The first position at or after i that is not a number separator. */
  function SeparatorEnd(s: string, i: nat): (j: nat)
    requires i <= |s|
    ensures i <= j <= |s|
    ensures forall k :: i <= k < j ==> IsNumberSeparator(s[k])
    ensures j == |s| || !IsNumberSeparator(s[j])
    decreases |s| - i
  {
    if i < |s| && IsNumberSeparator(s[i]) then SeparatorEnd(s, i + 1) else i
  }

  lemma {:induction false} DigitRunIsDigits(s: string, i: nat)
    requires i <= |s|
    ensures forall k :: i <= k < DigitRunEnd(s, i) ==> IsDigit(s[k])
    decreases |s| - i
  {
    if i < |s| && IsDigit(s[i]) {
      DigitRunIsDigits(s, i + 1);
    }
  }

  /** The run of digits starting at position i. */
  function DigitRun(s: string, i: nat): (d: string)
    requires i <= |s|
    ensures d == s[i..DigitRunEnd(s, i)]
    ensures forall k :: 0 <= k < |d| ==> IsDigit(d[k])
  {
    DigitRunIsDigits(s, i);
    var e := DigitRunEnd(s, i);
    assert forall k :: 0 <= k < e - i ==> s[i..e][k] == s[i + k];
    s[i..e]
  }

  lemma {:induction false} ZerosAreDigits(s: string, i: nat)
    requires i <= |s|
    ensures DigitRunEnd(s, ZeroRunEnd(s, i)) == DigitRunEnd(s, i)
    decreases |s| - i
  {
    if i < |s| && s[i] == '0' {
      ZerosAreDigits(s, i + 1);
    }
  }

  /** 10^n over the naturals. */
  function TenTo(n: nat): (p: nat)
    ensures p >= 1
  {
    if n == 0 then 1 else 10 * TenTo(n - 1)
  }

  /** The digits kept so far and how many there are. */
  datatype Mantissa = Mantissa(value: nat, digits: nat)

  /** The value of a decimal digit character (0 for any other character,
      which the scanner never offers). */
  function Digit(c: char): (v: nat)
    ensures v < 10
  {
    if IsDigit(c) then DigitValue(c) else 0
  }

  /** One digit offered to a mantissa that keeps at most `cap` digits. */
  function Push(m: Mantissa, c: char, cap: nat): Mantissa
  {
    if m.digits < cap then Mantissa(m.value * 10 + Digit(c), m.digits + 1) else m
  }

  /** The characters s[i..j] offered one by one. */
  function PushRange(s: string, i: nat, j: nat, m: Mantissa, cap: nat): Mantissa
    requires i <= j <= |s|
    decreases j
  {
    if j == i then m else Push(PushRange(s, i, j - 1, m, cap), s[j - 1], cap)
  }

  /** Offering a run of digits to an empty mantissa keeps exactly the first
      `cap` of them, so the value has at most `cap` digits. */
  lemma {:induction false} PushRangeKeepsPrefix(s: string, i: nat, j: nat, cap: nat)
    requires i <= j <= |s|
    requires forall k :: i <= k < j ==> IsDigit(s[k])
    ensures var kept := if j - i < cap then j - i else cap;
      && PushRange(s, i, j, Mantissa(0, 0), cap).digits == kept
      && PushRange(s, i, j, Mantissa(0, 0), cap).value == DecimalDigits(s[i..j][..kept])
      && PushRange(s, i, j, Mantissa(0, 0), cap).value < TenTo(kept)
    decreases j
  {
    if j > i {
      PushRangeKeepsPrefix(s, i, j - 1, cap);
      if j - 1 - i < cap {
        assert s[i..j][..j - i] == s[i..j];
        assert s[i..j][..j - 1 - i] == s[i..j - 1];
        assert s[i..j - 1][..j - 1 - i] == s[i..j - 1];
      } else {
        assert forall k :: 0 <= k < cap ==> s[i..j][..cap][k] == s[i..j - 1][..cap][k];
        assert s[i..j][..cap] == s[i..j - 1][..cap];
      }
    }
  }

  /** Continuing a mantissa with more digits never loses the digits kept so
      far, and never keeps more than `cap` in all. */
  lemma {:induction false} PushRangeGrows(s: string, i: nat, j: nat, m: Mantissa, cap: nat)
    requires i <= j <= |s|
    requires m.digits <= cap && m.value < TenTo(m.digits)
    ensures PushRange(s, i, j, m, cap).digits == if m.digits + (j - i) < cap then m.digits + (j - i) else cap
    ensures PushRange(s, i, j, m, cap).value < TenTo(PushRange(s, i, j, m, cap).digits)
    decreases j
  {
    if j > i {
      PushRangeGrows(s, i, j - 1, m, cap);
    }
  }

  /** What the scanner recognised, before buildFloat turns it into a float. */
  datatype Lexeme =
    | NotANumber(end: nat)                  // no digit and no '.' where the number should start
    | EarlyZero(end: nat)                   // the scanner's early `return 0.0f`
    | BadChar(c: char, end: nat)            // reportUnexpectedCharacterError
    | Number(negative: bool, mant: nat, exp: int, end: nat)

  /** A run of digits from position i offered to mantissa m: the mantissa
      it leaves and the position after the run. */
  function DigitsFrom(s: string, i: nat, m: Mantissa, cap: nat): (r: (Mantissa, nat))
    requires i <= |s|
    ensures r.1 == DigitRunEnd(s, i)
  {
    var e := DigitRunEnd(s, i);
    (PushRange(s, i, e, m, cap), e)
  }

  /** The exponent's digits from position start: leading zeros are skipped
      and at most three significant digits count; the value and the position
      after the last digit. */
  function ExponentDigits(s: string, start: nat): (r: (nat, nat))
    requires start <= |s|
    ensures start <= r.1 <= |s|
  {
    var d := DigitsFrom(s, ZeroRunEnd(s, start), Mantissa(0, 0), 3);
    (d.0.value, d.1)
  }

  /** The exponent part, scanned from position e, of a number whose mantissa
      and exponent adjustment are already known. */
  function LexExponent(s: string, e: nat, negative: bool, m: Mantissa, adj: int): (x: Lexeme)
    requires e <= |s|
    ensures x.end <= |s| && e <= x.end
    ensures x.Number? || x.BadChar?
  {
    if At(s, e) == 'e' || At(s, e) == 'E' then
      var r := e + 1;
      var c := At(s, r);
      if (c == '-' || c == '+') && !IsDigit(At(s, r + 1)) then BadChar(At(s, r + 1), if r + 1 <= |s| then r + 1 else |s|)
      else if c != '-' && c != '+' && !IsDigit(c) then BadChar(c, r)
      else
        var ed := ExponentDigits(s, if c == '-' || c == '+' then r + 1 else r);
        Number(negative, m.value, (if c == '-' then -(ed.0 as int) else ed.0) + adj, ed.1)
    else Number(negative, m.value, adj, e)
  }

  lemma LexExponentAbsent(s: string, e: nat, negative: bool, m: Mantissa, adj: int)
    requires e <= |s| && At(s, e) != 'e' && At(s, e) != 'E'
    ensures LexExponent(s, e, negative, m, adj) == Number(negative, m.value, adj, e)
  {
  }

  lemma LexExponentBad(s: string, e: nat, negative: bool, m: Mantissa, adj: int)
    requires e < |s| && (s[e] == 'e' || s[e] == 'E')
    ensures var c := At(s, e + 1);
      (c == '-' || c == '+') && !IsDigit(At(s, e + 2)) ==>
        LexExponent(s, e, negative, m, adj) == BadChar(At(s, e + 2), if e + 2 <= |s| then e + 2 else |s|)
    ensures var c := At(s, e + 1);
      c != '-' && c != '+' && !IsDigit(c) ==> LexExponent(s, e, negative, m, adj) == BadChar(c, e + 1)
  {
  }

  lemma LexExponentDigits(s: string, e: nat, negative: bool, m: Mantissa, adj: int)
    requires e < |s| && (s[e] == 'e' || s[e] == 'E')
    requires IsDigit(At(s, e + 1)) || ((At(s, e + 1) == '-' || At(s, e + 1) == '+') && IsDigit(At(s, e + 2)))
    ensures var c := At(s, e + 1);
      var ed := ExponentDigits(s, if c == '-' || c == '+' then e + 2 else e + 1);
      LexExponent(s, e, negative, m, adj) == Number(negative, m.value, (if c == '-' then -(ed.0 as int) else ed.0) + adj, ed.1)
  {
  }

  /** ParserHelper.parseFloat as a scanner from position p0: an optional sign,
      integer digits, an optional fraction and an optional exponent.  At most
      nine significant digits enter the mantissa; each further integer digit
      raises the exponent adjustment by one and each fraction digit that
      enters the mantissa lowers it by one; leading zeros of the fraction of
      a number with no significant integer digit lower it as well. */
  function Lex(s: string, p0: nat): (x: Lexeme)
    requires p0 <= |s|
    ensures p0 <= x.end <= |s|
  {
    var negative := At(s, p0) == '-';
    var p1 := if At(s, p0) == '-' || At(s, p0) == '+' then p0 + 1 else p0;
    var c := At(s, p1);
    if !IsDigit(c) && c != '.' then NotANumber(p1)
    else
      var z := ZeroRunEnd(s, p1);
      var iEnd := DigitRunEnd(s, z);
      if c == '0' && z == iEnd && At(s, iEnd) != '.' && At(s, iEnd) != 'e' && At(s, iEnd) != 'E' then EarlyZero(iEnd)
      else
        var m1 := DigitsFrom(s, z, Mantissa(0, 0), 9).0;
        LexFraction(s, iEnd, negative, c != '.', m1, (iEnd - z) - m1.digits)
  }

  /** The position after an optional sign. */
  function AfterSign(s: string, p0: nat): nat
  {
    if At(s, p0) == '-' || At(s, p0) == '+' then p0 + 1 else p0
  }

  lemma LexNoNumber(s: string, p0: nat)
    requires p0 <= |s|
    requires !IsDigit(At(s, AfterSign(s, p0))) && At(s, AfterSign(s, p0)) != '.'
    ensures Lex(s, p0) == NotANumber(AfterSign(s, p0))
  {
  }

  lemma LexEarlyZero(s: string, p0: nat)
    requires p0 <= |s|
    requires At(s, AfterSign(s, p0)) == '0' && AfterSign(s, p0) <= |s|
    requires var z := ZeroRunEnd(s, AfterSign(s, p0));
      !IsDigit(At(s, z)) && At(s, z) != '.' && At(s, z) != 'e' && At(s, z) != 'E'
    ensures Lex(s, p0) == EarlyZero(ZeroRunEnd(s, AfterSign(s, p0)))
  {
  }

  /** Lex past a sign and an integer part that did not end the scan early. */
  lemma LexIntegerPart(s: string, p0: nat, z: nat, m: Mantissa, e: nat, negative: bool, mantRead: bool, adj: int)
    requires p0 <= |s|
    requires IsDigit(At(s, AfterSign(s, p0))) || At(s, AfterSign(s, p0)) == '.'
    requires AfterSign(s, p0) <= |s| && z == ZeroRunEnd(s, AfterSign(s, p0))
    requires (m, e) == DigitsFrom(s, z, Mantissa(0, 0), 9)
    requires !(At(s, AfterSign(s, p0)) == '0' && z == e && At(s, e) != '.' && At(s, e) != 'e' && At(s, e) != 'E')
    requires negative == (At(s, p0) == '-') && mantRead == (At(s, AfterSign(s, p0)) != '.')
    requires adj == (e - z) - m.digits
    ensures Lex(s, p0) == LexFraction(s, e, negative, mantRead, m, adj)
  {
    assert DigitRunEnd(s, z) == e && DigitsFrom(s, z, Mantissa(0, 0), 9).0 == m;
  }

  /** The optional fraction, scanned from position f, once the integer part
      has left mantissa m1 and exponent adjustment adj1. */
  function LexFraction(s: string, f: nat, negative: bool, mantRead: bool, m1: Mantissa, adj1: int): (x: Lexeme)
    requires f <= |s|
    ensures f <= x.end <= |s|
  {
    if At(s, f) == '.' then
      var q := f + 1;
      var c2 := At(s, q);
      if !IsDigit(c2) then
        if !mantRead then BadChar(c2, q) else LexExponent(s, q, negative, m1, adj1)
      else if c2 == '0' && m1.digits == 0 then LexFractionZeros(s, q, negative, mantRead, m1, adj1)
      else
        var d := DigitsFrom(s, q, m1, 9);
        LexExponent(s, d.1, negative, d.0, adj1 - (d.0.digits - m1.digits))
    else LexExponent(s, f, negative, m1, adj1)
  }

  /** The fraction of a number with no significant digit yet, from its
      first '0' at position q: every leading zero lowers the adjustment. */
  function LexFractionZeros(s: string, q: nat, negative: bool, mantRead: bool, m1: Mantissa, adj1: int): (x: Lexeme)
    requires q <= |s|
    ensures q <= x.end <= |s|
  {
    var z2 := ZeroRunEnd(s, q);
    var adj2 := adj1 - (z2 - q);
    if IsDigit(At(s, z2)) then
      var d := DigitsFrom(s, z2, m1, 9);
      LexExponent(s, d.1, negative, d.0, adj2 - (d.0.digits - m1.digits))
    else if !mantRead then EarlyZero(z2)
    else LexExponent(s, z2, negative, m1, adj2)
  }

  /** A mantissa with at most nine digits, each of them counted. */
  predicate WellFormed(m: Mantissa)
  {
    m.digits <= 9 && m.value < TenTo(m.digits)
  }

  lemma {:induction false} TenToMonotone(a: nat, b: nat)
    requires a <= b
    ensures TenTo(a) <= TenTo(b)
    decreases b
  {
    if a < b {
      TenToMonotone(a, b - 1);
    }
  }

  lemma DigitsFromWellFormed(s: string, i: nat, m: Mantissa)
    requires i <= |s| && WellFormed(m)
    ensures WellFormed(DigitsFrom(s, i, m, 9).0)
    ensures DigitsFrom(s, i, m, 9).0.digits >= m.digits
  {
    PushRangeGrows(s, i, DigitRunEnd(s, i), m, 9);
  }

  lemma LexFractionAbsent(s: string, f: nat, negative: bool, mantRead: bool, m1: Mantissa, adj1: int)
    requires f <= |s| && At(s, f) != '.'
    ensures LexFraction(s, f, negative, mantRead, m1, adj1) == LexExponent(s, f, negative, m1, adj1)
  {
  }

  lemma LexExponentMantissa(s: string, e: nat, negative: bool, m: Mantissa, adj: int)
    requires e <= |s|
    ensures LexExponent(s, e, negative, m, adj).Number? ==> LexExponent(s, e, negative, m, adj).mant == m.value
  {
  }

  lemma LexFractionZerosBound(s: string, q: nat, negative: bool, mantRead: bool, m1: Mantissa, adj1: int)
    requires q <= |s| && WellFormed(m1)
    ensures LexFractionZeros(s, q, negative, mantRead, m1, adj1).Number? ==>
      LexFractionZeros(s, q, negative, mantRead, m1, adj1).mant < TenTo(9)
  {
    TenToMonotone(m1.digits, 9);
    var z2 := ZeroRunEnd(s, q);
    var adj2 := adj1 - (z2 - q);
    if IsDigit(At(s, z2)) {
      DigitsFromWellFormed(s, z2, m1);
      var d := DigitsFrom(s, z2, m1, 9);
      TenToMonotone(d.0.digits, 9);
      LexExponentMantissa(s, d.1, negative, d.0, adj2 - (d.0.digits - m1.digits));
    } else {
      LexExponentMantissa(s, z2, negative, m1, adj2);
    }
  }

  lemma LexFractionBound(s: string, f: nat, negative: bool, mantRead: bool, m1: Mantissa, adj1: int)
    requires f <= |s| && WellFormed(m1)
    ensures LexFraction(s, f, negative, mantRead, m1, adj1).Number? ==>
      LexFraction(s, f, negative, mantRead, m1, adj1).mant < TenTo(9)
  {
    TenToMonotone(m1.digits, 9);
    if At(s, f) == '.' {
      var q := f + 1;
      var c2 := At(s, q);
      if !IsDigit(c2) {
        LexExponentMantissa(s, q, negative, m1, adj1);
      } else if c2 == '0' && m1.digits == 0 {
        LexFractionZerosBound(s, q, negative, mantRead, m1, adj1);
      } else {
        DigitsFromWellFormed(s, q, m1);
        var d := DigitsFrom(s, q, m1, 9);
        TenToMonotone(d.0.digits, 9);
        LexExponentMantissa(s, d.1, negative, d.0, adj1 - (d.0.digits - m1.digits));
      }
    } else {
      LexExponentMantissa(s, f, negative, m1, adj1);
    }
  }

  /** The scanner never keeps more than nine significant digits: every
      mantissa it hands to buildFloat is below 10^9. */
  lemma LexMantissaBound(s: string, p0: nat)
    requires p0 <= |s|
    ensures Lex(s, p0).Number? ==> Lex(s, p0).mant < 1_000_000_000
  {
    var p1 := AfterSign(s, p0);
    var c := At(s, p1);
    var z := ZeroRunEnd(s, p1);
    var d := DigitsFrom(s, z, Mantissa(0, 0), 9);
    if !IsDigit(c) && c != '.' {
      LexNoNumber(s, p0);
    } else if c == '0' && z == d.1 && At(s, d.1) != '.' && At(s, d.1) != 'e' && At(s, d.1) != 'E' {
      LexEarlyZero(s, p0);
    } else {
      LexGeneralBound(s, p0);
      TenToNine();
    }
  }

  /** LexMantissaBound past the sign and the leading zeros: the digits and
      the fraction go through LexFraction, which keeps at most nine. */
  lemma LexGeneralBound(s: string, p0: nat)
    requires p0 <= |s|
    requires var p1 := AfterSign(s, p0); var c := At(s, p1);
      var z := ZeroRunEnd(s, p1); var d := DigitsFrom(s, z, Mantissa(0, 0), 9);
      (IsDigit(c) || c == '.') && !(c == '0' && z == d.1 && At(s, d.1) != '.' && At(s, d.1) != 'e' && At(s, d.1) != 'E')
    ensures Lex(s, p0).Number? ==> Lex(s, p0).mant < TenTo(9)
  {
    var p1 := AfterSign(s, p0);
    var c := At(s, p1);
    var z := ZeroRunEnd(s, p1);
    var d := DigitsFrom(s, z, Mantissa(0, 0), 9);
    var x := LexFraction(s, d.1, At(s, p0) == '-', c != '.', d.0, (d.1 - z) - d.0.digits);
    DigitsFromWellFormed(s, z, Mantissa(0, 0));
    LexFractionBound(s, d.1, At(s, p0) == '-', c != '.', d.0, (d.1 - z) - d.0.digits);
    LexIntegerPart(s, p0, z, d.0, d.1, At(s, p0) == '-', c != '.', (d.1 - z) - d.0.digits);
    SameBound(Lex(s, p0), x);
  }

  lemma SameBound(a: Lexeme, b: Lexeme)
    requires a == b && (b.Number? ==> b.mant < TenTo(9))
    ensures a.Number? ==> a.mant < TenTo(9)
  {
  }

  lemma TenToNine()
    ensures TenTo(9) == 1_000_000_000
  {
    assert TenTo(3) == 1000;
    assert TenTo(6) == 1_000_000;
  }

  /** A run of n integer digits with no fraction and no exponent, starting
      with a significant digit: min(n, 9) of them enter the mantissa (the
      first ones, by PushRangeKeepsPrefix) and every further digit raises the
      exponent by one. */
  lemma LexIntegerLiteral(s: string, p0: nat)
    requires p0 < |s| && '1' <= s[p0] <= '9'
    requires var e := DigitRunEnd(s, p0); At(s, e) != '.' && At(s, e) != 'e' && At(s, e) != 'E'
    ensures var e := DigitRunEnd(s, p0);
      var kept := if e - p0 < 9 then e - p0 else 9;
      Lex(s, p0) == Number(false, PushRange(s, p0, e, Mantissa(0, 0), 9).value, (e - p0) - kept, e)
  {
    var d := DigitsFrom(s, p0, Mantissa(0, 0), 9);
    var adj := (d.1 - p0) - d.0.digits;
    assert AfterSign(s, p0) == p0 && ZeroRunEnd(s, p0) == p0;
    PushRangeGrows(s, p0, d.1, Mantissa(0, 0), 9);
    LexIntegerPart(s, p0, p0, d.0, d.1, false, true, adj);
    LexFractionAbsent(s, d.1, false, true, d.0, adj);
    LexExponentAbsent(s, d.1, false, d.0, adj);
  }

  /** No exponent marker at position e. */
  predicate NoExponentAt(s: string, e: nat)
  {
    At(s, e) != 'e' && At(s, e) != 'E'
  }

  /** k fraction digits after the '.' at f, with no exponent after them:
      they are offered to the mantissa, the first 9 - m1.digits of them are
      kept, and each kept digit lowers the adjustment by one. */
  lemma LexFractionDigits(s: string, f: nat, negative: bool, mantRead: bool, m1: Mantissa, adj1: int)
    requires f < |s| && s[f] == '.' && IsDigit(At(s, f + 1)) && WellFormed(m1)
    requires !(At(s, f + 1) == '0' && m1.digits == 0)
    requires NoExponentAt(s, DigitRunEnd(s, f + 1))
    ensures var e := DigitRunEnd(s, f + 1);
      var kept := if e - (f + 1) < 9 - m1.digits then e - (f + 1) else 9 - m1.digits;
      LexFraction(s, f, negative, mantRead, m1, adj1) ==
        Number(negative, PushRange(s, f + 1, e, m1, 9).value, adj1 - kept, e)
  {
    var e := DigitRunEnd(s, f + 1);
    PushRangeGrows(s, f + 1, e, m1, 9);
    LexExponentAbsent(s, e, negative, DigitsFrom(s, f + 1, m1, 9).0,
      adj1 - (DigitsFrom(s, f + 1, m1, 9).0.digits - m1.digits));
  }

  /** The fraction of a number with no significant digit yet: every leading
      zero lowers the adjustment by one, then the digits after them enter the
      empty mantissa as in LexFractionDigits (at most nine are kept, each
      lowering the adjustment by one). */
  lemma LexFractionZerosDigits(s: string, q: nat, negative: bool, mantRead: bool, adj1: int)
    requires q <= |s|
    requires NoExponentAt(s, DigitRunEnd(s, ZeroRunEnd(s, q)))
    ensures var z2 := ZeroRunEnd(s, q);
      var e := DigitRunEnd(s, z2);
      var kept := if e - z2 < 9 then e - z2 else 9;
      IsDigit(At(s, z2)) ==>
        LexFractionZeros(s, q, negative, mantRead, Mantissa(0, 0), adj1) ==
          Number(negative, PushRange(s, z2, e, Mantissa(0, 0), 9).value, adj1 - (z2 - q) - kept, e)
    ensures var z2 := ZeroRunEnd(s, q);
      !IsDigit(At(s, z2)) && mantRead ==>
        LexFractionZeros(s, q, negative, mantRead, Mantissa(0, 0), adj1) == Number(negative, 0, adj1 - (z2 - q), z2)
  {
    var z2 := ZeroRunEnd(s, q);
    var e := DigitRunEnd(s, z2);
    PushRangeGrows(s, z2, e, Mantissa(0, 0), 9);
    var d := DigitsFrom(s, z2, Mantissa(0, 0), 9);
    LexExponentAbsent(s, e, negative, d.0, adj1 - (z2 - q) - d.0.digits);
    LexExponentAbsent(s, z2, negative, Mantissa(0, 0), adj1 - (z2 - q));
  }

  /** A decimal literal "n.k" starting with a significant digit and with no
      exponent: the integer digits and then the fraction digits enter the
      mantissa, nine at most; each integer digit past the ninth raises the
      exponent by one and each kept fraction digit lowers it by one. */
  lemma LexDecimalLiteral(s: string, p0: nat)
    requires p0 < |s| && '1' <= s[p0] <= '9'
    requires var i := DigitRunEnd(s, p0); i < |s| && s[i] == '.' && IsDigit(At(s, i + 1))
    requires NoExponentAt(s, DigitRunEnd(s, DigitRunEnd(s, p0) + 1))
    ensures var i := DigitRunEnd(s, p0);
      var e := DigitRunEnd(s, i + 1);
      var n := i - p0;
      var intKept := if n < 9 then n else 9;
      var fracKept := if e - (i + 1) < 9 - intKept then e - (i + 1) else 9 - intKept;
      Lex(s, p0) == Number(false, PushRange(s, i + 1, e, PushRange(s, p0, i, Mantissa(0, 0), 9), 9).value,
        (n - intKept) - fracKept, e)
  {
    var d := DigitsFrom(s, p0, Mantissa(0, 0), 9);
    var adj := (d.1 - p0) - d.0.digits;
    assert AfterSign(s, p0) == p0 && ZeroRunEnd(s, p0) == p0;
    PushRangeGrows(s, p0, d.1, Mantissa(0, 0), 9);
    LexIntegerPart(s, p0, p0, d.0, d.1, false, true, adj);
    LexFractionDigits(s, d.1, false, true, d.0, adj);
  }

  /** A literal ".0…0d…" with z leading fraction zeros and no exponent: the
      zeros lower the exponent by z, then the digits after them enter the
      mantissa as in LexDecimalLiteral. */
  lemma LexLeadingFractionZeros(s: string, p0: nat)
    requires p0 < |s| && s[p0] == '.' && At(s, p0 + 1) == '0'
    requires var z2 := ZeroRunEnd(s, p0 + 1); IsDigit(At(s, z2)) && NoExponentAt(s, DigitRunEnd(s, z2))
    ensures var z2 := ZeroRunEnd(s, p0 + 1);
      var e := DigitRunEnd(s, z2);
      var kept := if e - z2 < 9 then e - z2 else 9;
      Lex(s, p0) == Number(false, PushRange(s, z2, e, Mantissa(0, 0), 9).value, -(z2 - (p0 + 1)) - kept, e)
  {
    assert AfterSign(s, p0) == p0 && ZeroRunEnd(s, p0) == p0 && DigitRunEnd(s, p0) == p0;
    var d := DigitsFrom(s, p0, Mantissa(0, 0), 9);
    assert d.0 == Mantissa(0, 0);
    LexIntegerPart(s, p0, p0, d.0, d.1, false, false, 0);
    assert LexFraction(s, p0, false, false, Mantissa(0, 0), 0) ==
      LexFractionZeros(s, p0 + 1, false, false, Mantissa(0, 0), 0);
    LexFractionZerosDigits(s, p0 + 1, false, false, 0);
  }

  /** An exponent marker must be followed by a digit, or by a sign and a
      digit: "1e" and "2E+x" are rejected at the character after the marker
      or after the sign. */
  lemma ExponentNeedsDigit()
    ensures Lex("1e", 0) == BadChar('\0', 2)
    ensures Lex("2E+x", 0) == BadChar('x', 3)
  {
    assert DigitRunEnd("1e", 0) == 1;
    assert DigitRunEnd("2E+x", 0) == 1;
  }

  /** A leading '.' with no digit after it is an error; after digits it is not. */
  lemma DotWithoutDigits()
    ensures Lex(".x", 0) == BadChar('x', 1)
    ensures Lex("7.", 0) == Number(false, 7, 0, 2)
  {
    assert DigitRunEnd(".x", 0) == 0;
    assert DigitRunEnd("7.", 0) == 1;
    assert DigitsFrom("7.", 0, Mantissa(0, 0), 9) == (Mantissa(7, 1), 1);
  }

  /** A scan's outcome and the position it stopped at. */
  datatype Scan = Scan(result: Result<Float>, end: nat)

  /** A lexeme turned into parseFloat's outcome by buildFloat. */
  function Outcome(x: Lexeme): (sc: Scan)
    ensures sc.end == x.end
  {
    match x
    case NotANumber(e) => Scan(Ok(NaN), e)
    case EarlyZero(e) => Scan(Ok(Zero), e)
    case BadChar(c, e) => Scan(Err(UnexpectedChar(c)), e)
    case Number(negative, mant, exp, e) => Scan(Ok(BuildFloat(if negative then -(mant as int) else mant, exp)), e)
  }

  /** parseFloat from position p0. */
  function ScanFloat(s: string, p0: nat): (sc: Scan)
    requires p0 <= |s|
    ensures p0 <= sc.end <= |s|
  {
    Outcome(Lex(s, p0))
  }

  /** nextFloat: skip whitespace, scan, multiply by the scale, skip separators. */
  function NextFloatSpec(s: string, p0: nat, scale: Float): (sc: Scan)
    requires p0 <= |s|
    ensures p0 <= sc.end <= |s|
  {
    var sc := ScanFloat(s, WhitespaceEnd(s, p0));
    if sc.result.Err? then sc else Scan(Ok(Mul(sc.result.value, scale)), SeparatorEnd(s, sc.end))
  }

  /** A scan that starts on a digit, a '.' or a '-' always consumes text. */
  lemma LexAdvances(s: string, p: nat)
    requires p < |s| && (IsDigit(s[p]) || s[p] == '.' || s[p] == '-')
    ensures Lex(s, p).end > p
  {
    if s[p] == '.' {
      assert ZeroRunEnd(s, p) == p;
      assert DigitRunEnd(s, p) == p;
      var x := LexFraction(s, p, false, false, Mantissa(0, 0), 0);
      assert Lex(s, p) == x;
      assert x.end >= p + 1;
    } else if IsDigit(s[p]) {
      var z := ZeroRunEnd(s, p);
      if s[p] != '0' {
        assert z == p;
      }
      assert DigitRunEnd(s, z) > p;
    }
  }

  /** nextFloat at a digit, a '.' or a '-' moves the cursor forward. */
  lemma NextFloatAdvances(s: string, p: nat, scale: Float)
    requires p < |s| && (IsDigit(s[p]) || s[p] == '.' || s[p] == '-')
    ensures NextFloatSpec(s, p, scale).end > p
  {
    assert WhitespaceEnd(s, p) == p;
    LexAdvances(s, p);
  }

  class ParserHelper {
    const s: string
    var pos: nat
    var current: char

    ghost predicate Valid()
      reads this
    {
      pos <= |s| && current == At(s, pos)
    }

    /** The helper starts on an existing character (charAt throws otherwise). */
    constructor (s: string, pos: nat)
      requires pos < |s|
      ensures Valid() && this.s == s && this.pos == pos
    {
      this.s := s;
      this.pos := pos;
      this.current := s[pos];
    }

    /** Step forward unless at the end; answer the character now under the cursor. */
    method Read() returns (c: char)
      requires pos <= |s|
      modifies this`pos
      ensures pos == if old(pos) < |s| then old(pos) + 1 else old(pos)
      ensures c == At(s, pos)
    {
      if pos < |s| {
        pos := pos + 1;
      }
      if pos == |s| {
        c := '\0';
      } else {
        c := s[pos];
      }
    }

    method Advance()
      requires Valid()
      modifies this
      ensures Valid()
      ensures pos == if old(pos) < |s| then old(pos) + 1 else old(pos)
    {
      current := Read();
    }

    method SkipWhitespace()
      requires Valid()
      modifies this
      ensures Valid() && pos == WhitespaceEnd(s, old(pos))
    {
      while pos < |s|
        invariant Valid() && old(pos) <= pos
        invariant WhitespaceEnd(s, old(pos)) == WhitespaceEnd(s, pos)
        decreases |s| - pos
      {
        if IsJavaWhitespace(s[pos]) {
          Advance();
        } else {
          break;
        }
      }
    }

    method SkipNumberSeparator()
      requires Valid()
      modifies this
      ensures Valid() && pos == SeparatorEnd(s, old(pos))
    {
      while pos < |s|
        invariant Valid() && old(pos) <= pos
        invariant SeparatorEnd(s, old(pos)) == SeparatorEnd(s, pos)
        decreases |s| - pos
      {
        var c := s[pos];
        if IsNumberSeparator(c) {
          Advance();
        } else {
          return;
        }
      }
    }

    /** The loops that read past a run of '0'. */
    method SkipZeros()
      requires Valid()
      modifies this
      ensures Valid() && pos == ZeroRunEnd(s, old(pos))
    {
      while current == '0'
        invariant Valid() && old(pos) <= pos
        invariant ZeroRunEnd(s, old(pos)) == ZeroRunEnd(s, pos)
        decreases |s| - pos
      {
        current := Read();
      }
    }

    /** The loops that offer every digit of a run to a mantissa keeping at
        most `cap` digits; `dropped` counts the digits it did not keep. */
    method ReadDigits(m: Mantissa, cap: nat) returns (m': Mantissa, dropped: nat)
      requires Valid()
      modifies this
      ensures Valid() && (m', pos) == DigitsFrom(s, old(pos), m, cap)
      ensures m'.digits >= m.digits && dropped + (m'.digits - m.digits) == pos - old(pos)
    {
      m', dropped := m, 0;
      while IsDigit(current)
        invariant Valid() && old(pos) <= pos
        invariant DigitRunEnd(s, old(pos)) == DigitRunEnd(s, pos)
        invariant m' == PushRange(s, old(pos), pos, m, cap)
        invariant m'.digits >= m.digits && dropped + (m'.digits - m.digits) == pos - old(pos)
        decreases |s| - pos
      {
        if m'.digits < cap {
          m' := Mantissa(m'.value * 10 + DigitValue(current), m'.digits + 1);
        } else {
          dropped := dropped + 1;
        }
        current := Read();
      }
    }

    /** parseFloat: the sign and the integer part; the fraction, the
        exponent and buildFloat follow in the two methods below, which
        continue the same scan. */
    method ParseFloat() returns (r: Result<Float>)
      requires Valid()
      modifies this
      ensures Valid()
      ensures ScanFloat(s, old(pos)) == Scan(r, pos)
    {
      ghost var p0 := pos;
      var mant := Mantissa(0, 0);
      var mantPos := true;
      var expAdj := 0;
      if current == '-' {
        mantPos := false;
        current := Read();
      } else if current == '+' {
        current := Read();
      }
      var p1 := pos;
      assert p1 == AfterSign(s, p0);
      assert !mantPos == (At(s, p0) == '-');
      if !IsDigit(current) && current != '.' {
        LexNoNumber(s, p0);
        return Ok(NaN);
      }
      var mantRead := current != '.';
      assert mantRead == (At(s, p1) != '.');
      if current == '0' {
        SkipZeros();
        if !IsDigit(current) && current != '.' && current != 'e' && current != 'E' {
          LexEarlyZero(s, p0);
          return Ok(Zero);
        }
      }
      var z := pos;
      assert z == ZeroRunEnd(s, p1);
      // the significant integer digits (none when the cursor is not on one)
      var dropped;
      mant, dropped := ReadDigits(mant, 9);
      expAdj := expAdj + dropped;
      LexIntegerPart(s, p0, z, mant, pos, !mantPos, mantRead, expAdj);
      r := ParseFraction(mantPos, mantRead, mant, expAdj);
    }

    /** The fraction part of parseFloat, from the cursor. */
    method ParseFraction(mantPos: bool, mantRead: bool, m1: Mantissa, adj1: int) returns (r: Result<Float>)
      requires Valid()
      modifies this
      ensures Valid()
      ensures Outcome(LexFraction(s, old(pos), !mantPos, mantRead, m1, adj1)) == Scan(r, pos)
    {
      ghost var x := LexFraction(s, pos, !mantPos, mantRead, m1, adj1);
      var mant := m1;
      var expAdj := adj1;
      if current == '.' {
        current := Read();
        if !IsDigit(current) {
          if !mantRead {
            return Err(UnexpectedChar(current));
          }
        } else if current == '0' && mant.digits == 0 {
          r := ParseFractionZeros(mantPos, mantRead, m1, adj1);
          return;
        } else {
          var dropped;
          mant, dropped := ReadDigits(mant, 9);
          expAdj := expAdj - (mant.digits - m1.digits);
        }
        assert x == LexExponent(s, pos, !mantPos, mant, expAdj);
      }
      r := ParseExponent(mantPos, mant, expAdj);
    }

    /** The fraction's leading zeros when no significant digit has been read. */
    method ParseFractionZeros(mantPos: bool, mantRead: bool, m1: Mantissa, adj1: int) returns (r: Result<Float>)
      requires Valid()
      modifies this
      ensures Valid()
      ensures Outcome(LexFractionZeros(s, old(pos), !mantPos, mantRead, m1, adj1)) == Scan(r, pos)
    {
      ghost var x := LexFractionZeros(s, pos, !mantPos, mantRead, m1, adj1);
      var mant := m1;
      var q := pos;
      SkipZeros();
      var expAdj := adj1 - (pos - q);
      if IsDigit(current) {
        var dropped;
        mant, dropped := ReadDigits(mant, 9);
        expAdj := expAdj - (mant.digits - m1.digits);
      } else if !mantRead {
        return Ok(Zero);
      }
      assert x == LexExponent(s, pos, !mantPos, mant, expAdj);
      r := ParseExponent(mantPos, mant, expAdj);
    }

    /** The exponent part of parseFloat, from the cursor, and buildFloat. */
    method ParseExponent(mantPos: bool, mant: Mantissa, expAdj: int) returns (r: Result<Float>)
      requires Valid()
      modifies this
      ensures Valid()
      ensures Outcome(LexExponent(s, old(pos), !mantPos, mant, expAdj)) == Scan(r, pos)
    {
      if current == 'e' || current == 'E' {
        r := ParseExponentDigits(mantPos, mant, expAdj);
      } else {
        LexExponentAbsent(s, pos, !mantPos, mant, expAdj);
        var signed: int := if mantPos then mant.value else -(mant.value as int);
        r := Ok(BuildFloat(signed, expAdj));
      }
    }

    /** The exponent's sign and digits, from the 'e' or 'E' under the cursor. */
    method ParseExponentDigits(mantPos: bool, mant: Mantissa, expAdj: int) returns (r: Result<Float>)
      requires Valid() && (current == 'e' || current == 'E')
      modifies this
      ensures Valid()
      ensures Outcome(LexExponent(s, old(pos), !mantPos, mant, expAdj)) == Scan(r, pos)
    {
      ghost var e := pos;
      LexExponentBad(s, e, !mantPos, mant, expAdj);
      var expPos := true;
      current := Read();
      if current == '-' || current == '+' {
        expPos := current != '-';
        current := Read();
        if !IsDigit(current) {
          return Err(UnexpectedChar(current));
        }
      } else if !IsDigit(current) {
        return Err(UnexpectedChar(current));
      }
      assert expPos == (At(s, e + 1) != '-');
      assert pos == if At(s, e + 1) == '-' || At(s, e + 1) == '+' then e + 2 else e + 1;
      LexExponentDigits(s, e, !mantPos, mant, expAdj);
      ghost var ed := ExponentDigits(s, pos);
      var exp: int := ReadExponentDigits();
      assert ed == (exp, pos);
      if !expPos {
        exp := -exp;
      }
      exp := exp + expAdj;
      var signed: int := if mantPos then mant.value else -(mant.value as int);
      return Ok(BuildFloat(signed, exp));
    }

    /** The loops over the exponent's digits. */
    method ReadExponentDigits() returns (ev: nat)
      requires Valid()
      modifies this
      ensures Valid()
      ensures ExponentDigits(s, old(pos)) == (ev, pos)
    {
      SkipZeros();
      var e, ignored := ReadDigits(Mantissa(0, 0), 3);
      ev := e.value;
    }

    /** nextFloat: the next operand of a path command, scaled. */
    method NextFloat(scale: Float) returns (r: Result<Float>)
      requires Valid()
      modifies this
      ensures Valid()
      ensures NextFloatSpec(s, old(pos), scale) == Scan(r, pos)
    {
      SkipWhitespace();
      r := ParseFloat();
      if r.Err? {
        return;
      }
      r := Ok(Mul(r.value, scale));
      SkipNumberSeparator();
    }
  }
}
