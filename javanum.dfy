/** The two library number parsers the decoder calls: Float.parseFloat and
    Integer.parseInt(s, 16).  Both are partial; `None` stands for the
    NumberFormatException they throw. */
module JavaNumbers {
  import opened Base
  import opened Floats

  /** The length of the longest all-digit prefix of `s`. */
  function DigitPrefix(s: string): (n: nat)
    ensures n <= |s|
    ensures forall i :: 0 <= i < n ==> IsDigit(s[i])
    ensures n == |s| || !IsDigit(s[n])
  {
    if |s| > 0 && IsDigit(s[0]) then 1 + DigitPrefix(s[1..]) else 0
  }

  /** A signed exponent made of one or more digits and nothing else. */
  function ParseExponent(t: string): (e: Option<int>)
    ensures e.Some? ==> |t| > 0
  {
    var digits := if |t| > 0 && (t[0] == '+' || t[0] == '-') then t[1..] else t;
    if |digits| > 0 && DigitPrefix(digits) == |digits| then
      var v: int := DecimalDigits(digits);
      Some(if t[0] == '-' then -v else v)
    else None
  }

  /** The exact value of a decimal literal `digits[.digits][(e|E)[sign]digits]`
      with at least one mantissa digit. */
  function ParseDecimal(b: string): (v: Option<real>)
  {
    var i := DigitPrefix(b);
    var intDigits := b[..i];
    var rest := b[i..];
    var hasPoint := |rest| > 0 && rest[0] == '.';
    var afterPoint := if hasPoint then rest[1..] else rest;
    var j := if hasPoint then DigitPrefix(afterPoint) else 0;
    var fracDigits := afterPoint[..j];
    var tail := afterPoint[j..];
    if |intDigits| + |fracDigits| == 0 then None
    else
      var e := if |tail| == 0 then Some(0)
               else if tail[0] == 'e' || tail[0] == 'E' then ParseExponent(tail[1..])
               else None;
      if e.None? then None
      else Some(Scale10(DecimalDigits(intDigits + fracDigits) as real, e.value - |fracDigits|))
  }

  /** Float.parseFloat: surrounding characters <= ' ' are ignored; an optional
      sign precedes "NaN", "Infinity" or a decimal literal, which may carry one
      of the suffixes f, F, d, D.  The hexadecimal form is not modelled. */
  function JavaParseFloat(s: string): (r: Option<Float>)
    ensures Trim(s) == "" ==> r.None?
  {
    var t := Trim(s);
    if |t| == 0 then None
    else
      var negative := t[0] == '-';
      var u := if t[0] == '-' || t[0] == '+' then t[1..] else t;
      if u == "NaN" then Some(NaN)
      else if u == "Infinity" then Some(if negative then NegInf else PosInf)
      else
        var body := if |u| > 0 && u[|u| - 1] in "fFdD" then u[..|u| - 1] else u;
        var v := ParseDecimal(body);
        if v.None? then None else Some(ToFloat(if negative then -v.value else v.value))
  }

  predicate IsHexDigit(c: char)
  {
    IsDigit(c) || ('a' <= c <= 'f') || ('A' <= c <= 'F')
  }

  function HexDigitValue(c: char): (v: nat)
    requires IsHexDigit(c)
    ensures v < 16
  {
    if IsDigit(c) then DigitValue(c)
    else if 'a' <= c <= 'f' then (c as int) - ('a' as int) + 10
    else (c as int) - ('A' as int) + 10
  }

  /** The value of a string of hexadecimal digits, most significant first. */
  function HexValue(d: string): (v: nat)
    requires AllHex(d)
  {
    if |d| == 0 then 0 else 16 * HexValue(d[..|d| - 1]) + HexDigitValue(d[|d| - 1])
  }

  predicate AllHex(d: string)
  {
    forall i :: 0 <= i < |d| ==> IsHexDigit(d[i])
  }

  /** The digits of a number with its optional sign removed. */
  function Unsigned(s: string): (d: string)
    requires |s| > 0
  {
    if s[0] == '-' || s[0] == '+' then s[1..] else s
  }

  /** Integer.parseInt(s, 16): an optional sign and one or more hexadecimal
      digits whose value fits in an int. */
  function ParseHexInt(s: string): (r: Option<int>)
    ensures r.Some? ==> IntMin <= r.value <= IntMax
    ensures r.Some? <==> (|s| > 0 && |Unsigned(s)| > 0 && AllHex(Unsigned(s))
      && IntMin <= (if s[0] == '-' then -(HexValue(Unsigned(s)) as int) else HexValue(Unsigned(s)) as int) <= IntMax)
  {
    if |s| == 0 then None
    else
      var digits := Unsigned(s);
      if |digits| == 0 || !AllHex(digits) then None
      else
        var magnitude: int := HexValue(digits);
        var v := if s[0] == '-' then -magnitude else magnitude;
        if IntMin <= v <= IntMax then Some(v) else None
  }

  /** Three hexadecimal digits read as 0xRGB. */
  lemma {:induction false} ParseHex3(a: char, b: char, c: char)
    requires IsHexDigit(a) && IsHexDigit(b) && IsHexDigit(c)
    ensures ParseHexInt([a, b, c]) == Some(256 * HexDigitValue(a) + 16 * HexDigitValue(b) + HexDigitValue(c))
  {
    var s := [a, b, c];
    assert s[..2] == [a, b] && [a, b][..1] == [a] && [a][..0] == [];
    assert HexValue([a]) == HexDigitValue(a);
    assert HexValue([a, b]) == 16 * HexDigitValue(a) + HexDigitValue(b);
    assert HexValue(s) == 256 * HexDigitValue(a) + 16 * HexDigitValue(b) + HexDigitValue(c);
  }

  /** Six hexadecimal digits read as 0xRRGGBB. */
  lemma {:induction false} ParseHex6(a: char, b: char, c: char, d: char, e: char, f: char)
    requires IsHexDigit(a) && IsHexDigit(b) && IsHexDigit(c)
    requires IsHexDigit(d) && IsHexDigit(e) && IsHexDigit(f)
    ensures ParseHexInt([a, b, c, d, e, f]) == Some(
      0x100000 * HexDigitValue(a) + 0x10000 * HexDigitValue(b) + 0x1000 * HexDigitValue(c)
      + 0x100 * HexDigitValue(d) + 0x10 * HexDigitValue(e) + HexDigitValue(f))
  {
    var s := [a, b, c, d, e, f];
    assert s[..5] == [a, b, c, d, e];
    assert s[..5][..4] == [a, b, c, d];
    assert s[..5][..4][..3] == [a, b, c];
    assert [a, b, c][..2] == [a, b] && [a, b][..1] == [a] && [a][..0] == [];
    assert HexValue([a]) == HexDigitValue(a);
    assert HexValue([a, b]) == 16 * HexDigitValue(a) + HexDigitValue(b);
    assert HexValue([a, b, c]) == 256 * HexDigitValue(a) + 16 * HexDigitValue(b) + HexDigitValue(c);
    assert HexValue([a, b, c, d]) == 16 * HexValue([a, b, c]) + HexDigitValue(d);
    assert HexValue([a, b, c, d, e]) == 16 * HexValue([a, b, c, d]) + HexDigitValue(e);
    assert HexValue(s) == 0x100000 * HexDigitValue(a) + 0x10000 * HexDigitValue(b) + 0x1000 * HexDigitValue(c)
      + 0x100 * HexDigitValue(d) + 0x10 * HexDigitValue(e) + HexDigitValue(f);
  }
}
