/** Shared vocabulary: optional and failing results, the Java exceptions that
    escape the decoder's parsers, and the few java.lang.String operations the
    decoder relies on, stated over `seq<char>`. */
module Base {

  datatype Option<+T> = None | Some(value: T)

  /** The exceptions the decoder lets escape.  Each aborts the pass that raised it. */
  datatype Error =
    | UnexpectedChar(c: char)   // RuntimeException thrown by ParserHelper
    | NumberFormat              // NumberFormatException not caught by the caller
    | IndexOutOfBounds          // String/ArrayList index out of range
    | NullPointer               // unboxing a null Float
    | Structural                // malformed event stream from the XML tokenizer

  datatype Result<+T> = Ok(value: T) | Err(error: Error)

  /** Character.isWhitespace: the ASCII controls and the Unicode space
      separators other than the no-break spaces. */
  predicate IsJavaWhitespace(c: char)
  {
    c == ' ' || c == '\t' || c == '\n' || c == '\U{000B}' || c == '\U{000C}' || c == '\r'
    || ('\U{001C}' <= c <= '\U{001F}')
    || c == '\U{1680}' || ('\U{2000}' <= c <= '\U{2006}') || ('\U{2008}' <= c <= '\U{200A}')
    || c == '\U{2028}' || c == '\U{2029}' || c == '\U{205F}' || c == '\U{3000}'
  }

  predicate IsDigit(c: char) { '0' <= c <= '9' }

  function DigitValue(c: char): (v: nat)
    requires IsDigit(c)
    ensures v < 10
  {
    (c as int) - ('0' as int)
  }

  /** The value of a string of decimal digits, most significant first (0 for the empty string). */
  function DecimalDigits(d: seq<char>): (v: nat)
    requires forall i :: 0 <= i < |d| ==> IsDigit(d[i])
    decreases |d|
  {
    if |d| == 0 then 0 else 10 * DecimalDigits(d[..|d| - 1]) + DigitValue(d[|d| - 1])
  }

  predicate StartsWith(s: string, prefix: string)
  {
    |prefix| <= |s| && s[..|prefix|] == prefix
  }

  predicate EndsWith(s: string, suffix: string)
  {
    |suffix| <= |s| && s[|s| - |suffix|..] == suffix
  }

  /** String.indexOf(char): the first index holding `c`, or -1. */
  function IndexOf(s: string, c: char): (k: int)
    ensures -1 <= k < |s|
    ensures k == -1 <==> c !in s
    ensures k >= 0 ==> s[k] == c && c !in s[..k]
  {
    if |s| == 0 then -1
    else if s[0] == c then 0
    else
      var k := IndexOf(s[1..], c);
      assert s[1..][..if k >= 0 then k else 0] == s[1..if k >= 0 then k + 1 else 1];
      if k == -1 then -1 else k + 1
  }

  /** String.trim: drop every leading and trailing character <= ' '. */
  function Trim(s: string): (t: string)
    ensures |t| <= |s|
    ensures |t| > 0 ==> t[0] > ' ' && t[|t| - 1] > ' '
    ensures forall i :: 0 <= i < |s| && s[i] > ' ' ==> |t| > 0
  {
    TrimEnd(TrimStart(s))
  }

  function TrimStart(s: string): (t: string)
    ensures |t| <= |s| && t == s[|s| - |t|..]
    ensures |t| > 0 ==> t[0] > ' '
    ensures forall i :: 0 <= i < |s| - |t| ==> s[i] <= ' '
  {
    if |s| > 0 && s[0] <= ' ' then TrimStart(s[1..]) else s
  }

  function TrimEnd(s: string): (t: string)
    ensures |t| <= |s| && t == s[..|t|]
    ensures |t| > 0 ==> t[|t| - 1] > ' '
    ensures forall i :: |t| <= i < |s| ==> s[i] <= ' '
  {
    if |s| > 0 && s[|s| - 1] <= ' ' then TrimEnd(s[..|s| - 1]) else s
  }

  /** Every character is one String.trim removes. */
  predicate IsBlank(s: string)
  {
    |s| == 0 || (s[0] <= ' ' && IsBlank(s[1..]))
  }

  lemma {:induction false} TrimStartEmptyIffBlank(s: string)
    ensures |TrimStart(s)| == 0 <==> IsBlank(s)
    decreases |s|
  {
    if |s| > 0 && s[0] <= ' ' {
      TrimStartEmptyIffBlank(s[1..]);
    }
  }

  /** `s.trim().length() > 0` exactly when s is not blank. */
  lemma TrimEmptyIffBlank(s: string)
    ensures |Trim(s)| == 0 <==> IsBlank(s)
  {
    TrimStartEmptyIffBlank(s);
    var t := TrimStart(s);
    if |t| > 0 {
      assert t[0] > ' ';
      assert |TrimEnd(t)| > 0;
    }
  }

  /** Character.toLowerCase restricted to ASCII letters. */
  function LowerAscii(c: char): char
  {
    if 'A' <= c <= 'Z' then (c as int + 32) as char else c
  }

  /** String.equalsIgnoreCase, for ASCII text. */
  predicate EqualsIgnoreCase(a: string, b: string)
  {
    |a| == |b| && forall i :: 0 <= i < |a| ==> LowerAscii(a[i]) == LowerAscii(b[i])
  }

  /** The pieces of `s` between occurrences of `sep`, every piece kept. */
  function SplitAll(s: string, sep: char): (parts: seq<string>)
    ensures |parts| >= 1
    ensures forall k :: 0 <= k < |parts| ==> sep !in parts[k]
    ensures sep !in s ==> parts == [s]
  {
    if |s| == 0 then [""]
    else
      var rest := SplitAll(s[..|s| - 1], sep);
      assert s[..|s| - 1] + [s[|s| - 1]] == s;
      assert sep !in s ==> sep !in s[..|s| - 1];
      if s[|s| - 1] == sep then rest + [""]
      else rest[..|rest| - 1] + [rest[|rest| - 1] + [s[|s| - 1]]]
  }

  /** String.split with a one-character pattern: the input itself when the
      separator does not occur, otherwise every piece with the trailing empty
      pieces removed. */
  function JavaSplit(s: string, sep: char): (parts: seq<string>)
    ensures forall k :: 0 <= k < |parts| ==> sep !in parts[k]
    ensures sep in s ==> |parts| == 0 || parts[|parts| - 1] != ""
  {
    if sep !in s then [s] else DropTrailingEmpty(SplitAll(s, sep))
  }

  function DropTrailingEmpty(parts: seq<string>): (r: seq<string>)
    ensures |r| <= |parts| && r == parts[..|r|]
    ensures |r| == 0 || r[|r| - 1] != ""
    ensures forall k :: |r| <= k < |parts| ==> parts[k] == ""
  {
    if |parts| > 0 && parts[|parts| - 1] == "" then DropTrailingEmpty(parts[..|parts| - 1]) else parts
  }
}
