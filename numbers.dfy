/** parseNumbers: the splitter that turns the operand text of a transform
    item or of a polygon's `points` into a list of scaled floats.
    Float.parseFloat is the parameter `parse` (None for the exception it
    throws); JavaNumbers.JavaParseFloat gives it its meaning for decimal text. */
module Numbers {
  import opened Base
  import opened Floats

  /** The characters that end the list: the path command letters the
      splitter knows and ')'. */
  predicate IsListTerminator(c: char)
  {
    c == 'M' || c == 'm' || c == 'Z' || c == 'z' || c == 'L' || c == 'l' ||
    c == 'H' || c == 'h' || c == 'V' || c == 'v' || c == 'C' || c == 'c' ||
    c == 'S' || c == 's' || c == 'Q' || c == 'q' || c == 'T' || c == 't' ||
    c == 'a' || c == 'A' || c == ')'
  }

  /** The characters between two numbers. */
  predicate IsListSeparator(c: char)
  {
    c == '\n' || c == '\t' || c == ' ' || c == ','
  }

  /** The fragment left after the loop: parsed when it is not empty, and
      silently dropped when Float.parseFloat rejects it. */
  function TrailingNumber(parse: string -> Option<Float>, t: string, scale: Float): (r: seq<Float>)
    ensures |r| <= 1
    ensures |r| == 1 <==> |t| > 0 && parse(t).Some?
  {
    if |t| > 0 then
      match parse(t)
      case Some(f) => [Mul(f, scale)]
      case None => []
    else []
  }

  /** The loop of parseNumbers from index i, with the current fragment
      starting at p, `skip` set when the previous character ended a number,
      and the numbers found so far in `acc`.  A fragment ended by a
      terminator or a separator is parsed when it is not blank, and a
      rejected one is an error; a separator that ends a number also makes
      the loop pass over the character after it unexamined. */
  function NumbersFrom(parse: string -> Option<Float>, s: string, scale: Float, i: nat, p: nat, skip: bool, acc: seq<Float>): (r: Result<seq<Float>>)
    requires p <= i && p <= |s|
    ensures r.Ok? ==> |acc| <= |r.value|
    ensures r.Err? ==> r.error == NumberFormat
    decreases |s| - i
  {
    if i >= |s| then Ok(acc + TrailingNumber(parse, s[p..], scale))
    else if skip then NumbersFrom(parse, s, scale, i + 1, p, false, acc)
    else if IsListTerminator(s[i]) then
      var str := s[p..i];
      if !IsBlank(str) then
        match parse(str)
        case None => Err(NumberFormat)
        case Some(f) => Ok(acc + [Mul(f, scale)])
      else Ok(acc)
    else if IsListSeparator(s[i]) then
      var str := s[p..i];
      if !IsBlank(str) then
        match parse(str)
        case None => Err(NumberFormat)
        case Some(f) => NumbersFrom(parse, s, scale, i + 1, i + 1, true, acc + [Mul(f, scale)])
      else NumbersFrom(parse, s, scale, i + 1, p + 1, false, acc)
    else NumbersFrom(parse, s, scale, i + 1, p, false, acc)
  }

  /** parseNumbers(s): the scan starts at index 1, so the first character
      never ends a number. */
  function ParseNumbersSpec(parse: string -> Option<Float>, s: string, scale: Float): Result<seq<Float>>
  {
    NumbersFrom(parse, s, scale, 1, 0, false, [])
  }

  /** parseNumbers. */
  method ParseNumbers(parse: string -> Option<Float>, s: string, scale: Float) returns (r: Result<seq<Float>>)
    ensures r == ParseNumbersSpec(parse, s, scale)
  {
    var n := |s|;
    var p := 0;
    var numbers: seq<Float> := [];
    var skipChar := false;
    var i := 1;
    while i < n
      invariant p <= i && p <= n
      invariant NumbersFrom(parse, s, scale, i, p, skipChar, numbers) == ParseNumbersSpec(parse, s, scale)
      decreases n - i
    {
      if skipChar {
        skipChar := false;
        i := i + 1;
        continue;
      }
      var c := s[i];
      if IsListTerminator(c) {
        var str := s[p..i];
        if !IsBlank(str) {
          var f := parse(str);
          if f.None? {
            return Err(NumberFormat);
          }
          numbers := numbers + [Mul(f.value, scale)];
        }
        return Ok(numbers);
      } else if IsListSeparator(c) {
        var str := s[p..i];
        if !IsBlank(str) {
          var f := parse(str);
          if f.None? {
            return Err(NumberFormat);
          }
          numbers := numbers + [Mul(f.value, scale)];
          p := i + 1;
          skipChar := true;
        } else {
          p := p + 1;
        }
      }
      i := i + 1;
    }
    var last := s[p..];
    assert NumbersFrom(parse, s, scale, i, p, skipChar, numbers) == Ok(numbers + TrailingNumber(parse, last, scale));
    if |last| > 0 {
      var f := parse(last);
      if f.Some? {
        numbers := numbers + [Mul(f.value, scale)];
      } else {
        assert numbers + TrailingNumber(parse, last, scale) == numbers;
      }
    } else {
      assert numbers + TrailingNumber(parse, last, scale) == numbers;
    }
    return Ok(numbers);
  }

  /** x is the scaled value of some fragment of s that Float.parseFloat accepts. */
  predicate FromFragment(parse: string -> Option<Float>, s: string, scale: Float, x: Float)
  {
    exists a: nat, b: nat :: a <= b <= |s| && parse(s[a..b]).Some? && x == Mul(parse(s[a..b]).value, scale)
  }

  predicate AllFromFragments(parse: string -> Option<Float>, s: string, scale: Float, xs: seq<Float>)
  {
    forall k :: 0 <= k < |xs| ==> FromFragment(parse, s, scale, xs[k])
  }

  lemma AppendFragment(parse: string -> Option<Float>, s: string, scale: Float, acc: seq<Float>, a: nat, b: nat)
    requires AllFromFragments(parse, s, scale, acc)
    requires a <= b <= |s| && parse(s[a..b]).Some?
    ensures AllFromFragments(parse, s, scale, acc + [Mul(parse(s[a..b]).value, scale)])
  {
    var acc' := acc + [Mul(parse(s[a..b]).value, scale)];
    assert FromFragment(parse, s, scale, acc'[|acc|]);
    forall k | 0 <= k < |acc'|
      ensures FromFragment(parse, s, scale, acc'[k])
    {
      if k < |acc| {
        assert acc'[k] == acc[k];
      }
    }
  }

  /** The fragment left after the loop keeps the list sound. */
  lemma TrailingSound(parse: string -> Option<Float>, s: string, scale: Float, p: nat, acc: seq<Float>)
    requires p <= |s|
    requires AllFromFragments(parse, s, scale, acc)
    ensures AllFromFragments(parse, s, scale, acc + TrailingNumber(parse, s[p..], scale))
  {
    var t := s[p..];
    if |t| > 0 && parse(t).Some? {
      assert s[p..|s|] == t;
      assert TrailingNumber(parse, t, scale) == [Mul(parse(t).value, scale)];
      AppendFragment(parse, s, scale, acc, p, |s|);
    } else {
      assert acc + TrailingNumber(parse, t, scale) == acc;
    }
  }

  lemma {:induction false} NumbersFromSound(parse: string -> Option<Float>, s: string, scale: Float, i: nat, p: nat, skip: bool, acc: seq<Float>)
    requires p <= i && p <= |s|
    requires AllFromFragments(parse, s, scale, acc)
    ensures NumbersFrom(parse, s, scale, i, p, skip, acc).Ok? ==> AllFromFragments(parse, s, scale, NumbersFrom(parse, s, scale, i, p, skip, acc).value)
    decreases |s| - i
  {
    var r := NumbersFrom(parse, s, scale, i, p, skip, acc);
    if i >= |s| {
      TrailingSound(parse, s, scale, p, acc);
    } else if skip {
      assert r == NumbersFrom(parse, s, scale, i + 1, p, false, acc);
      NumbersFromSound(parse, s, scale, i + 1, p, false, acc);
    } else if IsListTerminator(s[i]) || IsListSeparator(s[i]) {
      var str := s[p..i];
      if !IsBlank(str) {
        if parse(str).Some? {
          AppendFragment(parse, s, scale, acc, p, i);
          var acc' := acc + [Mul(parse(str).value, scale)];
          if IsListTerminator(s[i]) {
            assert r == Ok(acc');
          } else {
            assert r == NumbersFrom(parse, s, scale, i + 1, i + 1, true, acc');
            NumbersFromSound(parse, s, scale, i + 1, i + 1, true, acc');
          }
        }
      } else if IsListTerminator(s[i]) {
        assert r == Ok(acc);
      } else {
        assert r == NumbersFrom(parse, s, scale, i + 1, p + 1, false, acc);
        NumbersFromSound(parse, s, scale, i + 1, p + 1, false, acc);
      }
    } else {
      assert r == NumbersFrom(parse, s, scale, i + 1, p, false, acc);
      NumbersFromSound(parse, s, scale, i + 1, p, false, acc);
    }
  }

  /** Soundness of the splitter: nothing enters the list except scaled
      values of fragments that Float.parseFloat accepts. */
  lemma ParseNumbersSound(parse: string -> Option<Float>, s: string, scale: Float)
    ensures ParseNumbersSpec(parse, s, scale).Ok? ==> AllFromFragments(parse, s, scale, ParseNumbersSpec(parse, s, scale).value)
  {
    NumbersFromSound(parse, s, scale, 1, 0, false, []);
  }

  /** The loop over a prefix s of the text that ends in a terminator the
      loop examines (the character before it is no separator, so it is not
      skipped) never looks past that terminator. */
  lemma {:induction false} PrefixScanAgrees(parse: string -> Option<Float>, s: string, t: string, scale: Float,
                                            i: nat, p: nat, skip: bool, acc: seq<Float>)
    requires |s| >= 2 && IsListTerminator(s[|s| - 1]) && !IsListSeparator(s[|s| - 2])
    requires p <= i < |s| && (i == |s| - 1 ==> !skip)
    ensures NumbersFrom(parse, s + t, scale, i, p, skip, acc) == NumbersFrom(parse, s, scale, i, p, skip, acc)
    decreases |s| - i
  {
    var u := s + t;
    assert u[i] == s[i] && u[p..i] == s[p..i];
    if skip {
      PrefixScanAgrees(parse, s, t, scale, i + 1, p, false, acc);
    } else if IsListTerminator(s[i]) {
    } else if IsListSeparator(s[i]) {
      if !IsBlank(s[p..i]) {
        if parse(s[p..i]).Some? {
          PrefixScanAgrees(parse, s, t, scale, i + 1, i + 1, true, acc + [Mul(parse(s[p..i]).value, scale)]);
        }
      } else {
        PrefixScanAgrees(parse, s, t, scale, i + 1, p + 1, false, acc);
      }
    } else {
      PrefixScanAgrees(parse, s, t, scale, i + 1, p, false, acc);
    }
  }

  /** The first terminator the loop examines ends the list: whatever
      follows it in the text changes nothing. */
  lemma AfterTerminatorIgnored(parse: string -> Option<Float>, s: string, t: string, scale: Float)
    requires |s| >= 2 && IsListTerminator(s[|s| - 1]) && !IsListSeparator(s[|s| - 2])
    ensures ParseNumbersSpec(parse, s + t, scale) == ParseNumbersSpec(parse, s, scale)
  {
    PrefixScanAgrees(parse, s, t, scale, 1, 0, false, []);
  }

  /** A fragment that holds neither a separator nor a terminator and is
      not blank. */
  predicate PlainToken(w: string)
  {
    !IsBlank(w) && forall k :: 0 <= k < |w| ==> !IsListSeparator(w[k]) && !IsListTerminator(w[k])
  }

  /** The fragments ws joined by the separator character sep. */
  function JoinWith(ws: seq<string>, sep: char): (s: string)
    requires |ws| > 0
    ensures |ws[0]| <= |s| && s[..|ws[0]|] == ws[0]
    ensures |ws| == 1 ==> s == ws[0]
    decreases |ws|
  {
    if |ws| == 1 then ws[0] else ws[0] + [sep] + JoinWith(ws[1..], sep)
  }

  /** The list parseNumbers promises for separated fragments: each fragment
      but the last must parse and contributes its scaled value in order; the
      last contributes its value when it parses and nothing otherwise. */
  function NumbersOfTokens(parse: string -> Option<Float>, ws: seq<string>, scale: Float): (r: Result<seq<Float>>)
    requires |ws| > 0
    decreases |ws|
  {
    if |ws| == 1 then Ok(TrailingNumber(parse, ws[0], scale))
    else
      match parse(ws[0])
      case None => Err(NumberFormat)
      case Some(f) =>
        match NumbersOfTokens(parse, ws[1..], scale)
        case Err(e) => Err(e)
        case Ok(v) => Ok([Mul(f, scale)] + v)
  }

  /** r with the values acc put in front of its list. */
  function Prefixed(acc: seq<Float>, r: Result<seq<Float>>): Result<seq<Float>>
  {
    match r
    case Ok(v) => Ok(acc + v)
    case Err(e) => Err(e)
  }

  /** Inside a fragment the loop only moves on. */
  lemma {:induction false} ScanToken(parse: string -> Option<Float>, s: string, scale: Float, i: nat, j: nat, p: nat, acc: seq<Float>)
    requires p < i <= j <= |s|
    requires forall k :: i <= k < j ==> !IsListSeparator(s[k]) && !IsListTerminator(s[k])
    ensures NumbersFrom(parse, s, scale, i, p, false, acc) == NumbersFrom(parse, s, scale, j, p, false, acc)
    decreases j - i
  {
    if i < j {
      ScanToken(parse, s, scale, i + 1, j, p, acc);
    }
  }

  /** Where the first fragment of a joined list ends, and what follows it. */
  lemma JoinShape(s: string, q: nat, ws: seq<string>, sep: char)
    requires |ws| > 0 && IsListSeparator(sep) && forall k :: 0 <= k < |ws| ==> PlainToken(ws[k])
    requires q < |s| && s[q..] == JoinWith(ws, sep)
    ensures q + |ws[0]| <= |s| && s[q..q + |ws[0]|] == ws[0]
    ensures forall k :: q + 1 <= k < q + |ws[0]| ==> !IsListSeparator(s[k]) && !IsListTerminator(s[k])
    ensures |ws| == 1 ==> q + |ws[0]| == |s|
    ensures |ws| > 1 ==>
      q + |ws[0]| + 1 < |s| && s[q + |ws[0]|] == sep && s[q + |ws[0]| + 1..] == JoinWith(ws[1..], sep)
  {
    var w := ws[0];
    assert PlainToken(w);
    var e := q + |w|;
    assert s[q..e] == s[q..][..|w|];
    forall k | q + 1 <= k < e
      ensures !IsListSeparator(s[k]) && !IsListTerminator(s[k])
    {
      assert s[k] == s[q..e][k - q];
    }
    if |ws| > 1 {
      var rest := JoinWith(ws[1..], sep);
      assert s[q..] == w + [sep] + rest;
      assert s[e] == s[q..][|w|];
      assert PlainToken(ws[1]);
      assert s[e + 1..] == s[q..][|w| + 1..];
    }
  }

  /** The tail of a list of plain fragments is one too. */
  lemma TailPlain(ws: seq<string>)
    requires |ws| > 1 && forall k :: 0 <= k < |ws| ==> PlainToken(ws[k])
    ensures forall k :: 0 <= k < |ws[1..]| ==> PlainToken(ws[1..][k])
  {
    forall k | 0 <= k < |ws[1..]|
      ensures PlainToken(ws[1..][k])
    {
      assert ws[1..][k] == ws[k + 1];
    }
  }

  /** One fragment ended by a separator: the loop throws when the parser
      rejects it, and otherwise appends its value, skips the character
      after the separator and goes on. */
  lemma SeparatorStep(parse: string -> Option<Float>, s: string, scale: Float, q: nat, e: nat, acc: seq<Float>)
    requires q < e && e + 1 < |s| && IsListSeparator(s[e]) && !IsBlank(s[q..e])
    ensures parse(s[q..e]).None? ==> NumbersFrom(parse, s, scale, e, q, false, acc) == Err(NumberFormat)
    ensures parse(s[q..e]).Some? ==>
      NumbersFrom(parse, s, scale, e, q, false, acc) ==
      NumbersFrom(parse, s, scale, e + 2, e + 1, false, acc + [Mul(parse(s[q..e]).value, scale)])
  {
  }

  lemma {:induction false} TokensFrom(parse: string -> Option<Float>, s: string, scale: Float, q: nat,
                                      ws: seq<string>, sep: char, acc: seq<Float>)
    requires |ws| > 0 && IsListSeparator(sep) && forall k :: 0 <= k < |ws| ==> PlainToken(ws[k])
    requires q < |s| && s[q..] == JoinWith(ws, sep)
    ensures NumbersFrom(parse, s, scale, q + 1, q, false, acc) == Prefixed(acc, NumbersOfTokens(parse, ws, scale))
    decreases |ws|
  {
    var w := ws[0];
    var e := q + |w|;
    JoinShape(s, q, ws, sep);
    assert PlainToken(w);
    ScanToken(parse, s, scale, q + 1, e, q, acc);
    if |ws| > 1 {
      SeparatorStep(parse, s, scale, q, e, acc);
      if parse(w).Some? {
        var x := Mul(parse(w).value, scale);
        TailPlain(ws);
        TokensFrom(parse, s, scale, e + 1, ws[1..], sep, acc + [x]);
        PrefixedAssoc(acc, x, NumbersOfTokens(parse, ws[1..], scale));
      }
    }
  }

  lemma PrefixedAssoc(acc: seq<Float>, x: Float, r: Result<seq<Float>>)
    ensures Prefixed(acc + [x], r) == Prefixed(acc, Prefixed([x], r))
  {
    if r.Ok? {
      assert acc + [x] + r.value == acc + ([x] + r.value);
    }
  }

  /** Completeness and order: on fragments joined by single separators,
      parseNumbers yields the scaled value of every fragment in order,
      throws when an inner fragment is rejected, and drops a rejected last
      fragment. */
  lemma SeparatedTokens(parse: string -> Option<Float>, ws: seq<string>, sep: char, scale: Float)
    requires |ws| > 0 && IsListSeparator(sep) && forall k :: 0 <= k < |ws| ==> PlainToken(ws[k])
    ensures ParseNumbersSpec(parse, JoinWith(ws, sep), scale) == NumbersOfTokens(parse, ws, scale)
  {
    var s := JoinWith(ws, sep);
    assert PlainToken(ws[0]);
    assert s[0..] == s;
    TokensFrom(parse, s, scale, 0, ws, sep, []);
    if NumbersOfTokens(parse, ws, scale).Ok? {
      assert [] + NumbersOfTokens(parse, ws, scale).value == NumbersOfTokens(parse, ws, scale).value;
    }
  }

  /** A separator that ends a number makes the loop pass over the next
      character, so a second comma is taken into the following fragment:
      "1,,2" keeps only the 1, because ",2" is rejected and dropped. */
  lemma DoubleSeparatorDropsRest(parse: string -> Option<Float>, scale: Float)
    requires parse("1").Some? && parse(",2").None?
    ensures ParseNumbersSpec(parse, "1,,2", scale) == Ok([Mul(parse("1").value, scale)])
  {
    var s := "1,,2";
    var x := Mul(parse("1").value, scale);
    assert s[0..1] == "1" && !IsBlank("1");
    assert IsListSeparator(s[1]) && !IsListTerminator(s[1]);
    assert s[2..] == ",2";
    assert TrailingNumber(parse, ",2", scale) == [];
    assert [] + [x] == [x];
    calc {
      NumbersFrom(parse, s, scale, 1, 0, false, []);
      NumbersFrom(parse, s, scale, 2, 2, true, [x]);
      NumbersFrom(parse, s, scale, 3, 2, false, [x]);
      NumbersFrom(parse, s, scale, 4, 2, false, [x]);
      Ok([x] + []);
    }
    assert [x] + [] == [x];
  }

  /** ')' ends the list: the fragment before it is the last number and the
      rest of the text is ignored. */
  lemma StopsAtTerminator(parse: string -> Option<Float>, scale: Float)
    requires parse("3").Some? && parse("4").Some?
    ensures ParseNumbersSpec(parse, "3 4)5", scale) == Ok([Mul(parse("3").value, scale), Mul(parse("4").value, scale)])
  {
    var s := "3 4)5";
    var x := Mul(parse("3").value, scale);
    var y := Mul(parse("4").value, scale);
    assert s[0..1] == "3" && !IsBlank("3");
    assert s[2..3] == "4" && !IsBlank("4");
    assert IsListSeparator(s[1]) && !IsListTerminator(s[1]);
    assert IsListTerminator(s[3]);
    assert [] + [x] == [x];
    assert [] + [x] == [x];
    assert [x] + [y] == [x, y];
    calc {
      NumbersFrom(parse, s, scale, 1, 0, false, []);
      NumbersFrom(parse, s, scale, 2, 2, true, [x]);
      NumbersFrom(parse, s, scale, 3, 2, false, [x]);
      Ok([x] + [y]);
    }
  }

  /** A trailing fragment that Float.parseFloat rejects is dropped without
      an error, while a rejected fragment ended by a separator is an error. */
  lemma TrailingFragmentDropped(parse: string -> Option<Float>, scale: Float)
    requires parse("1").Some? && parse("x").None?
    ensures ParseNumbersSpec(parse, "1 x", scale) == Ok([Mul(parse("1").value, scale)])
    ensures ParseNumbersSpec(parse, "x 1", scale) == Err(NumberFormat)
  {
    var x := Mul(parse("1").value, scale);
    assert "1 x"[0..1] == "1" && !IsBlank("1");
    assert IsListSeparator("1 x"[1]) && !IsListTerminator("1 x"[1]);
    assert "1 x"[2..] == "x";
    assert TrailingNumber(parse, "x", scale) == [];
    assert [] + [x] == [x];
    calc {
      NumbersFrom(parse, "1 x", scale, 1, 0, false, []);
      NumbersFrom(parse, "1 x", scale, 2, 2, true, [x]);
      NumbersFrom(parse, "1 x", scale, 3, 2, false, [x]);
      Ok([x] + []);
    }
    assert [x] + [] == [x];
    assert "x 1"[0..1] == "x" && !IsBlank("x");
    assert IsListSeparator("x 1"[1]) && !IsListTerminator("x 1"[1]);
  }
}
