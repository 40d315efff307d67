/** The `transform` attribute (section 7.6 of SVG 1.1): parseTransform peels
    items off the attribute text at each ')' and pre-concatenates every item
    it recognises onto a running android.graphics.Matrix.

    A Matrix is kept as the sequence of factors pre-concatenated onto the
    identity, in order: the matrix it stands for is the product of the
    factors from left to right.  Rotation and skew stay symbolic, since
    their trigonometry is not part of this model. */
module Transform {
  import opened Base
  import opened Floats
  import opened Numbers

  /** One factor.  Affine holds a full 3x3 matrix by the Android names of
      its six free entries; SkewX(a) is preSkew(tan a, 0), SkewY(a) is
      preSkew(0, tan a) and Rotate(a) is preRotate(a) in degrees. */
  datatype Xform =
    | Affine(scaleX: Float, skewX: Float, transX: Float, skewY: Float, scaleY: Float, transY: Float)
    | Translate(tx: Float, ty: Float)
    | Scale(sx: Float, sy: Float)
    | SkewX(angle: Float)
    | SkewY(angle: Float)
    | Rotate(degrees: Float)

  /** A Matrix: its factors, the identity being []. */
  type Matrix = seq<Xform>

  /** java.util.regex `\s`: space, tab, newline, vertical tab, form feed, return. */
  predicate IsRegexSpace(c: char)
  {
    c == ' ' || c == '\t' || c == '\n' || c == '\U{000B}' || c == '\U{000C}' || c == '\r'
  }

  /** The end of the run of white space and commas starting at i:
      replaceFirst("[\\s,]*", "") on s[i..] leaves s[DelimEnd(s, i)..]. */
  function DelimEnd(s: string, i: nat): (j: nat)
    requires i <= |s|
    ensures i <= j <= |s|
    ensures forall k :: i <= k < j ==> IsRegexSpace(s[k]) || s[k] == ','
    ensures j < |s| ==> !IsRegexSpace(s[j]) && s[j] != ','
    decreases |s| - i
  {
    if i < |s| && (IsRegexSpace(s[i]) || s[i] == ',') then DelimEnd(s, i + 1) else i
  }

  /** The operands of an item: the text after its name and '(' split by
      parseNumbers. */
  function Operands(parse: string -> Option<Float>, s: string, name: string, scale: Float): Result<seq<Float>>
    requires StartsWith(s, name)
  {
    ParseNumbersSpec(parse, s[|name|..], scale)
  }

  /** parseTransformItem: the factors an item pre-concatenates onto m.  An
      item with too few operands, a matrix(...) without exactly six, and an
      unknown name leave m as it is; a rejected operand is an error. */
  function TransformItem(parse: string -> Option<Float>, s: string, scale: Float, m: Matrix): (r: Result<Matrix>)
    ensures r.Ok? ==> |m| <= |r.value| <= |m| + 3 && r.value[..|m|] == m
    ensures r.Err? ==> r.error == NumberFormat
  {
    if StartsWith(s, "matrix(") then
      match Operands(parse, s, "matrix(", scale)
      case Err(e) => Err(e)
      case Ok(n) =>
        if |n| == 6 then Ok(m + [Affine(n[0], n[2], n[4], n[1], n[3], n[5])]) else Ok(m)
    else if StartsWith(s, "translate(") then
      match Operands(parse, s, "translate(", scale)
      case Err(e) => Err(e)
      case Ok(n) =>
        if |n| > 0 then Ok(m + [Translate(n[0], if |n| > 1 then n[1] else Zero)]) else Ok(m)
    else if StartsWith(s, "scale(") then
      match Operands(parse, s, "scale(", scale)
      case Err(e) => Err(e)
      case Ok(n) =>
        if |n| > 0 then Ok(m + [Scale(n[0], if |n| > 1 then n[1] else n[0])]) else Ok(m)
    else if StartsWith(s, "skewX(") then
      match Operands(parse, s, "skewX(", scale)
      case Err(e) => Err(e)
      case Ok(n) => if |n| > 0 then Ok(m + [SkewX(n[0])]) else Ok(m)
    else if StartsWith(s, "skewY(") then
      match Operands(parse, s, "skewY(", scale)
      case Err(e) => Err(e)
      case Ok(n) => if |n| > 0 then Ok(m + [SkewY(n[0])]) else Ok(m)
    else if StartsWith(s, "rotate(") then
      match Operands(parse, s, "rotate(", scale)
      case Err(e) => Err(e)
      case Ok(n) =>
        if |n| > 0 then
          var cx := if |n| > 2 then n[1] else Zero;
          var cy := if |n| > 2 then n[2] else Zero;
          Ok(m + [Translate(cx, cy), Rotate(n[0]), Translate(Neg(cx), Neg(cy))])
        else Ok(m)
    else Ok(m)
  }

  /** The item names parseTransformItem recognises. */
  predicate IsKnownItem(s: string)
  {
    StartsWith(s, "matrix(") || StartsWith(s, "translate(") || StartsWith(s, "scale(")
    || StartsWith(s, "skewX(") || StartsWith(s, "skewY(") || StartsWith(s, "rotate(")
  }

  /** The rest of the attribute after the first ')', when there is one past
      index 0 with text after it; otherwise the loop ends. */
  function NextItem(s: string): (t: Option<string>)
    ensures t.Some? ==> |t.value| < |s|
  {
    var k := IndexOf(s, ')');
    if k > 0 && |s| > k + 1 then Some(s[DelimEnd(s, k + 1)..]) else None
  }

  /** The loop of parseTransform from the remaining text s onto matrix m. */
  function TransformFrom(parse: string -> Option<Float>, s: string, scale: Float, m: Matrix): (r: Result<Matrix>)
    ensures r.Ok? ==> |m| <= |r.value| && r.value[..|m|] == m
    ensures r.Err? ==> r.error == NumberFormat
    decreases |s|
  {
    match TransformItem(parse, s, scale, m)
    case Err(e) => Err(e)
    case Ok(m1) =>
      match NextItem(s)
      case None => Ok(m1)
      case Some(t) =>
        var r := TransformFrom(parse, t, scale, m1);
        assert r.Ok? ==> r.value[..|m|] == r.value[..|m1|][..|m|];
        r
  }

  /** parseTransform. */
  method ParseTransform(parse: string -> Option<Float>, s0: string, scale: Float) returns (r: Result<Matrix>)
    ensures r == TransformFrom(parse, s0, scale, [])
  {
    var matrix: Matrix := [];
    var s := s0;
    while true
      invariant TransformFrom(parse, s, scale, matrix) == TransformFrom(parse, s0, scale, [])
      decreases |s|
    {
      var item := TransformItem(parse, s, scale, matrix);
      if item.Err? {
        return Err(item.error);
      }
      matrix := item.value;
      var rparen := IndexOf(s, ')');
      if rparen > 0 && |s| > rparen + 1 {
        s := s[DelimEnd(s, rparen + 1)..];
      } else {
        return Ok(matrix);
      }
    }
  }

  /** The loop goes on with the text after the item's ')'. */
  lemma NextStep(parse: string -> Option<Float>, s: string, scale: Float, m: Matrix, m1: Matrix, t: string)
    requires TransformItem(parse, s, scale, m) == Ok(m1) && NextItem(s) == Some(t)
    ensures TransformFrom(parse, s, scale, m) == TransformFrom(parse, t, scale, m1)
  {
  }

  /** The loop ends after an item with no ')' past index 0 or nothing after it. */
  lemma LastItem(parse: string -> Option<Float>, s: string, scale: Float, m: Matrix, m1: Matrix)
    requires TransformItem(parse, s, scale, m) == Ok(m1) && NextItem(s) == None
    ensures TransformFrom(parse, s, scale, m) == Ok(m1)
  {
  }

  /** The item texts the loop visits in turn: the whole attribute, then
      after each item the text past its first ')' and the white space and
      commas after that. */
  function ItemTexts(s: string): (r: seq<string>)
    ensures |r| >= 1 && r[0] == s
    ensures forall k :: 0 < k < |r| ==> |r[k]| < |r[k - 1]|
    ensures |r| == 1 <==> NextItem(s).None?
    decreases |s|
  {
    match NextItem(s)
    case None => [s]
    case Some(t) => [s] + ItemTexts(t)
  }

  /** parseTransformItem applied to each item text in order, stopping at
      the first error. */
  function ApplyItems(parse: string -> Option<Float>, items: seq<string>, scale: Float, m: Matrix): (r: Result<Matrix>)
    ensures |items| == 0 ==> r == Ok(m)
    decreases |items|
  {
    if |items| == 0 then Ok(m)
    else
      match TransformItem(parse, items[0], scale, m)
      case Err(e) => Err(e)
      case Ok(m1) => ApplyItems(parse, items[1..], scale, m1)
  }

  /** parseTransform folds parseTransformItem over the ')'-terminated item
      texts, left to right. */
  lemma {:induction false} TransformIsFold(parse: string -> Option<Float>, s: string, scale: Float, m: Matrix)
    ensures TransformFrom(parse, s, scale, m) == ApplyItems(parse, ItemTexts(s), scale, m)
    decreases |s|
  {
    match TransformItem(parse, s, scale, m)
    case Err(e) =>
    case Ok(m1) =>
      match NextItem(s)
      case None =>
        assert ItemTexts(s)[1..] == [];
      case Some(t) =>
        TransformIsFold(parse, t, scale, m1);
        assert ItemTexts(s)[1..] == ItemTexts(t);
  }

  /** An item's operands end at its ')': text after an item name, its
      operand text a (not ending in a separator) and ')' does not change
      them. */
  lemma OperandsIgnoreRest(parse: string -> Option<Float>, name: string, a: string, t: string, scale: Float)
    requires |a| >= 1 && !IsListSeparator(a[|a| - 1])
    ensures StartsWith(name + a + ")" + t, name) && StartsWith(name + a + ")", name)
    ensures Operands(parse, name + a + ")" + t, name, scale) == Operands(parse, name + a + ")", name, scale)
  {
    var w := name + a + ")";
    assert w[..|name|] == name && (w + t)[..|name|] == name;
    var u := a + ")";
    assert w[|name|..] == u && (w + t)[|name|..] == u + t;
    assert u[|u| - 1] == ')' && u[|u| - 2] == a[|a| - 1];
    AfterTerminatorIgnored(parse, u, t, scale);
  }

  /** An unknown item name leaves the matrix unchanged. */
  lemma UnknownItemIgnored(parse: string -> Option<Float>, s: string, scale: Float, m: Matrix)
    requires !IsKnownItem(s)
    ensures TransformItem(parse, s, scale, m) == Ok(m)
  {
  }

  /** matrix(a b c d e f) is applied only with exactly six operands, and
      then as the matrix [a c e; b d f; 0 0 1]. */
  lemma MatrixItem(parse: string -> Option<Float>, s: string, scale: Float, m: Matrix, n: seq<Float>)
    requires StartsWith(s, "matrix(") && Operands(parse, s, "matrix(", scale) == Ok(n)
    ensures |n| == 6 ==> TransformItem(parse, s, scale, m) == Ok(m + [Affine(n[0], n[2], n[4], n[1], n[3], n[5])])
    ensures |n| != 6 ==> TransformItem(parse, s, scale, m) == Ok(m)
  {
  }

  /** translate(tx) moves by (tx, 0); translate(tx ty) by (tx, ty). */
  lemma TranslateItem(parse: string -> Option<Float>, s: string, scale: Float, m: Matrix, n: seq<Float>)
    requires StartsWith(s, "translate(") && Operands(parse, s, "translate(", scale) == Ok(n)
    ensures |n| == 0 ==> TransformItem(parse, s, scale, m) == Ok(m)
    ensures |n| == 1 ==> TransformItem(parse, s, scale, m) == Ok(m + [Translate(n[0], Zero)])
    ensures |n| >= 2 ==> TransformItem(parse, s, scale, m) == Ok(m + [Translate(n[0], n[1])])
  {
    assert !StartsWith(s, "matrix(") by {
      assert s[..7][0] == 't';
    }
  }

  /** scale(s) scales both axes by s; scale(sx sy) by sx and sy. */
  lemma ScaleItem(parse: string -> Option<Float>, s: string, scale: Float, m: Matrix, n: seq<Float>)
    requires StartsWith(s, "scale(") && Operands(parse, s, "scale(", scale) == Ok(n)
    ensures |n| == 0 ==> TransformItem(parse, s, scale, m) == Ok(m)
    ensures |n| == 1 ==> TransformItem(parse, s, scale, m) == Ok(m + [Scale(n[0], n[0])])
    ensures |n| >= 2 ==> TransformItem(parse, s, scale, m) == Ok(m + [Scale(n[0], n[1])])
  {
    assert s[..6][0] == 's';
  }

  /** rotate(a cx cy) rotates about (cx, cy): translate there, rotate, and
      translate back; with fewer than three operands the centre is the
      origin. */
  lemma RotateItem(parse: string -> Option<Float>, s: string, scale: Float, m: Matrix, n: seq<Float>)
    requires StartsWith(s, "rotate(") && Operands(parse, s, "rotate(", scale) == Ok(n)
    ensures 0 < |n| <= 2 ==> TransformItem(parse, s, scale, m) == Ok(m + [Translate(Zero, Zero), Rotate(n[0]), Translate(Zero, Zero)])
    ensures |n| >= 3 ==> TransformItem(parse, s, scale, m) == Ok(m + [Translate(n[1], n[2]), Rotate(n[0]), Translate(Neg(n[1]), Neg(n[2]))])
  {
    assert s[..7][0] == 'r';
    assert s[..6][0] == 'r';
  }

  /** A transform list is applied item by item, left to right:
      "translate(1,2) scale(3)" pre-concatenates the translation and then
      the scaling. */
  lemma TwoItems(parse: string -> Option<Float>, scale: Float, s: string)
    requires s == "translate(1,2) scale(3)"
    requires parse("1").Some? && parse("2").Some? && parse("3").Some?
    ensures TransformFrom(parse, s, scale, []) ==
      Ok([Translate(Mul(parse("1").value, scale), Mul(parse("2").value, scale)),
          Scale(Mul(parse("3").value, scale), Mul(parse("3").value, scale))])
  {
    var x := Mul(parse("1").value, scale);
    var y := Mul(parse("2").value, scale);
    var z := Mul(parse("3").value, scale);
    var t := s[15..];
    TranslateStep(parse, scale, s);
    SecondItem(s);
    ScaleStep(parse, scale, [Translate(x, y)], t);
    assert [Translate(x, y)] + [Scale(z, z)] == [Translate(x, y), Scale(z, z)];
    ItemThenLast(parse, s, t, scale, [Translate(x, y)], [Translate(x, y), Scale(z, z)]);
  }

  lemma ItemThenLast(parse: string -> Option<Float>, s: string, t: string, scale: Float, m1: Matrix, m2: Matrix)
    requires TransformItem(parse, s, scale, []) == Ok(m1) && NextItem(s) == Some(t)
    requires TransformItem(parse, t, scale, m1) == Ok(m2) && NextItem(t) == None
    ensures TransformFrom(parse, s, scale, []) == Ok(m2)
  {
    LastItem(parse, t, scale, m1, m2);
    NextStep(parse, s, scale, [], m1, t);
  }

  lemma TranslateStep(parse: string -> Option<Float>, scale: Float, s: string)
    requires s == "translate(1,2) scale(3)"
    requires parse("1").Some? && parse("2").Some?
    ensures TransformItem(parse, s, scale, []) ==
      Ok([Translate(Mul(parse("1").value, scale), Mul(parse("2").value, scale))])
  {
    assert StartsWith(s, "translate(");
    assert s[|"translate("|..] == "1,2) scale(3)";
    TwoNumbers(parse, scale);
    TranslateItem(parse, s, scale, [], [Mul(parse("1").value, scale), Mul(parse("2").value, scale)]);
  }

  lemma SecondItem(s: string)
    requires s == "translate(1,2) scale(3)"
    ensures NextItem(s) == Some(s[15..]) && s[15..] == "scale(3)"
  {
    assert s[13] == ')' && ')' !in s[..13];
    NextItemAt(s, 13);
    assert DelimEnd(s, 14) == 15;
  }

  lemma ScaleStep(parse: string -> Option<Float>, scale: Float, m: Matrix, t: string)
    requires t == "scale(3)"
    requires parse("3").Some?
    ensures TransformItem(parse, t, scale, m) ==
      Ok(m + [Scale(Mul(parse("3").value, scale), Mul(parse("3").value, scale))])
    ensures NextItem(t) == None
  {
    assert StartsWith(t, "scale(") && t[|"scale("|..] == "3)";
    OneNumber(parse, scale);
    ScaleItem(parse, t, scale, m, [Mul(parse("3").value, scale)]);
    assert t[7] == ')' && ')' !in t[..7];
    IndexOfAt(t, ')', 7);
  }

  lemma IndexOfAt(s: string, c: char, k: nat)
    requires k < |s| && s[k] == c && c !in s[..k]
    ensures IndexOf(s, c) == k
  {
  }

  lemma NextItemAt(s: string, k: nat)
    requires 0 < k && k + 1 < |s| && s[k] == ')' && ')' !in s[..k]
    ensures NextItem(s) == Some(s[DelimEnd(s, k + 1)..])
  {
    IndexOfAt(s, ')', k);
  }

  lemma TwoNumbers(parse: string -> Option<Float>, scale: Float)
    requires parse("1").Some? && parse("2").Some?
    ensures ParseNumbersSpec(parse, "1,2) scale(3)", scale) == Ok([Mul(parse("1").value, scale), Mul(parse("2").value, scale)])
  {
    var s := "1,2) scale(3)";
    var x := Mul(parse("1").value, scale);
    var y := Mul(parse("2").value, scale);
    assert s[0..1] == "1" && !IsBlank("1");
    assert s[2..3] == "2" && !IsBlank("2");
    assert IsListSeparator(s[1]) && !IsListTerminator(s[1]);
    assert IsListTerminator(s[3]);
    assert [] + [x] == [x];
    assert [x] + [y] == [x, y];
    calc {
      NumbersFrom(parse, s, scale, 1, 0, false, []);
      NumbersFrom(parse, s, scale, 2, 2, true, [x]);
      NumbersFrom(parse, s, scale, 3, 2, false, [x]);
      Ok([x] + [y]);
    }
  }

  lemma OneNumber(parse: string -> Option<Float>, scale: Float)
    requires parse("3").Some?
    ensures ParseNumbersSpec(parse, "3)", scale) == Ok([Mul(parse("3").value, scale)])
  {
    var x := Mul(parse("3").value, scale);
    assert "3)"[0..1] == "3" && !IsBlank("3");
    assert IsListTerminator("3)"[1]);
    assert [] + [x] == [x];
  }
}
