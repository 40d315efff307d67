/** Colours: the SVG 1.1 colour keywords (section 4.4), the fill and stroke
    paints a figure derives from its presentation attributes, and the
    colour of a gradient stop.  Colours are 32-bit ARGB words, as Java ints
    are, so all arithmetic on them is bit-vector arithmetic. */
module Colors {
  import opened Base
  import opened Floats
  import opened JavaNumbers
  import opened Style
  import opened Transform

  type Argb = bv32

  // android.graphics.Color constants used by the decoder.
  const Black: Argb := 0xFF00_0000
  const White: Argb := 0xFFFF_FFFF
  const Blue: Argb := 0xFF00_00FF
  const Yellow: Argb := 0xFFFF_FF00
  const Red: Argb := 0xFFFF_0000
  const Green: Argb := 0xFF00_FF00
  const Gray: Argb := 0xFF88_8888
  const Transparent: Argb := 0

  /** The colour keywords of SVG 1.1 (section 4.4) and their 24-bit RGB
      values, as the decoder's static table puts them.  A key matches only
      exactly: the lookup is case-sensitive.  The table is split into four
      alphabetical runs; no key occurs in two of them. */
  function NamedColor(k: string): Option<Argb>
  {
    var a := KeywordsAToD(k);
    if a.Some? then a
    else
      var b := KeywordsDToL(k);
      if b.Some? then b
      else
        var c := KeywordsLToP(k);
        if c.Some? then c else KeywordsPToY(k)
  }

  function KeywordsAToD(k: string): Option<Argb>
  {
    match k
    case "aliceblue" => Some(0xF0F8FF)
    case "antiquewhite" => Some(0xFAEBD7)
    case "aqua" => Some(0x00FFFF)
    case "aquamarine" => Some(0x7FFFD4)
    case "azure" => Some(0xF0FFFF)
    case "beige" => Some(0xF5F5DC)
    case "bisque" => Some(0xFFE4C4)
    case "black" => Some(0x000000)
    case "blanchedalmond" => Some(0xFFEBCD)
    case "blue" => Some(0x0000FF)
    case "blueviolet" => Some(0x8A2BE2)
    case "brown" => Some(0xA52A2A)
    case "burlywood" => Some(0xDEB887)
    case "cadetblue" => Some(0x5F9EA0)
    case "chartreuse" => Some(0x7FFF00)
    case "chocolate" => Some(0xD2691E)
    case "coral" => Some(0xFF7F50)
    case "cornflowerblue" => Some(0x6495ED)
    case "cornsilk" => Some(0xFFF8DC)
    case "crimson" => Some(0xDC143C)
    case "cyan" => Some(0x00FFFF)
    case "darkblue" => Some(0x00008B)
    case "darkcyan" => Some(0x008B8B)
    case "darkgoldenrod" => Some(0xB8860B)
    case "darkgray" => Some(0xA9A9A9)
    case "darkgreen" => Some(0x006400)
    case "darkgrey" => Some(0xA9A9A9)
    case "darkkhaki" => Some(0xBDB76B)
    case "darkmagenta" => Some(0x8B008B)
    case "darkolivegreen" => Some(0x556B2F)
    case "darkorange" => Some(0xFF8C00)
    case "darkorchid" => Some(0x9932CC)
    case "darkred" => Some(0x8B0000)
    case "darksalmon" => Some(0xE9967A)
    case "darkseagreen" => Some(0x8FBC8F)
    case "darkslateblue" => Some(0x483D8B)
    case "darkslategray" => Some(0x2F4F4F)
    case _ => None
  }

  function KeywordsDToL(k: string): Option<Argb>
  {
    match k
    case "darkslategrey" => Some(0x2F4F4F)
    case "darkturquoise" => Some(0x00CED1)
    case "darkviolet" => Some(0x9400D3)
    case "deeppink" => Some(0xFF1493)
    case "deepskyblue" => Some(0x00BFFF)
    case "dimgray" => Some(0x696969)
    case "dimgrey" => Some(0x696969)
    case "dodgerblue" => Some(0x1E90FF)
    case "firebrick" => Some(0xB22222)
    case "floralwhite" => Some(0xFFFAF0)
    case "forestgreen" => Some(0x228B22)
    case "fuchsia" => Some(0xFF00FF)
    case "gainsboro" => Some(0xDCDCDC)
    case "ghostwhite" => Some(0xF8F8FF)
    case "gold" => Some(0xFFD700)
    case "goldenrod" => Some(0xDAA520)
    case "gray" => Some(0x808080)
    case "green" => Some(0x008000)
    case "greenyellow" => Some(0xADFF2F)
    case "grey" => Some(0x808080)
    case "honeydew" => Some(0xF0FFF0)
    case "hotpink" => Some(0xFF69B4)
    case "indianred" => Some(0xCD5C5C)
    case "indigo" => Some(0x4B0082)
    case "ivory" => Some(0xFFFFF0)
    case "khaki" => Some(0xF0E68C)
    case "lavender" => Some(0xE6E6FA)
    case "lavenderblush" => Some(0xFFF0F5)
    case "lawngreen" => Some(0x7CFC00)
    case "lemonchiffon" => Some(0xFFFACD)
    case "lightblue" => Some(0xADD8E6)
    case "lightcoral" => Some(0xF08080)
    case "lightcyan" => Some(0xE0FFFF)
    case "lightgoldenrodyellow" => Some(0xFAFAD2)
    case "lightgray" => Some(0xD3D3D3)
    case "lightgreen" => Some(0x90EE90)
    case "lightgrey" => Some(0xD3D3D3)
    case _ => None
  }

  function KeywordsLToP(k: string): Option<Argb>
  {
    match k
    case "lightpink" => Some(0xFFB6C1)
    case "lightsalmon" => Some(0xFFA07A)
    case "lightseagreen" => Some(0x20B2AA)
    case "lightskyblue" => Some(0x87CEFA)
    case "lightslategray" => Some(0x778899)
    case "lightslategrey" => Some(0x778899)
    case "lightsteelblue" => Some(0xB0C4DE)
    case "lightyellow" => Some(0xFFFFE0)
    case "lime" => Some(0x00FF00)
    case "limegreen" => Some(0x32CD32)
    case "linen" => Some(0xFAF0E6)
    case "magenta" => Some(0xFF00FF)
    case "maroon" => Some(0x800000)
    case "mediumaquamarine" => Some(0x66CDAA)
    case "mediumblue" => Some(0x0000CD)
    case "mediumorchid" => Some(0xBA55D3)
    case "mediumpurple" => Some(0x9370DB)
    case "mediumseagreen" => Some(0x3CB371)
    case "mediumslateblue" => Some(0x7B68EE)
    case "mediumspringgreen" => Some(0x00FA9A)
    case "mediumturquoise" => Some(0x48D1CC)
    case "mediumvioletred" => Some(0xC71585)
    case "midnightblue" => Some(0x191970)
    case "mintcream" => Some(0xF5FFFA)
    case "mistyrose" => Some(0xFFE4E1)
    case "moccasin" => Some(0xFFE4B5)
    case "navajowhite" => Some(0xFFDEAD)
    case "navy" => Some(0x000080)
    case "oldlace" => Some(0xFDF5E6)
    case "olive" => Some(0x808000)
    case "olivedrab" => Some(0x6B8E23)
    case "orange" => Some(0xFFA500)
    case "orangered" => Some(0xFF4500)
    case "orchid" => Some(0xDA70D6)
    case "palegoldenrod" => Some(0xEEE8AA)
    case "palegreen" => Some(0x98FB98)
    case "paleturquoise" => Some(0xAFEEEE)
    case _ => None
  }

  function KeywordsPToY(k: string): Option<Argb>
  {
    match k
    case "palevioletred" => Some(0xDB7093)
    case "papayawhip" => Some(0xFFEFD5)
    case "peachpuff" => Some(0xFFDAB9)
    case "peru" => Some(0xCD853F)
    case "pink" => Some(0xFFC0CB)
    case "plum" => Some(0xDDA0DD)
    case "powderblue" => Some(0xB0E0E6)
    case "purple" => Some(0x800080)
    case "red" => Some(0xFF0000)
    case "rosybrown" => Some(0xBC8F8F)
    case "royalblue" => Some(0x4169E1)
    case "saddlebrown" => Some(0x8B4513)
    case "salmon" => Some(0xFA8072)
    case "sandybrown" => Some(0xF4A460)
    case "seagreen" => Some(0x2E8B57)
    case "seashell" => Some(0xFFF5EE)
    case "sienna" => Some(0xA0522D)
    case "silver" => Some(0xC0C0C0)
    case "skyblue" => Some(0x87CEEB)
    case "slateblue" => Some(0x6A5ACD)
    case "slategray" => Some(0x708090)
    case "slategrey" => Some(0x708090)
    case "snow" => Some(0xFFFAFA)
    case "springgreen" => Some(0x00FF7F)
    case "steelblue" => Some(0x4682B4)
    case "tan" => Some(0xD2B48C)
    case "teal" => Some(0x008080)
    case "thistle" => Some(0xD8BFD8)
    case "tomato" => Some(0xFF6347)
    case "turquoise" => Some(0x40E0D0)
    case "violet" => Some(0xEE82EE)
    case "wheat" => Some(0xF5DEB3)
    case "white" => Some(0xFFFFFF)
    case "whitesmoke" => Some(0xF5F5F5)
    case "yellow" => Some(0xFFFF00)
    case "yellowgreen" => Some(0x9ACD32)
    case _ => None
  }

  /** Every keyword starts with a lower-case letter. */
  lemma KeywordsAreLowercase(k: string)
    ensures NamedColor(k).Some? ==> |k| > 0 && 'a' <= k[0] <= 'z'
  {
    KeywordsAToDLowercase(k);
    KeywordsDToLLowercase(k);
    KeywordsLToPLowercase(k);
    KeywordsPToYLowercase(k);
  }

  lemma KeywordsAToDLowercase(k: string)
    ensures KeywordsAToD(k).Some? ==> |k| > 0 && 'a' <= k[0] <= 'z'
  {
  }

  lemma KeywordsDToLLowercase(k: string)
    ensures KeywordsDToL(k).Some? ==> |k| > 0 && 'a' <= k[0] <= 'z'
  {
  }

  lemma KeywordsLToPLowercase(k: string)
    ensures KeywordsLToP(k).Some? ==> |k| > 0 && 'a' <= k[0] <= 'z'
  {
  }

  lemma KeywordsPToYLowercase(k: string)
    ensures KeywordsPToY(k).Some? ==> |k| > 0 && 'a' <= k[0] <= 'z'
  {
  }

  /** The four bits a hexadecimal digit stands for. */
  function Nibble(c: char): (b: Argb)
    requires IsHexDigit(c)
    ensures b < 16
  {
    match c
    case '1' => 1 case '2' => 2 case '3' => 3 case '4' => 4 case '5' => 5
    case '6' => 6 case '7' => 7 case '8' => 8 case '9' => 9
    case 'a' => 10 case 'b' => 11 case 'c' => 12 case 'd' => 13 case 'e' => 14 case 'f' => 15
    case 'A' => 10 case 'B' => 11 case 'C' => 12 case 'D' => 13 case 'E' => 14 case 'F' => 15
    case _ => 0
  }

  /** Hexadecimal digits accumulated into a 32-bit word, most significant
      first, four bits per digit. */
  function HexBits(d: string): Argb
    requires AllHex(d)
  {
    if |d| == 0 then 0 else ShiftIn(HexBits(d[..|d| - 1]), d[|d| - 1])
  }

  /** One more digit: the word moves up four bits and the digit fills the
      low four. */
  function ShiftIn(h: Argb, c: char): Argb
    requires IsHexDigit(c)
  {
    (h << 4) | Nibble(c)
  }

  /** Integer.parseInt(s, 16) as the bits of the Java int it returns: the
      digits' bits, negated in two's complement after a minus sign.  Which
      strings parse is decided by ParseHexInt. */
  function ParseHexBits(s: string): (r: Option<Argb>)
    ensures r.Some? <==> ParseHexInt(s).Some?
  {
    if ParseHexInt(s).None? then None
    else
      var b := HexBits(Unsigned(s));
      Some(if s[0] == '-' then 0 - b else b)
  }

  /** Java's `n << 24` on an int: the low eight bits of n in the top byte.
      Euclidean `% 256` gives exactly those eight bits, also for negative n. */
  function TopByte(n: int): (b: Argb)
    ensures b & 0xFF_FFFF == 0
  {
    ((n % 256) as bv32) << 24
  }

  /** hex3Tohex6: 0xRGB becomes 0xRRGGBB.  Only the low twelve bits of the
      argument are read. */
  function Hex3To6(x: Argb): (y: Argb)
    ensures y >> 24 == 0
    ensures (y >> 20) & 0xF == (x >> 8) & 0xF && (y >> 16) & 0xF == (x >> 8) & 0xF
    ensures (y >> 12) & 0xF == (x >> 4) & 0xF && (y >> 8) & 0xF == (x >> 4) & 0xF
    ensures (y >> 4) & 0xF == x & 0xF && y & 0xF == x & 0xF
  {
    ((x & 0xF00) << 8) | ((x & 0xF00) << 12) | ((x & 0xF0) << 4) | ((x & 0xF0) << 8) | ((x & 0xF) << 4) | (x & 0xF)
  }

  /** The colour value of a fill or stroke string before its alpha is
      forced: a keyword's value, else the hexadecimal number after the first
      character (expanded from three digits when the string has four
      characters), else 0 when that number does not parse.  The empty string
      has no first character to drop. */
  function PaintColorValue(s: string): (r: Result<Argb>)
    ensures r.Err? <==> NamedColor(s).None? && |s| == 0
    ensures NamedColor(s).Some? ==> r == Ok(NamedColor(s).value)
    ensures NamedColor(s).None? && |s| > 0 && ParseHexInt(s[1..]).None? ==> r == Ok(Transparent)
    ensures NamedColor(s).None? && |s| > 0 && ParseHexInt(s[1..]).Some? ==>
      r == Ok(if |s| == 4 then Hex3To6(ParseHexBits(s[1..]).value) else ParseHexBits(s[1..]).value)
  {
    if NamedColor(s).Some? then Ok(NamedColor(s).value)
    else if |s| == 0 then Err(IndexOutOfBounds)
    else
      match ParseHexBits(s[1..])
      case None => Ok(Transparent)
      case Some(n) => Ok(if |s| == 4 then Hex3To6(n) else n)
  }

  /** The colour handed to setColor: the low 24 bits of the value under an
      opaque alpha byte. */
  function Opaque(v: Argb): Argb
  {
    (v & 0xFF_FFFF) | 0xFF00_0000
  }

  /** The alpha byte of the colour is 0xFF and its low 24 bits are the value's. */
  lemma OpaqueBytes(v: Argb)
    ensures Opaque(v) & 0xFF00_0000 == 0xFF00_0000
    ensures Opaque(v) & 0xFF_FFFF == v & 0xFF_FFFF
  {
  }

  /** strToColor: the attribute parsed as a float; null, or text that does
      not parse, gives null. */
  function OpacityValue(parse: string -> Option<Float>, s: Option<string>): (r: Option<Float>)
    ensures s.None? ==> r.None?
    ensures s.Some? ==> r == parse(s.value)
  {
    if s.None? then None else parse(s.value)
  }

  /** The opacity a paint uses: `opacity` when it parses, otherwise the
      paint-specific property (`fill-opacity` or `stroke-opacity`). */
  function Opacity(get: string -> Option<string>, parse: string -> Option<Float>, specific: string): (r: Option<Float>)
    ensures OpacityValue(parse, get("opacity")).Some? ==> r == OpacityValue(parse, get("opacity"))
    ensures OpacityValue(parse, get("opacity")).None? ==> r == OpacityValue(parse, get(specific))
  {
    var o := OpacityValue(parse, get("opacity"));
    if o.Some? then o else OpacityValue(parse, get(specific))
  }

  /** The alpha handed to setAlpha: 255 without an opacity, otherwise
      (int) (255 * opacity). */
  function AlphaOf(op: Option<Float>): (a: int)
    ensures op.None? ==> a == 255
    ensures op.Some? && op.value.Fin? && 0.0 <= op.value.r <= 1.0 ==> 0 <= a <= 255
  {
    if op.None? then 255
    else
      var x := Mul(Fin(255.0), op.value);
      assert op.value.Fin? && 0.0 <= op.value.r <= 1.0 ==>
        x == Fin(255.0 * op.value.r) && 0.0 <= 255.0 * op.value.r <= 255.0;
      JavaToInt(x)
  }

  datatype PaintStyle = FillStyle | StrokeStyle
  datatype Cap = ButtCap | RoundCap | SquareCap
  datatype Join = MiterJoin | RoundJoin | BevelJoin

  /** The state of an android.graphics.Paint as far as the decoder sets it.
      `alpha` is the argument of a setAlpha made after the last setColor,
      None when setColor came last and the colour's own alpha byte holds.
      `shader` is the gradient shader installed with setShader. */
  datatype Paint = Paint(
    color: Argb,
    alpha: Option<int>,
    shader: Option<Shader>,
    style: PaintStyle,
    strokeWidth: Option<Float>,
    cap: Option<Cap>,
    join: Option<Join>)

  /** An android.graphics.LinearGradient or RadialGradient as the decoder
      builds it: geometry, stop colours and positions, and the local matrix
      installed with setLocalMatrix, if any. */
  datatype Shader =
    | LinearShader(x0: Float, y0: Float, x1: Float, y1: Float, colors: seq<Argb>, positions: seq<Float>, local: Option<Matrix>)
    | RadialShader(cx: Float, cy: Float, radius: Float, colors: seq<Argb>, positions: seq<Float>, local: Option<Matrix>)

  /** A fresh anti-aliased paint after setAlpha(255). */
  const Fresh: Paint := Paint(Black, Some(255), None, FillStyle, None, None, None)

  /** The gradient id inside `url(#id)`: everything between the prefix and
      the last character. */
  function UrlId(f: string): (id: string)
    requires |f| >= 6
    ensures |id| == |f| - 6
  {
    f[5..|f| - 1]
  }

  /** getFillPaint.  `get` is the element's getStyleAttr and `shaderOf`
      the root's getGradientById. */
  function FillPaint(get: string -> Option<string>, parse: string -> Option<Float>, shaderOf: string -> Option<Shader>): (r: Result<Paint>)
    ensures get("fill").None? ==> r == Ok(Fresh)
    ensures r.Ok? ==> r.value.style == FillStyle
    ensures r.Ok? && get("fill").Some? && !EqualsIgnoreCase(get("fill").value, "none") ==>
      PaintColorValue(get("fill").value).Ok? && r.value.color == Opaque(PaintColorValue(get("fill").value).value) &&
      r.value.color & 0xFF00_0000 == 0xFF00_0000 &&
      r.value.alpha == Some(AlphaOf(Opacity(get, parse, "fill-opacity")))
    ensures get("fill").Some? && EqualsIgnoreCase(get("fill").value, "none") && !StartsWith(get("fill").value, "url(#") ==>
      r == Ok(Fresh.(color := Transparent, alpha := None))
    ensures r.Ok? && get("fill").Some? && StartsWith(get("fill").value, "url(#") && !EqualsIgnoreCase(get("fill").value, "none") ==>
      |get("fill").value| >= 6 && r.value.shader == shaderOf(UrlId(get("fill").value))
    ensures r.Ok? && get("fill").Some? && !StartsWith(get("fill").value, "url(#") ==> r.value.shader.None?
    ensures get("fill") == Some("") ==> r == Err(IndexOutOfBounds)
    ensures get("fill").Some? && StartsWith(get("fill").value, "url(#") && |get("fill").value| < 6 ==>
      r == Err(IndexOutOfBounds)
  {
    match get("fill")
    case None => Ok(Fresh)
    case Some(f) =>
      KeywordsAreLowercase(f);
      var isUrl := StartsWith(f, "url(#");
      if isUrl && |f| < 6 then Err(IndexOutOfBounds)
      else
        var shader := if isUrl then shaderOf(UrlId(f)) else None;
        if EqualsIgnoreCase(f, "none") then Ok(Fresh.(color := Transparent, alpha := None))
        else
          match PaintColorValue(f)
          case Err(e) => Err(e)
          case Ok(v) =>
            OpaqueBytes(v);
            Ok(Fresh.(shader := shader, color := Opaque(v), alpha := Some(AlphaOf(Opacity(get, parse, "fill-opacity")))))
  }

  /** The colour getFillPaint hands to setColor keeps the low 24 bits of
      the parsed value under an opaque alpha byte. */
  lemma FillColorKeepsValue(get: string -> Option<string>, parse: string -> Option<Float>, shaderOf: string -> Option<Shader>)
    requires get("fill").Some? && !EqualsIgnoreCase(get("fill").value, "none") && FillPaint(get, parse, shaderOf).Ok?
    ensures PaintColorValue(get("fill").value).Ok?
    ensures var c := FillPaint(get, parse, shaderOf).value.color;
      c & 0xFF00_0000 == 0xFF00_0000 && c & 0xFF_FFFF == PaintColorValue(get("fill").value).value & 0xFF_FFFF
  {
    OpaqueBytes(PaintColorValue(get("fill").value).value);
  }

  /** strToFloat: the attribute parsed and multiplied by the scale. */
  function ScaledValue(parse: string -> Option<Float>, s: Option<string>, scale: Float): (r: Option<Float>)
    ensures r.Some? <==> s.Some? && parse(s.value).Some?
  {
    if s.None? then None
    else match parse(s.value)
      case None => None
      case Some(f) => Some(Mul(f, scale))
  }

  function CapOf(s: Option<string>): Option<Cap>
  {
    if s == Some("round") then Some(RoundCap)
    else if s == Some("square") then Some(SquareCap)
    else if s == Some("butt") then Some(ButtCap)
    else None
  }

  function JoinOf(s: Option<string>): Option<Join>
  {
    if s == Some("miter") then Some(MiterJoin)
    else if s == Some("round") then Some(RoundJoin)
    else if s == Some("bevel") then Some(BevelJoin)
    else None
  }

  /** The stroke paint for a colour value that has been resolved. */
  function StrokeWith(get: string -> Option<string>, parse: string -> Option<Float>, scale: Float, v: Argb): Paint
  {
    Paint(Opaque(v), Some(AlphaOf(Opacity(get, parse, "stroke-opacity"))), None, StrokeStyle,
          ScaledValue(parse, get("stroke-width"), scale), CapOf(get("stroke-linecap")), JoinOf(get("stroke-linejoin")))
  }

  /** getStrokePaint as written: no paint without a `stroke` property;
      otherwise an opaque colour resolved as for fill.  The keyword `none`
      is not recognised. */
  function StrokePaintAsWritten(get: string -> Option<string>, parse: string -> Option<Float>, scale: Float): (r: Result<Option<Paint>>)
    ensures get("stroke").None? ==> r == Ok(None)
    ensures get("stroke").Some? && |get("stroke").value| > 0 ==> r.Ok? && r.value.Some?
    ensures get("stroke") == Some("") ==> r == Err(IndexOutOfBounds)
    ensures r.Ok? && r.value.Some? ==>
      r.value.value.style == StrokeStyle && r.value.value.color & 0xFF00_0000 == 0xFF00_0000
      && r.value.value.alpha == Some(AlphaOf(Opacity(get, parse, "stroke-opacity")))
    ensures r.Ok? && r.value.Some? ==>
      get("stroke").Some? && PaintColorValue(get("stroke").value).Ok? &&
      r.value.value.color == Opaque(PaintColorValue(get("stroke").value).value) &&
      r.value.value.strokeWidth == ScaledValue(parse, get("stroke-width"), scale) &&
      r.value.value.cap == CapOf(get("stroke-linecap")) && r.value.value.join == JoinOf(get("stroke-linejoin"))
  {
    match get("stroke")
    case None => Ok(None)
    case Some(s) =>
      KeywordsAreLowercase(s);
      match PaintColorValue(s)
      case Err(e) => Err(e)
      case Ok(v) =>
        OpaqueBytes(v);
        Ok(Some(StrokeWith(get, parse, scale, v)))
  }

  /** The colour getStrokePaint hands to setColor keeps the low 24 bits of
      the parsed value under an opaque alpha byte. */
  lemma StrokeColorKeepsValue(get: string -> Option<string>, parse: string -> Option<Float>, scale: Float)
    requires StrokePaintAsWritten(get, parse, scale).Ok? && StrokePaintAsWritten(get, parse, scale).value.Some?
    ensures get("stroke").Some? && PaintColorValue(get("stroke").value).Ok?
    ensures var c := StrokePaintAsWritten(get, parse, scale).value.value.color;
      c & 0xFF00_0000 == 0xFF00_0000 && c & 0xFF_FFFF == PaintColorValue(get("stroke").value).value & 0xFF_FFFF
  {
    OpaqueBytes(PaintColorValue(get("stroke").value).value);
  }

  /** The stroke paint with `none` meaning no stroke, as it does for fill. */
  function StrokePaint(get: string -> Option<string>, parse: string -> Option<Float>, scale: Float): (r: Result<Option<Paint>>)
    ensures get("stroke").None? ==> r == Ok(None)
    ensures get("stroke").Some? && EqualsIgnoreCase(get("stroke").value, "none") ==> r == Ok(None)
    ensures get("stroke").Some? && !EqualsIgnoreCase(get("stroke").value, "none") ==>
      r == StrokePaintAsWritten(get, parse, scale)
  {
    match get("stroke")
    case None => Ok(None)
    case Some(s) => if EqualsIgnoreCase(s, "none") then Ok(None) else StrokePaintAsWritten(get, parse, scale)
  }

  /** The seven names getColor recognises, ignoring case. */
  predicate IsGetColorKeyword(c: string)
  {
    EqualsIgnoreCase(c, "black") || EqualsIgnoreCase(c, "white") || EqualsIgnoreCase(c, "blue") ||
    EqualsIgnoreCase(c, "yellow") || EqualsIgnoreCase(c, "red") || EqualsIgnoreCase(c, "green") ||
    EqualsIgnoreCase(c, "gray")
  }

  /** The seven keywords differ in length or first letter, and none starts
      with '#'. */
  lemma KeywordsExclusive(c: string)
    ensures IsGetColorKeyword(c) ==> !StartsWith(c, "#")
    ensures EqualsIgnoreCase(c, "black") ==> !EqualsIgnoreCase(c, "white")
    ensures EqualsIgnoreCase(c, "blue") ==> !EqualsIgnoreCase(c, "black") && !EqualsIgnoreCase(c, "white")
    ensures EqualsIgnoreCase(c, "yellow") ==>
      !EqualsIgnoreCase(c, "black") && !EqualsIgnoreCase(c, "white") && !EqualsIgnoreCase(c, "blue")
    ensures EqualsIgnoreCase(c, "red") ==>
      !EqualsIgnoreCase(c, "black") && !EqualsIgnoreCase(c, "white") && !EqualsIgnoreCase(c, "blue") &&
      !EqualsIgnoreCase(c, "yellow")
    ensures EqualsIgnoreCase(c, "green") ==>
      !EqualsIgnoreCase(c, "black") && !EqualsIgnoreCase(c, "white") && !EqualsIgnoreCase(c, "blue") &&
      !EqualsIgnoreCase(c, "yellow") && !EqualsIgnoreCase(c, "red")
    ensures EqualsIgnoreCase(c, "gray") ==>
      !EqualsIgnoreCase(c, "black") && !EqualsIgnoreCase(c, "white") && !EqualsIgnoreCase(c, "blue") &&
      !EqualsIgnoreCase(c, "yellow") && !EqualsIgnoreCase(c, "red") && !EqualsIgnoreCase(c, "green")
  {
    if |c| > 0 {
      var h := LowerAscii(c[0]);
      assert EqualsIgnoreCase(c, "black") ==> h == 'b';
      assert EqualsIgnoreCase(c, "white") ==> h == 'w';
      assert EqualsIgnoreCase(c, "blue") ==> h == 'b';
      assert EqualsIgnoreCase(c, "yellow") ==> h == 'y';
      assert EqualsIgnoreCase(c, "red") ==> h == 'r';
      assert EqualsIgnoreCase(c, "green") ==> h == 'g';
      assert EqualsIgnoreCase(c, "gray") ==> h == 'g';
      assert IsGetColorKeyword(c) ==> 'a' <= h <= 'z';
      assert StartsWith(c, "#") ==> c[0] == '#';
    }
  }

  /** getColor: null is black; `#` introduces a hexadecimal value with no
      three-digit expansion; seven keywords are recognised ignoring case;
      anything else must itself be a hexadecimal number. */
  function GetColor(color: Option<string>): (r: Result<Argb>)
    ensures color.None? ==> r == Ok(Black)
    ensures color.Some? && StartsWith(color.value, "#") ==>
      (r.Ok? <==> ParseHexInt(color.value[1..]).Some?) &&
      (r.Ok? ==> r.value == ParseHexBits(color.value[1..]).value) &&
      (r.Err? ==> r.error == NumberFormat)
    ensures color.Some? && EqualsIgnoreCase(color.value, "black") ==> r == Ok(Black)
    ensures color.Some? && EqualsIgnoreCase(color.value, "white") ==> r == Ok(White)
    ensures color.Some? && EqualsIgnoreCase(color.value, "blue") ==> r == Ok(Blue)
    ensures color.Some? && EqualsIgnoreCase(color.value, "yellow") ==> r == Ok(Yellow)
    ensures color.Some? && EqualsIgnoreCase(color.value, "red") ==> r == Ok(Red)
    ensures color.Some? && EqualsIgnoreCase(color.value, "green") ==> r == Ok(Green)
    ensures color.Some? && EqualsIgnoreCase(color.value, "gray") ==> r == Ok(Gray)
    ensures color.Some? && !StartsWith(color.value, "#") && !IsGetColorKeyword(color.value) ==>
      (r.Ok? <==> ParseHexInt(color.value).Some?) &&
      (r.Ok? ==> r.value == ParseHexBits(color.value).value) &&
      (r.Err? ==> r.error == NumberFormat)
  {
    match color
    case None => Ok(Black)
    case Some(c) =>
      KeywordsExclusive(c);
      if StartsWith(c, "#") then
        match ParseHexBits(c[1..])
        case None => Err(NumberFormat)
        case Some(n) => Ok(n)
      else if EqualsIgnoreCase(c, "black") then Ok(Black)
      else if EqualsIgnoreCase(c, "white") then Ok(White)
      else if EqualsIgnoreCase(c, "blue") then Ok(Blue)
      else if EqualsIgnoreCase(c, "yellow") then Ok(Yellow)
      else if EqualsIgnoreCase(c, "red") then Ok(Red)
      else if EqualsIgnoreCase(c, "green") then Ok(Green)
      else if EqualsIgnoreCase(c, "gray") then Ok(Gray)
      else
        match ParseHexBits(c)
        case None => Err(NumberFormat)
        case Some(n) => Ok(n)
  }

  /** The colour SVGTagStop.init computes from the element's `style`
      attribute: 0 without one; otherwise getColor of `stop-color`, with
      Math.round(255 * stop-opacity) shifted into the top byte and OR-ed in,
      or 0xFF000000 OR-ed in when there is no `stop-opacity`. */
  function StopColor(parse: string -> Option<Float>, style: Option<string>): (r: Result<Argb>)
    ensures style.None? ==> r == Ok(0)
    ensures style.Some? ==>
      var m := StyleMapOf(JavaSplit(style.value, ';'));
      var g := GetColor(if "stop-color" in m then Some(m["stop-color"]) else None);
      (g.Err? ==> r == Err(g.error)) &&
      (g.Ok? && "stop-opacity" !in m ==> r == Ok(g.value | 0xFF00_0000)) &&
      (g.Ok? && "stop-opacity" in m && parse(m["stop-opacity"]).None? ==> r == Err(NumberFormat)) &&
      (g.Ok? && "stop-opacity" in m && parse(m["stop-opacity"]).Some? ==>
        r == Ok(g.value | TopByte(JavaRound(Mul(Fin(255.0), parse(m["stop-opacity"]).value)))))
  {
    match style
    case None => Ok(0)
    case Some(st) => StopColorFrom(parse, StyleMapOf(JavaSplit(st, ';')))
  }

  /** The stop colour given the stop's parsed style properties. */
  function StopColorFrom(parse: string -> Option<Float>, m: map<string, string>): Result<Argb>
  {
    var colorStyle := if "stop-color" in m then Some(m["stop-color"]) else None;
    match GetColor(colorStyle)
    case Err(e) => Err(e)
    case Ok(c) => WithStopOpacity(parse, m, c)
  }

  /** The colour field of a stop whose init threw: getColor's value once it
      has been stored, 0 (the field cleared) when getColor itself threw. */
  function StopColorStored(style: Option<string>): (c: Argb)
    ensures style.None? ==> c == 0
  {
    match style
    case None => 0
    case Some(st) =>
      var m := StyleMapOf(JavaSplit(st, ';'));
      match GetColor(if "stop-color" in m then Some(m["stop-color"]) else None)
      case Ok(c) => c
      case Err(_) => 0
  }

  /** The stop's opacity OR-ed into the top byte of colour `c`. */
  function WithStopOpacity(parse: string -> Option<Float>, m: map<string, string>, c: Argb): Result<Argb>
  {
    if "stop-opacity" in m then
      match parse(m["stop-opacity"])
      case None => Err(NumberFormat)
      case Some(alpha) => Ok(c | TopByte(JavaRound(Mul(Fin(255.0), alpha))))
    else Ok(c | 0xFF00_0000)
  }

  /** Three digits expanded give the word the six doubled digits spell. */
  lemma ShortHexSpellsLong(a: char, b: char, c: char)
    requires IsHexDigit(a) && IsHexDigit(b) && IsHexDigit(c)
    ensures Hex3To6(HexBits([a, b, c])) == HexBits([a, a, b, b, c, c])
  {
    HexBitsThree(a, b, c);
    HexBitsSix(a, a, b, b, c, c);
    NibblesDoubled(Nibble(a), Nibble(b), Nibble(c));
  }

  /** The bit-level core of the expansion. */
  lemma NibblesDoubled(x: Argb, y: Argb, z: Argb)
    requires x < 16 && y < 16 && z < 16
    ensures Hex3To6((((x << 4) | y) << 4) | z)
      == (((((((((x << 4) | x) << 4) | y) << 4) | y) << 4) | z) << 4) | z
  {
  }

  lemma HexBitsThree(a: char, b: char, c: char)
    requires IsHexDigit(a) && IsHexDigit(b) && IsHexDigit(c)
    ensures HexBits([a, b, c]) == (((Nibble(a) << 4) | Nibble(b)) << 4) | Nibble(c)
    ensures HexBits([a, b, c]) < 0x1000
  {
    assert [a, b, c][..2] == [a, b] && [a, b][..1] == [a] && [a][..0] == [];
    assert HexBits([a]) == Nibble(a);
    assert HexBits([a, b]) == (Nibble(a) << 4) | Nibble(b);
  }

  lemma HexBitsSix(a: char, b: char, c: char, d: char, e: char, f: char)
    requires IsHexDigit(a) && IsHexDigit(b) && IsHexDigit(c)
    requires IsHexDigit(d) && IsHexDigit(e) && IsHexDigit(f)
    ensures HexBits([a, b, c, d, e, f])
      == (((((((((Nibble(a) << 4) | Nibble(b)) << 4) | Nibble(c)) << 4) | Nibble(d)) << 4) | Nibble(e)) << 4) | Nibble(f)
  {
    var s := [a, b, c, d, e, f];
    assert s[..5] == [a, b, c, d, e] && s[..5][..4] == [a, b, c, d] && s[..5][..4][..3] == [a, b, c];
    assert [a, b, c][..2] == [a, b] && [a, b][..1] == [a] && [a][..0] == [];
    assert HexBits([a]) == Nibble(a);
    assert HexBits([a, b]) == ShiftIn(Nibble(a), b);
    assert HexBits([a, b, c]) == ShiftIn(ShiftIn(Nibble(a), b), c);
    assert HexBits([a, b, c, d]) == ShiftIn(HexBits([a, b, c]), d);
    assert HexBits([a, b, c, d, e]) == ShiftIn(HexBits([a, b, c, d]), e);
    assert HexBits(s) == ShiftIn(HexBits([a, b, c, d, e]), f);
  }

  /** A four-character fill `#rgb` gives the same colour as `#rrggbb`. */
  lemma FillShortHexMatchesLong(a: char, b: char, c: char)
    requires IsHexDigit(a) && IsHexDigit(b) && IsHexDigit(c)
    ensures PaintColorValue(['#', a, b, c]) == PaintColorValue(['#', a, a, b, b, c, c])
  {
    var s, t := ['#', a, b, c], ['#', a, a, b, b, c, c];
    KeywordsAreLowercase(s);
    KeywordsAreLowercase(t);
    ParseHex3(a, b, c);
    ParseHex6(a, a, b, b, c, c);
    assert s[1..] == [a, b, c] && t[1..] == [a, a, b, b, c, c];
    assert Unsigned([a, b, c]) == [a, b, c] && Unsigned([a, a, b, b, c, c]) == [a, a, b, b, c, c];
    ShortHexSpellsLong(a, b, c);
  }

  /** A fill that is neither a keyword, nor `none`, nor a number after its
      first character paints opaque black. */
  lemma UnparseableFillIsBlack(get: string -> Option<string>, parse: string -> Option<Float>, shaderOf: string -> Option<Shader>)
    requires get("fill").Some? && |get("fill").value| > 0 && NamedColor(get("fill").value).None?
    requires !EqualsIgnoreCase(get("fill").value, "none") && !StartsWith(get("fill").value, "url(#")
    requires ParseHexInt(get("fill").value[1..]).None?
    ensures FillPaint(get, parse, shaderOf).Ok?
    ensures FillPaint(get, parse, shaderOf).value.color == Black
  {
  }

  /** The fill keyword lookup is case-sensitive: `red` is red, while `Red`
      misses the table and `ed` is read as the hexadecimal number 0xED. */
  lemma FillKeywordIsCaseSensitive(lower: string, upper: string)
    requires lower == "red" && upper == "Red"
    ensures PaintColorValue(lower) == Ok(0xFF0000)
    ensures PaintColorValue(upper) == Ok(0xED)
  {
    KeywordsAreLowercase(upper);
    RedIsAKeyword(lower);
    assert upper[1..] == ['e', 'd'];
    ParseHexTwo('e', 'd');
  }

  /** getColor, used for gradient stops, compares its seven keywords
      ignoring case. */
  lemma GetColorIgnoresCase(upper: string)
    requires upper == "Red"
    ensures GetColor(Some(upper)) == Ok(Red)
  {
    assert !StartsWith(upper, "#") by { assert upper[..1][0] == 'R'; }
    assert LowerAscii('R') == 'r';
    assert EqualsIgnoreCase(upper, "red");
  }

  lemma ParseHexTwo(a: char, b: char)
    requires IsHexDigit(a) && IsHexDigit(b)
    ensures ParseHexBits([a, b]) == Some((Nibble(a) << 4) | Nibble(b))
  {
    var s := [a, b];
    assert s[..1] == [a] && [a][..0] == [];
    assert HexValue(s) == 16 * HexDigitValue(a) + HexDigitValue(b) by {
      assert HexValue([a]) == HexDigitValue(a);
    }
    assert Unsigned(s) == s;
    assert ParseHexInt(s).Some?;
    assert HexBits([a]) == Nibble(a);
    assert HexBits(s) == (Nibble(a) << 4) | Nibble(b);
  }

  /** getColor does not expand three digits: `#rgb` in a stop is 0x00000RGB. */
  lemma StopShortHexNotExpanded(a: char, b: char, c: char)
    requires IsHexDigit(a) && IsHexDigit(b) && IsHexDigit(c)
    ensures GetColor(Some(['#', a, b, c])) == Ok(HexBits([a, b, c]))
    ensures HexBits([a, b, c]) < 0x1000
  {
    var s := ['#', a, b, c];
    assert StartsWith(s, "#") && s[1..] == [a, b, c];
    ParseHex3(a, b, c);
    assert Unsigned([a, b, c]) == [a, b, c];
    HexBitsThree(a, b, c);
  }

  /** A stop's opacity is OR-ed into the colour rather than replacing its
      alpha: the colour's low 24 bits survive, and a colour that is already
      opaque (every keyword getColor knows, and the default black) stays
      opaque whatever `stop-opacity` says. */
  lemma StopOpacityOnlyAddsBits(parse: string -> Option<Float>, m: map<string, string>, c: Argb)
    ensures WithStopOpacity(parse, m, c).Ok? ==> WithStopOpacity(parse, m, c).value & 0xFF_FFFF == c & 0xFF_FFFF
    ensures WithStopOpacity(parse, m, c).Ok? && c >> 24 == 0xFF ==> WithStopOpacity(parse, m, c).value >> 24 == 0xFF
    ensures "stop-opacity" !in m ==> WithStopOpacity(parse, m, c) == Ok(c | 0xFF00_0000)
  {
    if "stop-opacity" in m && parse(m["stop-opacity"]).Some? {
      var top := TopByte(JavaRound(Mul(Fin(255.0), parse(m["stop-opacity"]).value)));
      OrTopByte(c, top);
    } else if "stop-opacity" !in m {
      OrTopByte(c, 0xFF00_0000);
    }
  }

  lemma OrTopByte(c: Argb, top: Argb)
    requires top & 0xFF_FFFF == 0
    ensures (c | top) & 0xFF_FFFF == c & 0xFF_FFFF
    ensures c >> 24 == 0xFF ==> (c | top) >> 24 == 0xFF
  {
  }

  /** The stroke keyword `none` is not recognised: the code reads `one` as a
      hexadecimal number, fails, takes 0 and forces it opaque, so the figure
      gets an opaque black stroke. */
  lemma StrokeNoneIsBlack(get: string -> Option<string>, parse: string -> Option<Float>, scale: Float)
    requires get("stroke") == Some("none") && get("opacity").None? && get("stroke-opacity").None?
    ensures StrokePaintAsWritten(get, parse, scale).Ok?
    ensures StrokePaintAsWritten(get, parse, scale).value.Some?
    ensures StrokePaintAsWritten(get, parse, scale).value.value.color == Black
    ensures StrokePaintAsWritten(get, parse, scale).value.value.alpha == Some(255)
    ensures StrokePaint(get, parse, scale) == Ok(None)
  {
    var s := "none";
    NoneIsNotAKeyword(s);
    assert !IsHexDigit(s[1..][0]);
    assert EqualsIgnoreCase(s, "none");
  }

  lemma RedIsAKeyword(k: string)
    requires k == "red"
    ensures NamedColor(k) == Some(0xFF0000)
  {
  }

  lemma NoneIsNotAKeyword(k: string)
    requires k == "none"
    ensures NamedColor(k) == None
  {
  }
}
