/** Inline styles and lengths: the StyleSet built from a `style` attribute,
    the attribute lookup figures use (getStyleAttr), the conversion of a
    length attribute to a float (attrToFloat, getFloatAttr) and the XML
    escaping helper. */
module Style {
  import opened Base
  import opened Floats

  /** The `name:value` pair one `;`-separated item contributes, when it
      splits on `:` into exactly two pieces.  Neither piece is trimmed. */
  function Entry(item: string): (e: Option<(string, string)>)
    ensures e.Some? ==> ':' !in e.value.0 && ':' !in e.value.1
  {
    var kv := JavaSplit(item, ':');
    if |kv| == 2 then Some((kv[0], kv[1])) else None
  }

  /** The map a sequence of items builds when they are put in order. */
  function StyleMapOf(items: seq<string>): map<string, string>
  {
    if |items| == 0 then map[]
    else
      var m := StyleMapOf(items[..|items| - 1]);
      match Entry(items[|items| - 1])
      case None => m
      case Some(e) => m[e.0 := e.1]
  }

  /** The key an item would set, if any. */
  function KeyOf(item: string): Option<string>
  {
    match Entry(item)
    case None => None
    case Some(e) => Some(e.0)
  }

  /** The index of the last item that sets `k`, or -1 when none does. */
  function LastSetting(items: seq<string>, k: string): (i: int)
    ensures -1 <= i < |items|
    ensures i >= 0 ==> KeyOf(items[i]) == Some(k)
    ensures forall j :: i < j < |items| ==> KeyOf(items[j]) != Some(k)
  {
    if |items| == 0 then -1
    else if KeyOf(items[|items| - 1]) == Some(k) then |items| - 1
    else LastSetting(items[..|items| - 1], k)
  }

  /** A style property is present exactly when some well-formed item names
      it, and its value is the one given by the last such item. */
  lemma {:induction false} StyleMapLastWins(items: seq<string>, k: string)
    ensures k in StyleMapOf(items) <==> LastSetting(items, k) >= 0
    ensures k in StyleMapOf(items) ==> Entry(items[LastSetting(items, k)]) == Some((k, StyleMapOf(items)[k]))
    decreases |items|
  {
    if |items| > 0 {
      var n := |items| - 1;
      StyleMapLastWins(items[..n], k);
      if KeyOf(items[n]) != Some(k) {
        var i := LastSetting(items[..n], k);
        assert i >= 0 ==> items[..n][i] == items[i];
      }
    }
  }

  /** The parsed `style` attribute of one element (StyleSet). */
  class StyleSet {
    var styleMap: map<string, string>

    /** Splits on `;`, then each item on `:`, keeping only the two-piece
        items; a later item overrides an earlier one with the same name. */
    constructor (s: string)
      ensures styleMap == StyleMapOf(JavaSplit(s, ';'))
    {
      var items := JavaSplit(s, ';');
      var m: map<string, string> := map[];
      for i := 0 to |items|
        invariant m == StyleMapOf(items[..i])
      {
        var kv := JavaSplit(items[i], ':');
        if |kv| == 2 {
          m := m[kv[0] := kv[1]];
        }
        assert items[..i + 1][..i] == items[..i];
      }
      assert items[..|items|] == items;
      styleMap := m;
    }

    function GetStyle(name: string): (v: Option<string>)
      reads this
      ensures v.Some? <==> name in styleMap
      ensures v.Some? ==> v.value == styleMap[name]
    {
      if name in styleMap then Some(styleMap[name]) else None
    }
  }

  /** getStyleAttr: when the element has a `style` attribute only its
      StyleSet is consulted; otherwise the plain attribute. */
  function StyleAttr(styles: Option<map<string, string>>, attrs: map<string, string>, name: string): (v: Option<string>)
    ensures styles.Some? ==> (v.Some? <==> name in styles.value) && (v.Some? ==> v.value == styles.value[name])
    ensures styles.None? ==> (v.Some? <==> name in attrs) && (v.Some? ==> v.value == attrs[name])
  {
    match styles
    case Some(m) => if name in m then Some(m[name]) else None
    case None => if name in attrs then Some(attrs[name]) else None
  }

  /** A style attribute hides every presentation attribute it does not
      itself set: `fill` given as an attribute is ignored next to any
      `style`, even one that says nothing about fill. */
  lemma StyleHidesAttributes(m: map<string, string>, attrs: map<string, string>, name: string)
    requires name in attrs && name !in m
    ensures StyleAttr(Some(m), attrs, name) == None
    ensures StyleAttr(None, attrs, name) == Some(attrs[name])
  {
  }

  /** attrToFloat: a trailing `px` is dropped; a trailing `%` is dropped and
      the number taken as that percentage of `bound`; the result is then
      multiplied by the scale.  Any parse failure gives null (None). */
  function AttrToFloat(parse: string -> Option<Float>, str: string, bound: Float, scale: Float): (r: Option<Float>)
    ensures !EndsWith(str, "px") && !EndsWith(str, "%") ==>
      (r.Some? <==> parse(str).Some?) && (r.Some? ==> r.value == Mul(parse(str).value, scale))
  {
    var percent := !EndsWith(str, "px") && EndsWith(str, "%");
    var v := if EndsWith(str, "px") then str[..|str| - 2] else if percent then str[..|str| - 1] else str;
    match parse(v)
    case None => None
    case Some(f) =>
      var ret := if percent then Div(Mul(f, bound), Fin(100.0)) else f;
      Some(Mul(ret, scale))
  }

  /** A length in pixels reads as the bare number. */
  lemma PixelsAreBareNumbers(parse: string -> Option<Float>, t: string, bound: Float, scale: Float)
    requires !EndsWith(t, "px") && !EndsWith(t, "%")
    ensures AttrToFloat(parse, t + "px", bound, scale) == AttrToFloat(parse, t, bound, scale)
  {
    var s := t + "px";
    assert EndsWith(s, "px") && s[..|s| - 2] == t;
  }

  /** A percentage is taken of the bound before scaling. */
  lemma PercentOfBound(parse: string -> Option<Float>, t: string, v: real, b: real, sc: real)
    requires parse(t) == Some(Fin(v))
    ensures AttrToFloat(parse, t + "%", Fin(b), Fin(sc)) == Some(Fin(v * b / 100.0 * sc))
  {
    var s := t + "%";
    assert !EndsWith(s, "px") by {
      assert s[|s| - 1] == '%';
      assert |s| >= 2 ==> s[|s| - 2..][1] == '%';
    }
    assert EndsWith(s, "%") && s[..|s| - 1] == t;
    var ret := Div(Mul(Fin(v), Fin(b)), Fin(100.0));
    assert ret == Fin(v * b / 100.0);
    assert Mul(ret, Fin(sc)) == Fin(v * b / 100.0 * sc);
    assert AttrToFloat(parse, s, Fin(b), Fin(sc)) == Some(Mul(ret, Fin(sc)));
  }

  /** getFloatAttr: a missing attribute reads as 0 (unscaled), a present
      one goes through attrToFloat and may give null. */
  function FloatAttr(parse: string -> Option<Float>, attrs: map<string, string>, name: string, bound: Float, scale: Float): (r: Option<Float>)
    ensures name !in attrs ==> r == Some(Zero)
    ensures name in attrs ==> r == AttrToFloat(parse, attrs[name], bound, scale)
  {
    if name in attrs then AttrToFloat(parse, attrs[name], bound, scale) else Some(Zero)
  }

  /** String.replaceAll with a pattern that matches the single character `c`. */
  function ReplaceAll(s: string, c: char, rep: string): (r: string)
    ensures c !in rep ==> c !in r
    ensures c !in s ==> r == s
  {
    if |s| == 0 then ""
    else
      var rest := ReplaceAll(s[1..], c, rep);
      assert c !in s ==> s == [s[0]] + s[1..];
      (if s[0] == c then rep else [s[0]]) + rest
  }

  /** Replacing one character never introduces a character that neither
      the input nor the replacement holds. */
  lemma {:induction false} ReplaceAllKeepsOut(s: string, c: char, rep: string, x: char)
    requires x !in s && x !in rep
    ensures x !in ReplaceAll(s, c, rep)
    decreases |s|
  {
    if |s| > 0 {
      assert x !in s[1..] by { assert forall i :: 0 <= i < |s| - 1 ==> s[1..][i] == s[i + 1]; }
      ReplaceAllKeepsOut(s[1..], c, rep, x);
    }
  }

  /** escape: quotes, apostrophes and angle brackets are replaced by
      entities first and ampersands last, so the entities just written have
      their own `&` escaped again. */
  function Escape(s: string): string
  {
    var a := ReplaceAll(s, '"', "&quot;");
    var b := ReplaceAll(a, '\'', "&apos");
    var c := ReplaceAll(b, '<', "&lt;");
    var d := ReplaceAll(c, '>', "&gt;");
    ReplaceAll(d, '&', "&amp;")
  }

  /** The escaped text holds no quote, apostrophe or angle bracket. */
  lemma EscapeRemovesMarkup(s: string)
    ensures '<' !in Escape(s) && '>' !in Escape(s) && '"' !in Escape(s) && '\'' !in Escape(s)
  {
    EscapeRemovesQuote(s);
    EscapeRemovesApostrophe(s);
    EscapeRemovesLess(s);
    EscapeRemovesGreater(s);
  }

  lemma EscapeRemovesQuote(s: string)
    ensures '"' !in Escape(s)
  {
    var a := ReplaceAll(s, '"', "&quot;");
    var b := ReplaceAll(a, '\'', "&apos");
    ReplaceAllKeepsOut(a, '\'', "&apos", '"');
    var c := ReplaceAll(b, '<', "&lt;");
    ReplaceAllKeepsOut(b, '<', "&lt;", '"');
    var d := ReplaceAll(c, '>', "&gt;");
    ReplaceAllKeepsOut(c, '>', "&gt;", '"');
    ReplaceAllKeepsOut(d, '&', "&amp;", '"');
  }

  lemma EscapeRemovesApostrophe(s: string)
    ensures '\'' !in Escape(s)
  {
    var a := ReplaceAll(s, '"', "&quot;");
    var b := ReplaceAll(a, '\'', "&apos");
    var c := ReplaceAll(b, '<', "&lt;");
    ReplaceAllKeepsOut(b, '<', "&lt;", '\'');
    var d := ReplaceAll(c, '>', "&gt;");
    ReplaceAllKeepsOut(c, '>', "&gt;", '\'');
    ReplaceAllKeepsOut(d, '&', "&amp;", '\'');
  }

  lemma EscapeRemovesLess(s: string)
    ensures '<' !in Escape(s)
  {
    var a := ReplaceAll(s, '"', "&quot;");
    var b := ReplaceAll(a, '\'', "&apos");
    var c := ReplaceAll(b, '<', "&lt;");
    var d := ReplaceAll(c, '>', "&gt;");
    ReplaceAllKeepsOut(c, '>', "&gt;", '<');
    ReplaceAllKeepsOut(d, '&', "&amp;", '<');
  }

  lemma EscapeRemovesGreater(s: string)
    ensures '>' !in Escape(s)
  {
    var a := ReplaceAll(s, '"', "&quot;");
    var b := ReplaceAll(a, '\'', "&apos");
    var c := ReplaceAll(b, '<', "&lt;");
    var d := ReplaceAll(c, '>', "&gt;");
    ReplaceAllKeepsOut(d, '&', "&amp;", '>');
  }

  /** Text without markup characters or ampersands is left alone. */
  lemma EscapeKeepsPlainText(s: string)
    requires '<' !in s && '>' !in s && '"' !in s && '\'' !in s && '&' !in s
    ensures Escape(s) == s
  {
  }

  /** Because `&` is replaced last, `<` comes out doubly escaped. */
  lemma EscapeDoublesAmpersand(s: string)
    requires s == "<"
    ensures Escape(s) == "&amp;lt;"
  {
    var c := ReplaceAll(s, '<', "&lt;");
    assert c == "&lt;" + ReplaceAll("", '<', "&lt;");
    var d := ReplaceAll(c, '>', "&gt;");
    assert d == c;
    assert ReplaceAll(d, '&', "&amp;") == "&amp;" + ReplaceAll("lt;", '&', "&amp;");
  }
}
