/** What init() computes for one element: the geometry of each figure
    class and the box it reports, the transform, styles, display flag and
    paints every figure shares (SVGFigure.initParams), the stop's offset and
    colour, and the document's own size.  Each element's derived fields are
    a Derived value; a Java field still null is None. */
module Figures {
  import opened Base
  import opened Floats
  import opened Numbers
  import opened JavaNumbers
  import Paths
  import opened Transform
  import opened Style
  import opened Colors
  import opened Gradients
  import opened Tree

  /** An android.graphics.RectF: left, top, right, bottom. */
  datatype Box = Box(left: Float, top: Float, right: Float, bottom: Float)

  /** The geometry fields of each figure class, as boxed Floats or object
      references that may still be null. */
  datatype Shape =
    | LineShape(x1: Option<Float>, y1: Option<Float>, x2: Option<Float>, y2: Option<Float>)
    | PathShape(path: Option<seq<Paths.PathOp>>)
    | CircleShape(cx: Option<Float>, cy: Option<Float>, r: Option<Float>)
    | OvalShape(oval: Option<Box>)
    | RectShape(x: Option<Float>, y: Option<Float>, rx: Option<Float>, ry: Option<Float>,
                w: Option<Float>, h: Option<Float>, bounds: Option<Box>)

  /** The fields of an SVGFigure. */
  datatype Figure = Figure(
    shape: Shape,
    display: bool,
    matrix: Option<Matrix>,
    styles: Option<map<string, string>>,
    fill: Option<Paint>,
    stroke: Option<Paint>)

  /** The derived fields of an element, by class. */
  datatype Derived =
    | RootState(width: int, height: int)
    | GroupState(display: bool)
    | FigureState(fig: Figure)
    | StopState(offset: Float, color: Argb)
    | GradState(grad: GradientState)
    | PlainState

  predicate IsFigure(k: Kind)
  {
    k == PathKind || k == RectKind || k == CircleKind || k == EllipseKind ||
    k == LineKind || k == PolylineKind || k == PolygonKind
  }

  /** The fields of a figure of class `k` as its constructor leaves them. */
  function BlankShape(k: Kind): Shape
  {
    match k
    case LineKind => LineShape(None, None, None, None)
    case CircleKind => CircleShape(None, None, None)
    case EllipseKind => OvalShape(None)
    case RectKind => RectShape(None, None, None, None, None, None, None)
    case _ => PathShape(None)
  }

  /** The derived fields of a freshly constructed element. */
  function Blank(k: Kind): (d: Derived)
    ensures IsFigure(k) <==> d.FigureState?
  {
    match k
    case SvgKind => RootState(0, 0)
    case GroupKind => GroupState(true)
    case StopKind => StopState(Zero, 0)
    case LinearKind => GradState(GradientState(None, None))
    case RadialKind => GradState(GradientState(None, None))
    case AnimateKind => PlainState
    case PlainKind => PlainState
    case _ => FigureState(Figure(BlankShape(k), true, None, None, None, None))
  }

  /** The decoder-wide inputs of init: Float.parseFloat, the scale
      (getScale), the decoder's own size (setWidthHeight) and
      Path.computeBounds, which belongs to the graphics library. */
  datatype Env = Env(parse: string -> Option<Float>, scale: Float, width: int, height: int,
                     pathBounds: seq<Paths.PathOp> -> Box)

  /** The points of a polyline or polygon as path operations: a moveTo,
      then a lineTo per further pair, then close for a polygon.  An odd
      count reads past the end of the list and throws. */
  function PolyOps(pts: seq<Float>, close: bool): (r: Result<seq<Paths.PathOp>>)
    requires |pts| > 1
    ensures r.Ok? <==> |pts| % 2 == 0
    ensures r.Ok? ==> |r.value| == |pts| / 2 + (if close then 1 else 0)
    ensures r.Ok? ==> r.value[0] == Paths.MoveTo(pts[0], pts[1])
    ensures r.Ok? ==> forall k :: 1 <= k < |pts| / 2 ==> r.value[k] == Paths.LineTo(pts[2 * k], pts[2 * k + 1])
    ensures r.Ok? && close ==> r.value[|r.value| - 1] == Paths.Close
    ensures r.Err? ==> r.error == IndexOutOfBounds
  {
    if |pts| % 2 == 1 then Err(IndexOutOfBounds)
    else
      var n := |pts| / 2;
      Ok([Paths.MoveTo(pts[0], pts[1])] +
         seq(n - 1, k requires 0 <= k < n - 1 => Paths.LineTo(pts[2 * k + 2], pts[2 * k + 3])) +
         (if close then [Paths.Close] else []))
  }

  /** The loop of SVGTagPolyline.init and SVGTagPolygon.init that builds
      the Path. */
  method BuildPoly(pts: seq<Float>, close: bool) returns (r: Result<seq<Paths.PathOp>>)
    requires |pts| > 1
    ensures r == PolyOps(pts, close)
  {
    var ops := [Paths.MoveTo(pts[0], pts[1])];
    var i := 2;
    while i < |pts|
      invariant 2 <= i <= |pts| && i % 2 == 0
      invariant |ops| == i / 2 && ops[0] == Paths.MoveTo(pts[0], pts[1])
      invariant forall k :: 1 <= k < i / 2 ==> ops[k] == Paths.LineTo(pts[2 * k], pts[2 * k + 1])
      decreases |pts| - i
    {
      if i + 1 >= |pts| {
        return Err(IndexOutOfBounds);
      }
      ops := ops + [Paths.LineTo(pts[i], pts[i + 1])];
      i := i + 2;
    }
    if close {
      ops := ops + [Paths.Close];
    }
    r := Ok(ops);
    assert ops == PolyOps(pts, close).value;
  }

  /** What a figure's own init step leaves: its geometry fields, and the box
      it reports to the root (None when it reports nothing) or the
      exception it throws. */
  datatype Geometry = Geometry(shape: Shape, report: Result<Option<Box>>)

  /** A box from four coordinates any of which may be null: unboxing a
      null throws. */
  function BoxOf4(a: Option<Float>, b: Option<Float>, c: Option<Float>, d: Option<Float>): (r: Result<Box>)
    ensures r.Ok? <==> a.Some? && b.Some? && c.Some? && d.Some?
    ensures r.Ok? ==> r.value == Box(a.value, b.value, c.value, d.value)
    ensures r.Err? ==> r.error == NullPointer
  {
    if a.Some? && b.Some? && c.Some? && d.Some? then Ok(Box(a.value, b.value, c.value, d.value)) else Err(NullPointer)
  }

  /** The polyline or polygon step: the numbers of `text` when the
      element has `points`, and a path when there are at least two. */
  function PolyGeometry(text: string, hasPoints: bool, close: bool, env: Env, prior: Shape): (g: Geometry)
    ensures !hasPoints ==> g == Geometry(prior, Ok(None))
  {
    if !hasPoints then Geometry(prior, Ok(None))
    else match ParseNumbersSpec(env.parse, text, env.scale)
      case Err(e) => Geometry(prior, Err(e))
      case Ok(pts) =>
        if |pts| <= 1 then Geometry(prior, Ok(None))
        else match PolyOps(pts, close)
          case Err(e) => Geometry(prior, Err(e))
          case Ok(ops) => Geometry(PathShape(Some(ops)), Ok(Some(env.pathBounds(ops))))
  }

  /** The geometry step of each figure class's init, with `w` and `h` the
      canvas size as floats and `prior` the fields before the call.

      - line: x1, x2 against the width, y1, y2 against the height, all
        stored, then reported, which throws on a null;
      - polyline: the numbers of the literal text "points";
      - polygon: the numbers of the `points` attribute, then close;
      - circle: cx, cy, r, reported as centre -/+ radius;
      - ellipse: when cx, cy, rx, ry are all present, an oval and its box;
      - rect: x, y, rx, ry, width, height stored, then a box whose bottom
        is y + width, which throws when x, y or width is null;
      - path: the path of `d`, reported by its computed bounds. */
  function GeometryOf(k: Kind, attrs: map<string, string>, env: Env, w: Float, h: Float, prior: Shape): (g: Geometry)
    requires IsFigure(k)
  {
    match k
    case LineKind => LineGeometry(FloatAttr(env.parse, attrs, "x1", w, env.scale), FloatAttr(env.parse, attrs, "y1", h, env.scale), FloatAttr(env.parse, attrs, "x2", w, env.scale), FloatAttr(env.parse, attrs, "y2", h, env.scale))
    case PolylineKind => PolylineGeometry(attrs, env, prior)
    case PolygonKind => PolyGeometry(if "points" in attrs then attrs["points"] else "", "points" in attrs, true, env, prior)
    case CircleKind => CircleGeometry(FloatAttr(env.parse, attrs, "cx", w, env.scale), FloatAttr(env.parse, attrs, "cy", h, env.scale), FloatAttr(env.parse, attrs, "r", w, env.scale))
    case EllipseKind => EllipseGeometry(FloatAttr(env.parse, attrs, "cx", w, env.scale), FloatAttr(env.parse, attrs, "cy", h, env.scale), FloatAttr(env.parse, attrs, "rx", w, env.scale), FloatAttr(env.parse, attrs, "ry", h, env.scale), prior)
    case RectKind => RectGeometry(FloatAttr(env.parse, attrs, "x", w, env.scale), FloatAttr(env.parse, attrs, "y", h, env.scale), FloatAttr(env.parse, attrs, "rx", w, env.scale), FloatAttr(env.parse, attrs, "ry", h, env.scale), FloatAttr(env.parse, attrs, "width", w, env.scale), FloatAttr(env.parse, attrs, "height", h, env.scale), prior)
    case PathKind => PathGeometry(attrs, env, prior)
  }

  /** SVGTagPolyline.init: the list is split from the literal text
      "points", not from the attribute's value. */
  function PolylineGeometry(attrs: map<string, string>, env: Env, prior: Shape): (g: Geometry)
    ensures "points" !in attrs ==> g == Geometry(prior, Ok(None))
  {
    PolyGeometry("points", "points" in attrs, false, env, prior)
  }

  /** SVGTagLine.init, given the four values read: all are stored, then
      reported, which throws on a null. */
  function LineGeometry(x1: Option<Float>, y1: Option<Float>, x2: Option<Float>, y2: Option<Float>): (g: Geometry)
    ensures g.shape == LineShape(x1, y1, x2, y2)
    ensures g.report.Ok? <==> x1.Some? && y1.Some? && x2.Some? && y2.Some?
    ensures g.report.Ok? ==> g.report.value == Some(Box(x1.value, y1.value, x2.value, y2.value))
  {
    var b := BoxOf4(x1, y1, x2, y2);
    Geometry(LineShape(x1, y1, x2, y2), if b.Ok? then Ok(Some(b.value)) else Err(b.error))
  }

  /** SVGTagCircle.init, given cx, cy and r: all stored, then the box
      centre -/+ radius reported. */
  function CircleGeometry(cx: Option<Float>, cy: Option<Float>, r: Option<Float>): (g: Geometry)
    ensures g.shape == CircleShape(cx, cy, r)
  {
    var shape := CircleShape(cx, cy, r);
    if cx.None? || cy.None? || r.None? then Geometry(shape, Err(NullPointer))
    else Geometry(shape, Ok(Some(Box(Sub(cx.value, r.value), Sub(cy.value, r.value), Add(cx.value, r.value), Add(cy.value, r.value)))))
  }

  /** SVGTagEllipse.init, given cx, cy, rx and ry: nothing happens unless
      all four are present. */
  function EllipseGeometry(cx: Option<Float>, cy: Option<Float>, rx: Option<Float>, ry: Option<Float>, prior: Shape): (g: Geometry)
  {
    if cx.None? || cy.None? || rx.None? || ry.None? then Geometry(prior, Ok(None))
    else
      var oval := Box(Sub(cx.value, rx.value), Sub(cy.value, ry.value), Add(cx.value, rx.value), Add(cy.value, ry.value));
      Geometry(OvalShape(Some(oval)), Ok(Some(oval)))
  }

  /** SVGTagRect.init, given the six values read. */
  function RectGeometry(x: Option<Float>, y: Option<Float>, rx: Option<Float>, ry: Option<Float>,
                        width: Option<Float>, height: Option<Float>, prior: Shape): (g: Geometry)
    ensures g.shape.RectShape? && g.shape.h == height && g.shape.w == width
  {
    var prev := if prior.RectShape? then prior.bounds else None;
    if x.None? || y.None? || width.None? then Geometry(RectShape(x, y, rx, ry, width, height, prev), Err(NullPointer))
    else
      var b := Box(x.value, y.value, Add(x.value, width.value), Add(y.value, width.value));
      Geometry(RectShape(x, y, rx, ry, width, height, Some(b)), Ok(Some(b)))
  }

  function PathGeometry(attrs: map<string, string>, env: Env, prior: Shape): (g: Geometry)
  {
    if "d" !in attrs then Geometry(prior, Ok(None))
    else
      var d := attrs["d"];
      var ops := if |d| == 0 then Err(IndexOutOfBounds) else Paths.PathFrom(d, env.scale, Paths.Start(d));
      if ops.Err? then Geometry(prior, Err(ops.error))
      else Geometry(PathShape(Some(ops.value)), Ok(Some(env.pathBounds(ops.value))))
  }

  /** The text "points" read as a list of numbers: its first fragment
      "poin" ends at the terminator 't' and is no number. */
  lemma {:induction false} PointsLiteralIsNoList(parse: string -> Option<Float>, scale: Float)
    requires parse("poin").None?
    ensures ParseNumbersSpec(parse, "points", scale) == Err(NumberFormat)
  {
    var s := "points";
    assert s[1] == 'o' && s[2] == 'i' && s[3] == 'n' && s[4] == 't';
    PlainCharAdvances(parse, s, scale, 1);
    PlainCharAdvances(parse, s, scale, 2);
    PlainCharAdvances(parse, s, scale, 3);
    assert s[0..4] == "poin";
    assert !IsBlank("poin");
  }

  /** Float.parseFloat rejects "poin". */
  lemma PoinIsNoFloat()
    ensures JavaParseFloat("poin").None?
  {
    assert Trim("poin") == "poin";
    assert ParseDecimal("poin").None? by { assert DigitPrefix("poin") == 0; }
  }

  /** A character that neither ends the list nor separates numbers only
      extends the current fragment. */
  lemma PlainCharAdvances(parse: string -> Option<Float>, s: string, scale: Float, i: nat)
    requires 0 < i < |s| && !IsListTerminator(s[i]) && !IsListSeparator(s[i])
    ensures NumbersFrom(parse, s, scale, i, 0, false, []) == NumbersFrom(parse, s, scale, i + 1, 0, false, [])
  {
  }

  /** A polyline never reads its `points` attribute: it splits the literal
      text "points" instead, so whenever the attribute is present its init
      throws, whatever the points are. */
  lemma PolylineAlwaysThrows(attrs: map<string, string>, env: Env, prior: Shape)
    requires "points" in attrs
    requires env.parse("poin") == JavaParseFloat("poin")
    ensures PolylineGeometry(attrs, env, prior) == Geometry(prior, Err(NumberFormat))
  {
    PoinIsNoFloat();
    PointsLiteralIsNoList(env.parse, env.scale);
  }

  /** A polygon with an even number of at least two points becomes the
      path through them, closed, and reports that path's bounds; an odd
      count throws before the path is stored. */
  lemma PolygonIsClosedPath(attrs: map<string, string>, env: Env, w: Float, h: Float, prior: Shape, pts: seq<Float>)
    requires "points" in attrs && ParseNumbersSpec(env.parse, attrs["points"], env.scale) == Ok(pts) && |pts| > 1
    ensures var g := GeometryOf(PolygonKind, attrs, env, w, h, prior);
      if |pts| % 2 == 0 then
        g.shape.PathShape? && g.shape.path.Some? && g.shape.path.value[|g.shape.path.value| - 1] == Paths.Close
        && |g.shape.path.value| == |pts| / 2 + 1 && g.report == Ok(Some(env.pathBounds(g.shape.path.value)))
      else g == Geometry(prior, Err(IndexOutOfBounds))
  {
  }

  /** The rectangle reports a box whose bottom is y + width: its height
      plays no part in the box, only in drawing. */
  lemma RectBoxIgnoresHeight(x: real, y: real, wd: real, rx: Option<Float>, ry: Option<Float>, h1: Option<Float>, h2: Option<Float>, prior: Shape)
    ensures RectGeometry(Some(Fin(x)), Some(Fin(y)), rx, ry, Some(Fin(wd)), h1, prior).report == Ok(Some(Box(Fin(x), Fin(y), Fin(x + wd), Fin(y + wd))))
    ensures RectGeometry(Some(Fin(x)), Some(Fin(y)), rx, ry, Some(Fin(wd)), h1, prior).report ==
            RectGeometry(Some(Fin(x)), Some(Fin(y)), rx, ry, Some(Fin(wd)), h2, prior).report
  {
  }

  /** A rectangle whose x, y or width is null throws, with every field it
      read stored and its earlier bounds kept. */
  lemma RectNeedsOrigin(x: Option<Float>, y: Option<Float>, rx: Option<Float>, ry: Option<Float>,
                        width: Option<Float>, height: Option<Float>, prior: Shape)
    requires x.None? || y.None? || width.None?
    requires prior.RectShape?
    ensures RectGeometry(x, y, rx, ry, width, height, prior) == Geometry(RectShape(x, y, rx, ry, width, height, prior.bounds), Err(NullPointer))
  {
  }

  lemma FiniteDifference(a: real, b: real)
    ensures Sub(Fin(a), Fin(b)) == Fin(a - b)
  {
    assert Neg(Fin(b)) == Fin(-b);
  }

  /** The circle reports the square around it, and throws on any null. */
  lemma CircleBoxIsCentred(cx: real, cy: real, r: real)
    ensures CircleGeometry(Some(Fin(cx)), Some(Fin(cy)), Some(Fin(r))).report == Ok(Some(Box(Fin(cx - r), Fin(cy - r), Fin(cx + r), Fin(cy + r))))
    ensures CircleGeometry(Some(Fin(cx)), Some(Fin(cy)), None).report == Err(NullPointer)
  {
    FiniteDifference(cx, r);
    FiniteDifference(cy, r);
  }

  /** An ellipse never throws; missing any of its four values it keeps its
      fields and reports nothing, and otherwise the oval is what it reports. */
  lemma EllipseNeverThrows(cx: Option<Float>, cy: Option<Float>, rx: Option<Float>, ry: Option<Float>, prior: Shape)
    ensures EllipseGeometry(cx, cy, rx, ry, prior).report.Ok?
    ensures EllipseGeometry(cx, cy, rx, ry, prior).report.value.None? <==> cx.None? || cy.None? || rx.None? || ry.None?
    ensures EllipseGeometry(cx, cy, rx, ry, prior).report.value.None? ==> EllipseGeometry(cx, cy, rx, ry, prior).shape == prior
    ensures EllipseGeometry(cx, cy, rx, ry, prior).report.value.Some? ==>
      EllipseGeometry(cx, cy, rx, ry, prior).shape == OvalShape(EllipseGeometry(cx, cy, rx, ry, prior).report.value)
  {
  }

  /** The result of one element's init step: its new fields, the box it
      reported, and whether it completed or threw. */
  datatype Outcome = Outcome(state: Derived, report: Option<Box>, status: Result<bool>)

  /** initParams, after the geometry: the transform (a parse error throws
      before anything else is set), the StyleSet, display "none" from the
      plain attribute, then the fill paint and the stroke paint, each
      stored as soon as it is built. */
  function ParamsInit(attrs: map<string, string>, env: Env, shaderOf: string -> Option<Shader>, f0: Figure): (r: (Figure, Result<bool>))
    ensures r.1.Ok? ==> r.0.fill.Some? && r.0.fill.value.style == FillStyle
    ensures r.1.Ok? && r.0.stroke.Some? ==> r.0.stroke.value.style == StrokeStyle
    ensures "transform" !in attrs && r.1.Ok? ==> r.0.matrix == f0.matrix
    ensures r.0.shape == f0.shape
    ensures r.1.Ok? ==> (r.0.display <==> f0.display && !("display" in attrs && attrs["display"] == "none"))
    ensures r.1.Ok? && "style" in attrs ==> r.0.styles == Some(StyleMapOf(JavaSplit(attrs["style"], ';')))
    ensures r.1.Ok? ==> var get := (name: string) => StyleAttr(r.0.styles, attrs, name);
      FillPaint(get, env.parse, shaderOf) == Ok(r.0.fill.value) &&
      StrokePaintAsWritten(get, env.parse, env.scale) == Ok(r.0.stroke)
  {
    var m := if "transform" in attrs then TransformFrom(env.parse, attrs["transform"], env.scale, []) else Ok([]);
    if m.Err? then (f0, Err(m.error))
    else
      var f1 := f0.(
        matrix := if "transform" in attrs then Some(m.value) else f0.matrix,
        styles := if "style" in attrs then Some(StyleMapOf(JavaSplit(attrs["style"], ';'))) else f0.styles,
        display := if "display" in attrs && attrs["display"] == "none" then false else f0.display);
      var get := (name: string) => StyleAttr(f1.styles, attrs, name);
      match FillPaint(get, env.parse, shaderOf)
      case Err(e) => (f1, Err(e))
      case Ok(fill) =>
        var f2 := f1.(fill := Some(fill));
        match StrokePaintAsWritten(get, env.parse, env.scale)
        case Err(e) => (f2, Err(e))
        case Ok(stroke) => (f2.(stroke := stroke), Ok(true))
  }

  /** The init of a figure: geometry and its report, then initParams. */
  function FigureInit(k: Kind, attrs: map<string, string>, env: Env, w: Float, h: Float,
                      shaderOf: string -> Option<Shader>, prior: Figure): (o: Outcome)
    requires IsFigure(k)
    ensures o.state.FigureState?
    ensures o.status.Ok? ==> o.state.fig.fill.Some?
  {
    var g := GeometryOf(k, attrs, env, w, h, prior.shape);
    var f0 := prior.(shape := g.shape);
    if g.report.Err? then Outcome(FigureState(f0), None, Err(g.report.error))
    else
      var p := ParamsInit(attrs, env, shaderOf, f0);
      Outcome(FigureState(p.0), g.report.value, p.1)
  }

  /** SVGTagStop.init: the offset against a zero bound (so a percentage
      reads as 0), then the colour, cleared to 0 before the style is read;
      getColor's value is stored before stop-opacity is parsed. */
  function StopInit(attrs: map<string, string>, env: Env, prior: Derived): (o: Outcome)
    ensures o.report.None?
    ensures o.status.Ok? ==> o.state.StopState?
    ensures prior.StopState? ==> o.state.StopState?
    ensures "offset" !in attrs && "style" !in attrs ==> o == Outcome(StopState(Zero, 0), None, Ok(true))
    ensures FloatAttr(env.parse, attrs, "offset", Zero, env.scale).None? ==> o == Outcome(prior, None, Err(NullPointer))
    ensures FloatAttr(env.parse, attrs, "offset", Zero, env.scale).Some? ==>
      var style := if "style" in attrs then Some(attrs["style"]) else None;
      var sc := StopColor(env.parse, style);
      o.state == StopState(FloatAttr(env.parse, attrs, "offset", Zero, env.scale).value,
        if sc.Ok? then sc.value else StopColorStored(style)) &&
      (sc.Ok? ==> o.status == Ok(true)) && (sc.Err? ==> o.status == Err(sc.error))
  {
    match FloatAttr(env.parse, attrs, "offset", Zero, env.scale)
    case None => Outcome(prior, None, Err(NullPointer))
    case Some(off) =>
      match StopColor(env.parse, if "style" in attrs then Some(attrs["style"]) else None)
      case Ok(c) => Outcome(StopState(off, c), None, Ok(true))
      case Err(e) => Outcome(StopState(off, StopColorStored(if "style" in attrs then Some(attrs["style"]) else None)), None, Err(e))
  }

  /** A stop-opacity that Float.parseFloat rejects throws after getColor's
      value has been stored in the colour field. */
  lemma StopOpacityErrorKeepsColor(attrs: map<string, string>, env: Env, prior: Derived, off: Float, c: Argb)
    requires FloatAttr(env.parse, attrs, "offset", Zero, env.scale) == Some(off) && "style" in attrs
    requires var m := StyleMapOf(JavaSplit(attrs["style"], ';'));
      GetColor(if "stop-color" in m then Some(m["stop-color"]) else None) == Ok(c) &&
      "stop-opacity" in m && env.parse(m["stop-opacity"]).None?
    ensures StopInit(attrs, env, prior) == Outcome(StopState(off, c), None, Err(NumberFormat))
  {
  }

  /** A stop whose stop-opacity parses stores getColor's value with
      Math.round(255 * stop-opacity) OR-ed into the top byte. */
  lemma StopOpacityInTopByte(attrs: map<string, string>, env: Env, prior: Derived, off: Float, c: Argb, a: Float)
    requires FloatAttr(env.parse, attrs, "offset", Zero, env.scale) == Some(off) && "style" in attrs
    requires var m := StyleMapOf(JavaSplit(attrs["style"], ';'));
      GetColor(if "stop-color" in m then Some(m["stop-color"]) else None) == Ok(c) &&
      "stop-opacity" in m && env.parse(m["stop-opacity"]) == Some(a)
    ensures StopInit(attrs, env, prior) == Outcome(StopState(off, c | TopByte(JavaRound(Mul(Fin(255.0), a)))), None, Ok(true))
  {
  }

  /** A stop with a style but no stop-opacity stores getColor's value made
      opaque by OR-ing in 0xFF000000. */
  lemma StopWithoutOpacityIsOpaque(attrs: map<string, string>, env: Env, prior: Derived, off: Float, c: Argb)
    requires FloatAttr(env.parse, attrs, "offset", Zero, env.scale) == Some(off) && "style" in attrs
    requires var m := StyleMapOf(JavaSplit(attrs["style"], ';'));
      GetColor(if "stop-color" in m then Some(m["stop-color"]) else None) == Ok(c) && "stop-opacity" !in m
    ensures StopInit(attrs, env, prior) == Outcome(StopState(off, c | 0xFF00_0000), None, Ok(true))
  {
  }

  /** SVG.init: width and height against a zero bound, rounded up, taken
      only when both parse. */
  function RootInit(attrs: map<string, string>, env: Env, prior: Derived): (d: Derived)
    requires prior.RootState?
    ensures d.RootState?
    ensures "width" !in attrs && "height" !in attrs ==> d == RootState(0, 0)
  {
    var wf := FloatAttr(env.parse, attrs, "width", Zero, env.scale);
    var hf := FloatAttr(env.parse, attrs, "height", Zero, env.scale);
    if wf.Some? && hf.Some? then RootState(JavaToInt(Ceil(wf.value)), JavaToInt(Ceil(hf.value)))
    else prior
  }

  /** The size taken is the smallest whole number at or above each
      non-negative length read. */
  lemma RootSizeIsCeiling(attrs: map<string, string>, env: Env, prior: Derived, a: real, b: real)
    requires prior.RootState?
    requires FloatAttr(env.parse, attrs, "width", Zero, env.scale) == Some(Fin(a))
    requires FloatAttr(env.parse, attrs, "height", Zero, env.scale) == Some(Fin(b))
    requires 0.0 <= a && 0.0 <= b && a + 1.0 < IntMax as real && b + 1.0 < IntMax as real
    ensures var d := RootInit(attrs, env, prior);
      a <= d.width as real < a + 1.0 && b <= d.height as real < b + 1.0
  {
    var cw, ch := Ceil(Fin(a)), Ceil(Fin(b));
    assert JavaToInt(cw) == cw.r.Floor;
    assert JavaToInt(ch) == ch.r.Floor;
  }

  /** SVGTagG.init: display "none" hides the group; nothing shows it again. */
  function GroupInit(attrs: map<string, string>, prior: Derived): (d: Derived)
    requires prior.GroupState?
    ensures d.GroupState?
    ensures d.display <==> prior.display && !("display" in attrs && attrs["display"] == "none")
  {
    if "display" in attrs && attrs["display"] == "none" then GroupState(false) else prior
  }
}
