/** Linear and radial gradients: the Gradient record a gradient element
    registers (its gradientRef), the merge with a referenced gradient
    (createChild) and the shader built from the merged result. */
module Gradients {
  import opened Base
  import opened Floats
  import opened Transform
  import opened Style
  import opened Colors

  /** The decoder's Gradient record.  Java's float fields start at 0, so a
      linear gradient has a zero centre and radius and a radial one zero
      end points. */
  datatype Gradient = Gradient(
    id: Option<string>,
    xlink: Option<string>,
    isLinear: bool,
    x1: Float, y1: Float, x2: Float, y2: Float,
    x: Float, y: Float, radius: Float,
    positions: seq<Float>,
    colors: seq<Argb>,
    matrix: Option<Matrix>)

  /** The geometry a gradient contributes: end points and centre/radius. */
  function Geometry(g: Gradient): seq<Float>
  {
    [g.x1, g.y1, g.x2, g.y2, g.x, g.y, g.radius]
  }

  /** The factors of an optional matrix, none standing for the identity. */
  function Factors(m: Option<Matrix>): Matrix
  {
    if m.Some? then m.value else []
  }

  /** createChild, called on the referenced gradient `recv` with the
      referring gradient `g`: identity and geometry come from `g`, the
      stops from `recv`, the link points at `recv`, and the transform is
      `recv`'s followed by `g`'s. */
  function CreateChild(recv: Gradient, g: Gradient): (c: Gradient)
    ensures c.id == g.id && c.isLinear == g.isLinear && Geometry(c) == Geometry(g)
    ensures c.xlink == recv.id
    ensures c.positions == recv.positions && c.colors == recv.colors
    ensures Factors(c.matrix) == Factors(recv.matrix) + Factors(g.matrix)
    ensures c.matrix.None? <==> recv.matrix.None? && g.matrix.None?
  {
    var m :=
      if g.matrix.None? then recv.matrix
      else if recv.matrix.None? then g.matrix
      else Some(recv.matrix.value + g.matrix.value);
    Gradient(g.id, recv.id, g.isLinear, g.x1, g.y1, g.x2, g.y2, g.x, g.y, g.radius,
      recv.positions, recv.colors, m)
  }

  /** The `href` attribute, else `xlink:href`, without a leading '#'. */
  function Xlink(attrs: map<string, string>): (l: Option<string>)
    ensures "href" !in attrs && "xlink:href" !in attrs ==> l.None?
    ensures "href" in attrs && !StartsWith(attrs["href"], "#") ==> l == Some(attrs["href"])
  {
    var h := if "href" in attrs then Some(attrs["href"]) else if "xlink:href" in attrs then Some(attrs["xlink:href"]) else None;
    match h
    case None => None
    case Some(s) => if StartsWith(s, "#") then Some(s[1..]) else Some(s)
  }

  /** `#id` and `id` name the same gradient. */
  lemma HashIsDropped(attrs: map<string, string>, id: string)
    requires "href" in attrs && attrs["href"] == "#" + id
    ensures Xlink(attrs) == Some(id)
  {
    var s := "#" + id;
    assert StartsWith(s, "#") && s[1..] == id;
  }

  /** One merge step of init: when the link resolves, createChild on the
      referenced gradient. */
  function Merge(g: Gradient, refById: string -> Option<Gradient>): (m: Gradient)
    ensures g.xlink.None? || refById(g.xlink.value).None? ==> m == g
    ensures g.xlink.Some? && refById(g.xlink.value).Some? ==> m == CreateChild(refById(g.xlink.value).value, g)
  {
    if g.xlink.Some? && refById(g.xlink.value).Some? then CreateChild(refById(g.xlink.value).value, g) else g
  }

  /** The shader init builds: geometry and matrix from `g`, colours and
      positions from the arrays copied earlier.  Android's constructors
      throw on fewer than two colours, on arrays of different lengths and
      on a radius that is not positive; init catches the exception and
      keeps no shader. */
  function ShaderFor(g: Gradient, colors: seq<Argb>, positions: seq<Float>): (s: Option<Shader>)
    ensures s.Some? <==> |colors| >= 2 && |colors| == |positions| && (g.isLinear || !Le(g.radius, Zero))
    ensures s.Some? && g.isLinear ==> s.value == LinearShader(g.x1, g.y1, g.x2, g.y2, colors, positions, g.matrix)
    ensures s.Some? && !g.isLinear ==> s.value == RadialShader(g.x, g.y, g.radius, colors, positions, g.matrix)
  {
    if |colors| < 2 || |colors| != |positions| then None
    else if g.isLinear then Some(LinearShader(g.x1, g.y1, g.x2, g.y2, colors, positions, g.matrix))
    else if Le(g.radius, Zero) then None
    else Some(RadialShader(g.x, g.y, g.radius, colors, positions, g.matrix))
  }

  /** The shader of a gradient with an id: merge, copy the stop arrays,
      merge again, build. */
  function ShaderOf(g: Gradient, refById: string -> Option<Gradient>): Option<Shader>
  {
    var once := Merge(g, refById);
    var twice := Merge(once, refById);
    ShaderFor(twice, once.colors, once.positions)
  }

  /** What a gradient element's init leaves behind: the gradientRef it
      registers (None when it returned before registering) and its shader. */
  datatype GradientState = GradientState(ref: Option<Gradient>, shader: Option<Shader>)

  /** The geometry read from the attributes: x1, x2 against the width and
      y1, y2 against the height for a linear gradient; cx against the
      width, cy against the height and r against the width for a radial
      one.  A value that does not parse is unboxed into a float field and
      throws. */
  function ReadGeometry(isLinear: bool, attrs: map<string, string>, w: Float, h: Float, parse: string -> Option<Float>, scale: Float): (r: Result<seq<Float>>)
    ensures r.Ok? ==> |r.value| == 3 + (if isLinear then 1 else 0)
    ensures r.Err? ==> r.error == NullPointer
    ensures isLinear ==>
      (r.Ok? <==> FloatAttr(parse, attrs, "x1", w, scale).Some? && FloatAttr(parse, attrs, "x2", w, scale).Some? &&
                  FloatAttr(parse, attrs, "y1", h, scale).Some? && FloatAttr(parse, attrs, "y2", h, scale).Some?)
    ensures isLinear && r.Ok? ==>
      r.value == [FloatAttr(parse, attrs, "x1", w, scale).value, FloatAttr(parse, attrs, "x2", w, scale).value,
                  FloatAttr(parse, attrs, "y1", h, scale).value, FloatAttr(parse, attrs, "y2", h, scale).value]
    ensures !isLinear ==>
      (r.Ok? <==> FloatAttr(parse, attrs, "cx", w, scale).Some? && FloatAttr(parse, attrs, "cy", h, scale).Some? &&
                  FloatAttr(parse, attrs, "r", w, scale).Some?)
    ensures !isLinear && r.Ok? ==>
      r.value == [FloatAttr(parse, attrs, "cx", w, scale).value, FloatAttr(parse, attrs, "cy", h, scale).value,
                  FloatAttr(parse, attrs, "r", w, scale).value]
  {
    var a := FloatAttr(parse, attrs, if isLinear then "x1" else "cx", w, scale);
    var b := if isLinear then FloatAttr(parse, attrs, "x2", w, scale) else FloatAttr(parse, attrs, "cy", h, scale);
    var c := if isLinear then FloatAttr(parse, attrs, "y1", h, scale) else FloatAttr(parse, attrs, "r", w, scale);
    var d := if isLinear then FloatAttr(parse, attrs, "y2", h, scale) else Some(Zero);
    if a.None? || b.None? || c.None? || d.None? then Err(NullPointer)
    else if isLinear then Ok([a.value, b.value, c.value, d.value])
    else Ok([a.value, b.value, c.value])
  }

  /** init of a gradient element up to `this.gradientRef = gradient`, after
      its stops (offset, colour) have been initialised: the geometry, the
      transform and the link read, and the stop arrays filled.  `w` and `h`
      are the document size.  A radial gradient whose radius reads as zero
      returns before registering anything (None). */
  function RegisterGradient(isLinear: bool, attrs: map<string, string>, stops: seq<(Float, Argb)>, w: Float, h: Float,
                            parse: string -> Option<Float>, scale: Float): (r: Result<Option<Gradient>>)
    ensures r.Ok? && r.value.Some? ==>
      r.value.value.isLinear == isLinear && r.value.value.xlink == Xlink(attrs) &&
      r.value.value.id == (if "id" in attrs then Some(attrs["id"]) else None) &&
      r.value.value.positions == seq(|stops|, i requires 0 <= i < |stops| => stops[i].0) &&
      r.value.value.colors == seq(|stops|, i requires 0 <= i < |stops| => stops[i].1)
    ensures r.Ok? && r.value.None? ==> !isLinear
    ensures r.Ok? && r.value.Some? && isLinear ==>
      var g := r.value.value;
      ReadGeometry(isLinear, attrs, w, h, parse, scale).Ok? &&
      [g.x1, g.x2, g.y1, g.y2] == ReadGeometry(isLinear, attrs, w, h, parse, scale).value &&
      g.x == Zero && g.y == Zero && g.radius == Zero
    ensures r.Ok? && r.value.Some? && !isLinear ==>
      var g := r.value.value;
      ReadGeometry(isLinear, attrs, w, h, parse, scale).Ok? &&
      [g.x, g.y, g.radius] == ReadGeometry(isLinear, attrs, w, h, parse, scale).value &&
      g.x1 == Zero && g.y1 == Zero && g.x2 == Zero && g.y2 == Zero
    ensures r.Ok? && r.value.Some? ==>
      ("gradientTransform" in attrs ==>
        r.value.value.matrix.Some? &&
        TransformFrom(parse, attrs["gradientTransform"], scale, []) == Ok(r.value.value.matrix.value)) &&
      ("gradientTransform" !in attrs ==> r.value.value.matrix.None?)
    ensures r.Ok? && r.value.None? <==>
      !isLinear && ReadGeometry(isLinear, attrs, w, h, parse, scale).Ok? &&
      ReadGeometry(isLinear, attrs, w, h, parse, scale).value[2] == Fin(0.0)
    ensures ReadGeometry(isLinear, attrs, w, h, parse, scale).Err? ==> r == Err(NullPointer)
    ensures (ReadGeometry(isLinear, attrs, w, h, parse, scale).Ok? &&
             (isLinear || ReadGeometry(isLinear, attrs, w, h, parse, scale).value[2] != Fin(0.0))) ==>
      ("gradientTransform" in attrs && TransformFrom(parse, attrs["gradientTransform"], scale, []).Err? <==> r.Err?) &&
      (r.Err? ==> r.error == NumberFormat)
  {
    match ReadGeometry(isLinear, attrs, w, h, parse, scale)
    case Err(e) => Err(e)
    case Ok(v) =>
      if !isLinear && v[2] == Fin(0.0) then Ok(None)
      else
        var m := if "gradientTransform" in attrs then TransformFrom(parse, attrs["gradientTransform"], scale, []) else Ok([]);
        if m.Err? then Err(m.error)
        else
          Ok(Some(Gradient(
            if "id" in attrs then Some(attrs["id"]) else None,
            Xlink(attrs), isLinear,
            if isLinear then v[0] else Zero, if isLinear then v[2] else Zero,
            if isLinear then v[1] else Zero, if isLinear then v[3] else Zero,
            if isLinear then Zero else v[0], if isLinear then Zero else v[1], if isLinear then Zero else v[2],
            seq(|stops|, i requires 0 <= i < |stops| => stops[i].0),
            seq(|stops|, i requires 0 <= i < |stops| => stops[i].1),
            if "gradientTransform" in attrs then Some(m.value) else None)))
  }

  /** The rest of init, for a registered gradient: the shader, built only
      when the gradient has an id. */
  function ShaderIfNamed(ref: Option<Gradient>, refById: string -> Option<Gradient>): Option<Shader>
  {
    if ref.Some? && ref.value.id.Some? then ShaderOf(ref.value, refById) else None
  }

  /** A gradient that links to a registered one takes that gradient's
      stops and drops its own. */
  lemma LinkTakesReferencedStops(g: Gradient, refById: string -> Option<Gradient>, p: Gradient)
    requires g.xlink.Some? && refById(g.xlink.value) == Some(p)
    ensures Merge(g, refById).colors == p.colors && Merge(g, refById).positions == p.positions
    ensures Merge(g, refById).id == g.id && Geometry(Merge(g, refById)) == Geometry(g)
  {
  }

  /** Since init merges twice and the second lookup goes through the
      referenced gradient's own id, the referenced transform ends up
      applied twice before the gradient's own. */
  lemma {:induction false} SecondMergeRepeatsTransform(g: Gradient, refById: string -> Option<Gradient>, p: Gradient)
    requires g.xlink.Some? && refById(g.xlink.value) == Some(p) && p.id == g.xlink
    ensures Factors(Merge(Merge(g, refById), refById).matrix) == Factors(p.matrix) + Factors(p.matrix) + Factors(g.matrix)
    ensures Merge(Merge(g, refById), refById).colors == p.colors
  {
    var once := Merge(g, refById);
    assert once == CreateChild(p, g);
    assert once.xlink == g.xlink;
    assert Merge(once, refById) == CreateChild(p, once);
  }

  /** Without a resolvable link the gradient is used as registered. */
  lemma UnlinkedShaderUsesOwnStops(g: Gradient, refById: string -> Option<Gradient>)
    requires g.xlink.None?
    ensures ShaderOf(g, refById) == ShaderFor(g, g.colors, g.positions)
  {
  }

  /** A gradient with fewer than two stops, and nothing to borrow stops
      from, yields no shader. */
  lemma OneStopNoShader(g: Gradient, refById: string -> Option<Gradient>)
    requires g.xlink.None? && |g.colors| < 2
    ensures ShaderOf(g, refById).None?
  {
  }

  /** A radial gradient whose radius reads as zero returns before it
      registers itself, so nothing can find it. */
  lemma ZeroRadiusIsNotRegistered(attrs: map<string, string>, stops: seq<(Float, Argb)>, w: Float, h: Float,
                                  parse: string -> Option<Float>, scale: Float)
    requires "r" !in attrs
    requires FloatAttr(parse, attrs, "cx", w, scale).Some? && FloatAttr(parse, attrs, "cy", h, scale).Some?
    ensures RegisterGradient(false, attrs, stops, w, h, parse, scale) == Ok(None)
  {
  }
}
