/** Drawing the document: the calls each element makes on an
    android.graphics.Canvas, recorded as a list of commands.  The root and
    every element without a draw of its own draw their children in order;
    a hidden group or figure draws nothing, itself or below; a figure wraps
    its own drawData in save/concat/restore when it has a transform, then
    draws its children outside that transform. */
module Drawing {
  import opened Base
  import opened Floats
  import Paths
  import opened Transform
  import opened Colors
  import opened Tree
  import opened Figures

  /** The Canvas calls the decoder makes. */
  datatype Cmd =
    | Save
    | Concat(matrix: Matrix)
    | Restore
    | DrawLine(x1: Float, y1: Float, x2: Float, y2: Float, paint: Paint)
    | DrawPath(path: seq<Paths.PathOp>, paint: Paint)
    | DrawCircle(cx: Float, cy: Float, radius: Float, paint: Paint)
    | DrawOval(oval: Box, paint: Paint)
    | DrawRect(left: Float, top: Float, right: Float, bottom: Float, paint: Paint)
    | DrawRoundRect(rect: Box, rx: Float, ry: Float, paint: Paint)

  /** A call that paints, as opposed to one that changes the transform. */
  predicate IsDraw(c: Cmd)
  {
    !(c.Save? || c.Concat? || c.Restore?)
  }

  /** The calls made, and whether the draw completed or threw. */
  datatype Drawn = Drawn(cmds: seq<Cmd>, status: Result<bool>)

  const Nothing: Drawn := Drawn([], Ok(true))

  /** android.graphics.Canvas as a record of the calls made on it. */
  class Canvas {
    var ops: seq<Cmd>

    constructor ()
      ensures ops == []
    {
      ops := [];
    }

    method Record(cmds: seq<Cmd>)
      modifies this
      ensures ops == old(ops) + cmds
    {
      ops := ops + cmds;
    }
  }

  /** SVGTagRect.drawData for one paint: `rx <= 0 && ry <= 0` picks
      drawRect(x, y, x + width, y + height), anything else
      drawRoundRect(bounds, rx, ry).  Every operand is a boxed Float or a
      reference, and unboxing a null throws. */
  function RectCmd(s: Shape, paint: Paint): (r: Result<Cmd>)
    requires s.RectShape?
    ensures r.Ok? ==> (r.value.DrawRect? || r.value.DrawRoundRect?) && r.value.paint == paint
    ensures s.rx.None? || s.ry.None? ==> r == Err(NullPointer)
  {
    if s.rx.None? then Err(NullPointer)
    else if Le(s.rx.value, Zero) && s.ry.Some? && Le(s.ry.value, Zero) then
      if s.x.None? || s.y.None? || s.w.None? || s.h.None? then Err(NullPointer)
      else Ok(DrawRect(s.x.value, s.y.value, Add(s.x.value, s.w.value), Add(s.y.value, s.h.value), paint))
    else if s.ry.None? || s.bounds.None? then Err(NullPointer)
    else Ok(DrawRoundRect(s.bounds.value, s.rx.value, s.ry.value, paint))
  }

  /** The call a figure makes to draw its shape with one paint. */
  function ShapeCmd(s: Shape, paint: Paint): (r: Result<Cmd>)
    ensures r.Ok? ==> IsDraw(r.value) && r.value.paint == paint
  {
    match s
    case LineShape(x1, y1, x2, y2) =>
      if x1.Some? && y1.Some? && x2.Some? && y2.Some? then Ok(DrawLine(x1.value, y1.value, x2.value, y2.value, paint))
      else Err(NullPointer)
    case PathShape(path) => if path.Some? then Ok(DrawPath(path.value, paint)) else Err(NullPointer)
    case CircleShape(cx, cy, r) =>
      if cx.Some? && cy.Some? && r.Some? then Ok(DrawCircle(cx.value, cy.value, r.value, paint))
      else Err(NullPointer)
    case OvalShape(oval) => if oval.Some? then Ok(DrawOval(oval.value, paint)) else Err(NullPointer)
    case RectShape(_, _, _, _, _, _, _) => RectCmd(s, paint)
  }

  /** `if (paint != null) c.drawX(..., paint)`. */
  function WithPaint(s: Shape, paint: Option<Paint>): (d: Drawn)
    ensures |d.cmds| <= 1
    ensures d.status.Err? ==> d.cmds == []
    ensures forall c :: c in d.cmds ==> IsDraw(c) && Some(c.paint) == paint
  {
    if paint.None? then Nothing
    else match ShapeCmd(s, paint.value)
      case Ok(c) => Drawn([c], Ok(true))
      case Err(e) => Drawn([], Err(e))
  }

  /** The fill paint's call, then the stroke paint's. */
  function FillThenStroke(s: Shape, fill: Option<Paint>, stroke: Option<Paint>): Drawn
  {
    var a := WithPaint(s, fill);
    if a.status.Err? then a
    else
      var b := WithPaint(s, stroke);
      Drawn(a.cmds + b.cmds, b.status)
  }

  /** drawData of each figure class:
      - line: only stroked, and only when all four coordinates are set;
      - polyline, polygon, path: the path, when there is one;
      - circle: `radius != 0f` unboxes the radius, so a null one throws;
      - ellipse: the oval, when there is one;
      - rect: always, through RectCmd.
      Every call made uses the fill paint or the stroke paint, and when
      both are used the fill comes first. */
  function DrawData(f: Figure): (d: Drawn)
    ensures |d.cmds| <= 2
    ensures forall c :: c in d.cmds ==> IsDraw(c) && (Some(c.paint) == f.fill || Some(c.paint) == f.stroke)
    ensures |d.cmds| == 2 ==> IsDraw(d.cmds[0]) && IsDraw(d.cmds[1]) && Some(d.cmds[0].paint) == f.fill && Some(d.cmds[1].paint) == f.stroke
    ensures f.shape.LineShape? ==> forall c :: c in d.cmds ==> IsDraw(c) && Some(c.paint) == f.stroke
  {
    match f.shape
    case LineShape(x1, y1, x2, y2) =>
      if x1.Some? && y1.Some? && x2.Some? && y2.Some? then WithPaint(f.shape, f.stroke) else Nothing
    case PathShape(path) => if path.Some? then FillThenStroke(f.shape, f.fill, f.stroke) else Nothing
    case CircleShape(_, _, r) =>
      if r.None? then Drawn([], Err(NullPointer))
      else if r.value == Zero then Nothing
      else FillThenStroke(f.shape, f.fill, f.stroke)
    case OvalShape(oval) => if oval.Some? then FillThenStroke(f.shape, f.fill, f.stroke) else Nothing
    case RectShape(_, _, _, _, _, _, _) => FillThenStroke(f.shape, f.fill, f.stroke)
  }

  /** `if (matrix != null) { c.save(); c.concat(matrix); }` */
  function Opening(m: Option<Matrix>): seq<Cmd>
  {
    if m.Some? then [Save, Concat(m.value)] else []
  }

  /** `if (matrix != null) c.restore();` */
  function Closing(m: Option<Matrix>): seq<Cmd>
  {
    if m.Some? then [Restore] else []
  }

  /** draw() of element i, with `derived` the fields init left. */
  function DrawNode(nodes: seq<Node>, derived: seq<Derived>, i: nat): Drawn
    requires i < |nodes| && |derived| == |nodes|
    decreases |nodes| - i, 1, 0
  {
    var d := derived[i];
    if nodes[i].kind == GroupKind && d.GroupState? && !d.display then Nothing
    else if IsFigure(nodes[i].kind) && d.FigureState? then
      var f := d.fig;
      if !f.display then Nothing
      else
        var data := DrawData(f);
        if data.status.Err? then Drawn(Opening(f.matrix) + data.cmds, data.status)
        else
          var kids := DrawKids(nodes, derived, i, nodes[i].children);
          Drawn(Opening(f.matrix) + data.cmds + Closing(f.matrix) + kids.cmds, kids.status)
    else DrawKids(nodes, derived, i, nodes[i].children)
  }

  /** SVGElement.draw: each child's draw in order, stopping at the first
      exception. */
  function DrawKids(nodes: seq<Node>, derived: seq<Derived>, i: nat, kids: seq<nat>): Drawn
    requires i < |nodes| && |derived| == |nodes|
    decreases |nodes| - i, 0, |kids|
  {
    if |kids| == 0 then Nothing
    else
      var c := kids[0];
      if !(i < c < |nodes|) then DrawKids(nodes, derived, i, kids[1..])
      else
        var first := DrawNode(nodes, derived, c);
        if first.status.Err? then first
        else
          var rest := DrawKids(nodes, derived, i, kids[1..]);
          Drawn(first.cmds + rest.cmds, rest.status)
  }

  // ---------------------------------------------------------------------
  // save and restore

  /** Saves minus restores. */
  function Depth(s: seq<Cmd>): int
  {
    if |s| == 0 then 0
    else Depth(s[..|s| - 1]) + (if s[|s| - 1].Save? then 1 else if s[|s| - 1].Restore? then -1 else 0)
  }

  /** Starting `d` saves deep, no prefix of `s` restores more than it has. */
  predicate NestedFrom(d: int, s: seq<Cmd>)
  {
    forall k :: 0 <= k <= |s| ==> d + Depth(s[..k]) >= 0
  }

  lemma {:induction false} DepthAppend(a: seq<Cmd>, b: seq<Cmd>)
    ensures Depth(a + b) == Depth(a) + Depth(b)
    decreases |b|
  {
    if |b| == 0 {
      assert a + b == a;
    } else {
      var n := |b| - 1;
      assert (a + b)[..|a + b| - 1] == a + b[..n];
      DepthAppend(a, b[..n]);
    }
  }

  lemma NestedAppend(d: int, a: seq<Cmd>, b: seq<Cmd>)
    requires NestedFrom(d, a) && NestedFrom(d + Depth(a), b)
    ensures NestedFrom(d, a + b)
  {
    forall k | 0 <= k <= |a + b|
      ensures d + Depth((a + b)[..k]) >= 0
    {
      if k <= |a| {
        assert (a + b)[..k] == a[..k];
      } else {
        assert (a + b)[..k] == a + b[..k - |a|];
        DepthAppend(a, b[..k - |a|]);
      }
    }
  }

  /** Calls that paint leave the save depth alone. */
  lemma {:induction false} DrawsAreFlat(s: seq<Cmd>)
    requires forall c :: c in s ==> IsDraw(c)
    ensures Depth(s) == 0 && NestedFrom(0, s)
    decreases |s|
  {
    if |s| > 0 {
      DrawsAreFlat(s[..|s| - 1]);
      assert s[|s| - 1] in s;
    }
    forall k | 0 <= k <= |s|
      ensures Depth(s[..k]) >= 0
    {
      if k < |s| {
        assert forall c :: c in s[..k] ==> c in s;
        DrawsAreFlat(s[..k]);
      } else {
        assert s[..k] == s;
      }
    }
  }

  /** A figure's own calls between its save and restore, followed by its
      children's. */
  lemma WrappedNested(m: Option<Matrix>, data: seq<Cmd>, kids: seq<Cmd>)
    requires Depth(data) == 0 && NestedFrom(0, data)
    ensures NestedFrom(0, Opening(m) + data)
    ensures NestedFrom(0, kids) ==> NestedFrom(0, Opening(m) + data + Closing(m) + kids)
    ensures Depth(Opening(m) + data + Closing(m) + kids) == Depth(kids)
  {
    var pre, post := Opening(m), Closing(m);
    assert Depth(pre) == (if m.Some? then 1 else 0) by {
      if m.Some? { assert pre[..1] == [Save]; assert [Save][..0] == []; }
    }
    assert NestedFrom(0, pre) by {
      if m.Some? {
        assert pre[..1] == [Save] && pre[..2] == pre && pre[..0] == [];
        assert [Save][..0] == [];
      }
    }
    assert NestedFrom(Depth(pre), post) && Depth(post) == -Depth(pre) by {
      if m.Some? { assert post[..1] == post && post[..0] == [] && post[..|post| - 1] == []; }
    }
    NestedAppend(0, pre, data);
    DepthAppend(pre, data);
    NestedAppend(0, pre + data, post);
    DepthAppend(pre + data, post);
    if NestedFrom(0, kids) {
      NestedAppend(0, pre + data + post, kids);
    }
    DepthAppend(pre + data + post, kids);
  }

  /** The canvas is never restored more often than it was saved, and a
      draw that completes restores every save it made; one that throws can
      leave a figure's save open. */
  lemma {:induction false} DrawNodeNested(nodes: seq<Node>, derived: seq<Derived>, i: nat)
    requires i < |nodes| && |derived| == |nodes|
    ensures NestedFrom(0, DrawNode(nodes, derived, i).cmds)
    ensures DrawNode(nodes, derived, i).status.Ok? ==> Depth(DrawNode(nodes, derived, i).cmds) == 0
    decreases |nodes| - i, 1, 0
  {
    var d := derived[i];
    if nodes[i].kind == GroupKind && d.GroupState? && !d.display {
      assert NestedFrom(0, []);
    } else if IsFigure(nodes[i].kind) && d.FigureState? {
      var f := d.fig;
      if !f.display {
        assert NestedFrom(0, []);
      } else {
        var data := DrawData(f);
        DrawsAreFlat(data.cmds);
        if data.status.Ok? {
          DrawKidsNested(nodes, derived, i, nodes[i].children);
        }
        WrappedNested(f.matrix, data.cmds, DrawKids(nodes, derived, i, nodes[i].children).cmds);
      }
    } else {
      DrawKidsNested(nodes, derived, i, nodes[i].children);
    }
  }

  lemma {:induction false} DrawKidsNested(nodes: seq<Node>, derived: seq<Derived>, i: nat, kids: seq<nat>)
    requires i < |nodes| && |derived| == |nodes|
    ensures NestedFrom(0, DrawKids(nodes, derived, i, kids).cmds)
    ensures DrawKids(nodes, derived, i, kids).status.Ok? ==> Depth(DrawKids(nodes, derived, i, kids).cmds) == 0
    decreases |nodes| - i, 0, |kids|
  {
    if |kids| == 0 {
      assert NestedFrom(0, []);
    } else {
      var c := kids[0];
      if !(i < c < |nodes|) {
        DrawKidsNested(nodes, derived, i, kids[1..]);
      } else {
        DrawNodeNested(nodes, derived, c);
        var first := DrawNode(nodes, derived, c);
        if first.status.Ok? {
          var rest := DrawKids(nodes, derived, i, kids[1..]);
          DrawKidsNested(nodes, derived, i, kids[1..]);
          NestedAppend(0, first.cmds, rest.cmds);
          DepthAppend(first.cmds, rest.cmds);
        }
      }
    }
  }

  /** A group or figure with display "none" draws nothing, and nothing
      below it is drawn either. */
  lemma HiddenDrawsNothing(nodes: seq<Node>, derived: seq<Derived>, i: nat)
    requires i < |nodes| && |derived| == |nodes|
    requires (nodes[i].kind == GroupKind && derived[i] == GroupState(false)) ||
             (IsFigure(nodes[i].kind) && derived[i].FigureState? && !derived[i].fig.display)
    ensures DrawNode(nodes, derived, i) == Drawn([], Ok(true))
  {
  }

  /** A figure with a transform draws itself inside save/concat/restore and
      its children after the restore, outside its transform. */
  lemma ChildrenOutsideTransform(nodes: seq<Node>, derived: seq<Derived>, i: nat, m: Matrix)
    requires i < |nodes| && |derived| == |nodes| && IsFigure(nodes[i].kind) && derived[i].FigureState?
    requires derived[i].fig.display && derived[i].fig.matrix == Some(m) && DrawData(derived[i].fig).status.Ok?
    ensures DrawNode(nodes, derived, i).cmds ==
      [Save, Concat(m)] + DrawData(derived[i].fig).cmds + [Restore] + DrawKids(nodes, derived, i, nodes[i].children).cmds
    ensures DrawNode(nodes, derived, i).status == DrawKids(nodes, derived, i, nodes[i].children).status
  {
  }

  /** DrawNode of a displayed figure, unfolded once. */
  lemma ShownFigureDraw(nodes: seq<Node>, derived: seq<Derived>, i: nat)
    requires i < |nodes| && |derived| == |nodes| && IsFigure(nodes[i].kind) && derived[i].FigureState? && derived[i].fig.display
    ensures var f := derived[i].fig;
      var data, kids := DrawData(f), DrawKids(nodes, derived, i, nodes[i].children);
      DrawNode(nodes, derived, i) ==
        if data.status.Err? then Drawn(Opening(f.matrix) + data.cmds, data.status)
        else Drawn(Opening(f.matrix) + data.cmds + Closing(f.matrix) + kids.cmds, kids.status)
  {
  }

  /** Elements without a draw of their own (the root, gradients, stops,
      animate and generic elements) draw exactly their children. */
  lemma OthersDrawChildren(nodes: seq<Node>, derived: seq<Derived>, i: nat)
    requires i < |nodes| && |derived| == |nodes|
    requires nodes[i].kind in {SvgKind, LinearKind, RadialKind, StopKind, AnimateKind, PlainKind}
    ensures DrawNode(nodes, derived, i) == DrawKids(nodes, derived, i, nodes[i].children)
  {
  }

  /** A circle whose radius never parsed throws when drawn, even with no
      paint at all; one of radius 0 draws nothing. */
  lemma CircleRadiusChecks(cx: Option<Float>, cy: Option<Float>, f: Figure)
    ensures DrawData(f.(shape := CircleShape(cx, cy, None))) == Drawn([], Err(NullPointer))
    ensures DrawData(f.(shape := CircleShape(cx, cy, Some(Zero)))) == Drawn([], Ok(true))
  {
  }

  /** A rectangle with both corner radii at most 0 is drawn with its
      height, although the box init reported used its width twice. */
  lemma RectDrawUsesHeight(x: Float, y: Float, rx: Float, ry: Float, w: Float, h: Float, b: Option<Box>, f: Figure)
    requires Le(rx, Zero) && Le(ry, Zero) && f.fill.Some?
    requires f.shape == RectShape(Some(x), Some(y), Some(rx), Some(ry), Some(w), Some(h), b)
    ensures DrawData(f).cmds[0] == DrawRect(x, y, Add(x, w), Add(y, h), f.fill.value)
  {
  }

  /** A rectangle missing a corner radius throws as soon as it is painted. */
  lemma RectNeedsRadii(f: Figure)
    requires f.shape.RectShape? && (f.shape.rx.None? || f.shape.ry.None?)
    ensures f.fill.Some? || f.stroke.Some? ==> DrawData(f) == Drawn([], Err(NullPointer))
    ensures f.fill.None? && f.stroke.None? ==> DrawData(f) == Drawn([], Ok(true))
  {
  }

  // ---------------------------------------------------------------------
  // the draw traversal on a canvas

  /** draw(c) of element i. */
  method DrawElement(nodes: seq<Node>, derived: seq<Derived>, i: nat, c: Canvas) returns (st: Result<bool>)
    requires i < |nodes| && |derived| == |nodes|
    modifies c
    ensures c.ops == old(c.ops) + DrawNode(nodes, derived, i).cmds && st == DrawNode(nodes, derived, i).status
    decreases |nodes| - i, 2
  {
    var d := derived[i];
    if nodes[i].kind == GroupKind && d.GroupState? && !d.display {
      return Ok(true);
    }
    if IsFigure(nodes[i].kind) && d.FigureState? {
      if !d.fig.display {
        return Ok(true);
      }
      st := DrawShownFigure(nodes, derived, i, c);
    } else {
      st := DrawChildren(nodes, derived, i, c);
    }
  }

  /** SVGFigure.draw of a displayed figure: its own drawing, then, when
      that did not fail, its children's. */
  method DrawShownFigure(nodes: seq<Node>, derived: seq<Derived>, i: nat, c: Canvas) returns (st: Result<bool>)
    requires i < |nodes| && |derived| == |nodes|
    requires IsFigure(nodes[i].kind) && derived[i].FigureState? && derived[i].fig.display
    modifies c
    ensures c.ops == old(c.ops) + DrawNode(nodes, derived, i).cmds && st == DrawNode(nodes, derived, i).status
    decreases |nodes| - i, 1
  {
    ShownFigureDraw(nodes, derived, i);
    var f := derived[i].fig;
    st := DrawFigure(f, c);
    if st.Err? {
      return;
    }
    ghost var own := Opening(f.matrix) + DrawData(f).cmds + Closing(f.matrix);
    st := DrawChildren(nodes, derived, i, c);
    CmdsAssoc(old(c.ops), own, DrawKids(nodes, derived, i, nodes[i].children).cmds);
  }

  lemma CmdsAssoc(a: seq<Cmd>, b: seq<Cmd>, c: seq<Cmd>)
    ensures a + b + c == a + (b + c)
  {
  }

  /** A figure's own part of draw(c): save and concat its matrix when it
      has one, drawData, then restore. */
  method DrawFigure(f: Figure, c: Canvas) returns (st: Result<bool>)
    modifies c
    ensures st == DrawData(f).status
    ensures c.ops == old(c.ops) + (Opening(f.matrix) + DrawData(f).cmds + (if st.Ok? then Closing(f.matrix) else []))
  {
    var open := Opening(f.matrix);
    c.Record(open);
    var data := DrawData(f);
    c.Record(data.cmds);
    CmdsAssoc(old(c.ops), open, data.cmds);
    if data.status.Err? {
      return data.status;
    }
    var close := Closing(f.matrix);
    c.Record(close);
    CmdsAssoc(old(c.ops), open + data.cmds, close);
    st := Ok(true);
  }

  /** SVGElement.draw: draw(c) of each child in order. */
  method DrawChildren(nodes: seq<Node>, derived: seq<Derived>, i: nat, c: Canvas) returns (st: Result<bool>)
    requires i < |nodes| && |derived| == |nodes|
    modifies c
    ensures c.ops == old(c.ops) + DrawKids(nodes, derived, i, nodes[i].children).cmds
    ensures st == DrawKids(nodes, derived, i, nodes[i].children).status
    decreases |nodes| - i, 0
  {
    var kids := nodes[i].children;
    var j := 0;
    assert kids[0..] == kids;
    while j < |kids|
      invariant 0 <= j <= |kids|
      invariant c.ops + DrawKids(nodes, derived, i, kids[j..]).cmds == old(c.ops) + DrawKids(nodes, derived, i, kids).cmds
      invariant DrawKids(nodes, derived, i, kids[j..]).status == DrawKids(nodes, derived, i, kids).status
    {
      var k := kids[j];
      ghost var rest := DrawKids(nodes, derived, i, kids[j + 1..]);
      assert kids[j..][1..] == kids[j + 1..];
      if i < k < |nodes| {
        ghost var before := c.ops;
        ghost var first := DrawNode(nodes, derived, k);
        assert DrawKids(nodes, derived, i, kids[j..]) == if first.status.Err? then first else Drawn(first.cmds + rest.cmds, rest.status);
        var s := DrawElement(nodes, derived, k, c);
        if s.Err? {
          return s;
        }
        CmdsAssoc(before, first.cmds, rest.cmds);
      } else {
        assert DrawKids(nodes, derived, i, kids[j..]) == rest;
      }
      j := j + 1;
    }
    st := Ok(true);
  }
}
