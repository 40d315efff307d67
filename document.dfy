/** The document after parsing: the bounding box the root accumulates
    (SVG.setBounds), the lookups the root answers by searching its
    descendants (getElementById, getGradientRefById, getGradientById), the
    size elements measure against (getWidth, getHeight), and init, the pass
    that fills in each element's derived fields. */
module Document {
  import opened Base
  import opened Floats
  import opened Colors
  import opened Gradients
  import opened Tree
  import opened Figures

  // ---------------------------------------------------------------------
  // The bounding box

  /** The box a fresh root holds: x1, y1 at positive and x2, y2 at
      negative infinity, so the first box reported replaces it. */
  const EmptyBox: Box := Box(PosInf, PosInf, NegInf, NegInf)

  /** `if (x < cur) cur = x`: Java's float comparison, false on a NaN. */
  function Lower(cur: Float, x: Float): Float
  {
    if Lt(x, cur) then x else cur
  }

  /** `if (x > cur) cur = x`. */
  function Upper(cur: Float, x: Float): Float
  {
    if Lt(cur, x) then x else cur
  }

  /** SVG.setBounds(x1, y1, x2, y2) with the reported rectangle `r`
      (left x1, top y1, right x2, bottom y2). */
  function Widen(b: Box, r: Box): Box
  {
    Box(Lower(b.left, r.left), Lower(b.top, r.top), Upper(b.right, r.right), Upper(b.bottom, r.bottom))
  }

  predicate NoNaN(b: Box)
  {
    !b.left.NaN? && !b.top.NaN? && !b.right.NaN? && !b.bottom.NaN?
  }

  /** `outer` reaches at least as far as `b` on every side. */
  predicate Encloses(outer: Box, b: Box)
  {
    Le(outer.left, b.left) && Le(outer.top, b.top) && Le(b.right, outer.right) && Le(b.bottom, outer.bottom)
  }

  /** `outer` reaches at least as far as every coordinate of `r` that is a
      number. */
  predicate Covers(outer: Box, r: Box)
  {
    (!r.left.NaN? ==> Le(outer.left, r.left)) && (!r.top.NaN? ==> Le(outer.top, r.top)) &&
    (!r.right.NaN? ==> Le(r.right, outer.right)) && (!r.bottom.NaN? ==> Le(r.bottom, outer.bottom))
  }

  /** One setBounds never shrinks the box, never stores a NaN, and leaves a
      box that covers the rectangle reported; each side is either kept or
      taken from the report. */
  lemma WidenGrows(b: Box, r: Box)
    requires NoNaN(b)
    ensures NoNaN(Widen(b, r)) && Encloses(Widen(b, r), b) && Covers(Widen(b, r), r)
    ensures Widen(b, r).left in {b.left, r.left} && Widen(b, r).top in {b.top, r.top}
    ensures Widen(b, r).right in {b.right, r.right} && Widen(b, r).bottom in {b.bottom, r.bottom}
  {
    if !r.left.NaN? { LtTotalOnNumbers(r.left, b.left); }
    if !r.top.NaN? { LtTotalOnNumbers(r.top, b.top); }
    if !r.right.NaN? { LtTotalOnNumbers(b.right, r.right); }
    if !r.bottom.NaN? { LtTotalOnNumbers(b.bottom, r.bottom); }
  }

  lemma EnclosesTrans(a: Box, b: Box, c: Box)
    requires Encloses(a, b) && Encloses(b, c)
    ensures Encloses(a, c)
  {
    LeTransitive(a.left, b.left, c.left);
    LeTransitive(a.top, b.top, c.top);
    LeTransitive(c.right, b.right, a.right);
    LeTransitive(c.bottom, b.bottom, a.bottom);
  }

  lemma CoversWider(a: Box, b: Box, r: Box)
    requires Encloses(a, b) && Covers(b, r)
    ensures Covers(a, r)
  {
    if !r.left.NaN? { LeTransitive(a.left, b.left, r.left); }
    if !r.top.NaN? { LeTransitive(a.top, b.top, r.top); }
    if !r.right.NaN? { LeTransitive(r.right, b.right, a.right); }
    if !r.bottom.NaN? { LeTransitive(r.bottom, b.bottom, a.bottom); }
  }

  /** The box after setBounds with each rectangle of `rs` in turn. */
  function Bounds(b: Box, rs: seq<Box>): Box
  {
    if |rs| == 0 then b else Widen(Bounds(b, rs[..|rs| - 1]), rs[|rs| - 1])
  }

  /** Each side of `out` is the starting one or that of some report. */
  predicate Attained(out: Box, b: Box, rs: seq<Box>)
  {
    (out.left == b.left || exists k :: 0 <= k < |rs| && out.left == rs[k].left) &&
    (out.top == b.top || exists k :: 0 <= k < |rs| && out.top == rs[k].top) &&
    (out.right == b.right || exists k :: 0 <= k < |rs| && out.right == rs[k].right) &&
    (out.bottom == b.bottom || exists k :: 0 <= k < |rs| && out.bottom == rs[k].bottom)
  }

  /** The accumulated box is the componentwise minimum (x1, y1) and
      maximum (x2, y2) of the starting box and every rectangle reported,
      NaN coordinates aside: it covers each of them and each of its sides
      is one of theirs. */
  lemma {:induction false} BoundsAreExtremes(b: Box, rs: seq<Box>)
    requires NoNaN(b)
    ensures NoNaN(Bounds(b, rs)) && Encloses(Bounds(b, rs), b)
    ensures forall k :: 0 <= k < |rs| ==> Covers(Bounds(b, rs), rs[k])
    ensures Attained(Bounds(b, rs), b, rs)
    decreases |rs|
  {
    if |rs| > 0 {
      var n := |rs| - 1;
      var prev := Bounds(b, rs[..n]);
      BoundsAreExtremes(b, rs[..n]);
      WidenGrows(prev, rs[n]);
      EnclosesTrans(Bounds(b, rs), prev, b);
      forall k | 0 <= k < n
        ensures Covers(Bounds(b, rs), rs[k])
      {
        assert rs[..n][k] == rs[k];
        CoversWider(Bounds(b, rs), prev, rs[k]);
      }
      var out := Bounds(b, rs);
      if out.left != rs[n].left && out.left != b.left {
        var k :| 0 <= k < n && prev.left == rs[..n][k].left;
        assert out.left == rs[k].left;
      }
      if out.top != rs[n].top && out.top != b.top {
        var k :| 0 <= k < n && prev.top == rs[..n][k].top;
        assert out.top == rs[k].top;
      }
      if out.right != rs[n].right && out.right != b.right {
        var k :| 0 <= k < n && prev.right == rs[..n][k].right;
        assert out.right == rs[k].right;
      }
      if out.bottom != rs[n].bottom && out.bottom != b.bottom {
        var k :| 0 <= k < n && prev.bottom == rs[..n][k].bottom;
        assert out.bottom == rs[k].bottom;
      }
    }
  }

  // ---------------------------------------------------------------------
  // Lookups by id

  /** The test searchElementById applies: an `id` attribute equal to `id`. */
  function HasId(nodes: seq<Node>, id: string): nat -> bool
  {
    (k: nat) => k < |nodes| && "id" in nodes[k].attrs && nodes[k].attrs["id"] == id
  }

  /** getElementById: the first descendant of the root, in pre-order,
      whose `id` attribute is `id`. */
  function ElementById(nodes: seq<Node>, id: string): (r: Option<nat>)
    ensures r.Some? ==> r.value < |nodes| && "id" in nodes[r.value].attrs && nodes[r.value].attrs["id"] == id
  {
    Search(nodes, 0, HasId(nodes, id))
  }

  /** The test searchGradientById applies: a gradient element whose
      registered gradientRef has the id `id` (getGradientRef(id) != null). */
  function HasRef(derived: seq<Derived>, id: string): nat -> bool
  {
    (k: nat) => k < |derived| && derived[k].GradState? && derived[k].grad.ref.Some? && derived[k].grad.ref.value.id == Some(id)
  }

  /** getGradientRefById, with `derived` the fields as they stand. */
  function RefLookup(nodes: seq<Node>, derived: seq<Derived>): string -> Option<Gradient>
  {
    (id: string) =>
      var f := Search(nodes, 0, HasRef(derived, id));
      if f.Some? then derived[f.value].grad.ref else None
  }

  /** getGradientById: the shader of the same element. */
  function ShaderLookup(nodes: seq<Node>, derived: seq<Derived>): string -> Option<Shader>
  {
    (id: string) =>
      var f := Search(nodes, 0, HasRef(derived, id));
      if f.Some? then derived[f.value].grad.shader else None
  }

  /** A gradient found by id has that id, and belongs to the first element
      in pre-order below the root that registered a gradient under it; no
      gradient is found exactly when no such element exists. */
  lemma RefLookupIsFirst(nodes: seq<Node>, derived: seq<Derived>, id: string)
    ensures RefLookup(nodes, derived)(id).Some? ==> RefLookup(nodes, derived)(id).value.id == Some(id)
    ensures RefLookup(nodes, derived)(id).None? <==>
      forall j :: 0 <= j < |Descendants(nodes, 0)| ==> !HasRef(derived, id)(Descendants(nodes, 0)[j])
    ensures RefLookup(nodes, derived)(id).Some? ==>
      exists j :: 0 <= j < |Descendants(nodes, 0)| && HasRef(derived, id)(Descendants(nodes, 0)[j]) &&
        derived[Descendants(nodes, 0)[j]].grad.ref == RefLookup(nodes, derived)(id) &&
        forall m :: 0 <= m < j ==> !HasRef(derived, id)(Descendants(nodes, 0)[m])
  {
    SearchIsFirstInPreorder(nodes, 0, HasRef(derived, id));
    FirstInMeaning(Descendants(nodes, 0), HasRef(derived, id));
  }

  /** getElementById finds the first element in pre-order with that id,
      and nothing when none has it. */
  lemma ElementByIdIsFirst(nodes: seq<Node>, id: string)
    ensures ElementById(nodes, id).None? <==>
      forall j :: 0 <= j < |Descendants(nodes, 0)| ==> !HasId(nodes, id)(Descendants(nodes, 0)[j])
    ensures ElementById(nodes, id).Some? ==>
      exists j :: 0 <= j < |Descendants(nodes, 0)| && Descendants(nodes, 0)[j] == ElementById(nodes, id).value &&
        forall m :: 0 <= m < j ==> !HasId(nodes, id)(Descendants(nodes, 0)[m])
  {
    SearchIsFirstInPreorder(nodes, 0, HasId(nodes, id));
    FirstInMeaning(Descendants(nodes, 0), HasId(nodes, id));
  }

  /** A gradient linking to one that the root finds by id always gets that
      gradient's transform twice: the second lookup goes through the id of
      the gradient found, which is the link itself. */
  lemma LookupRepeatsTransform(nodes: seq<Node>, derived: seq<Derived>, g: Gradient, p: Gradient)
    requires g.xlink.Some? && RefLookup(nodes, derived)(g.xlink.value) == Some(p)
    ensures Factors(Merge(Merge(g, RefLookup(nodes, derived)), RefLookup(nodes, derived)).matrix) ==
      Factors(p.matrix) + Factors(p.matrix) + Factors(g.matrix)
  {
    RefLookupIsFirst(nodes, derived, g.xlink.value);
    SecondMergeRepeatsTransform(g, RefLookup(nodes, derived), p);
  }

  // ---------------------------------------------------------------------
  // The size elements measure against

  /** SvgDecoder.getWidth: the document's width, or the decoder's own when
      the document's is 0. */
  function DocWidth(derived: seq<Derived>, env: Env): (w: int)
    ensures |derived| > 0 && derived[0].RootState? && derived[0].width != 0 ==> w == derived[0].width
    ensures w != env.width ==> |derived| > 0 && derived[0].RootState? && w == derived[0].width
  {
    if |derived| > 0 && derived[0].RootState? && derived[0].width != 0 then derived[0].width else env.width
  }

  /** SvgDecoder.getHeight, likewise. */
  function DocHeight(derived: seq<Derived>, env: Env): (h: int)
    ensures |derived| > 0 && derived[0].RootState? && derived[0].height != 0 ==> h == derived[0].height
    ensures h != env.height ==> |derived| > 0 && derived[0].RootState? && h == derived[0].height
  {
    if |derived| > 0 && derived[0].RootState? && derived[0].height != 0 then derived[0].height else env.height
  }

  // ---------------------------------------------------------------------
  // init

  /** The fields an element of class `k` has: what init may set for it. */
  predicate Shaped(k: Kind, d: Derived)
  {
    match k
    case SvgKind => d.RootState?
    case GroupKind => d.GroupState?
    case StopKind => d.StopState?
    case LinearKind => d.GradState?
    case RadialKind => d.GradState?
    case AnimateKind => d.PlainState?
    case PlainKind => d.PlainState?
    case _ => d.FigureState?
  }

  lemma BlankIsShaped(k: Kind)
    ensures Shaped(k, Blank(k))
  {
  }

  /** Every element's fields are those of its class. */
  predicate AllShaped(nodes: seq<Node>, derived: seq<Derived>)
  {
    |derived| == |nodes| && forall k :: 0 <= k < |nodes| ==> Shaped(nodes[k].kind, derived[k])
  }

  /** What init works on: every element's fields and the root's box. */
  datatype Pass = Pass(derived: seq<Derived>, box: Box)

  predicate IsGradient(k: Kind)
  {
    k == LinearKind || k == RadialKind
  }

  /** The part of init an element other than a gradient does before its
      children's: the root's size, a group's display flag, a stop's offset
      and colour, a figure's geometry (reported to the root) and
      initParams.  Animate elements and generic ones have nothing of their
      own. */
  function OwnStep(nodes: seq<Node>, env: Env, i: nat, derived: seq<Derived>): (o: Outcome)
    requires i < |nodes| && |derived| == |nodes|
    ensures Shaped(nodes[i].kind, derived[i]) ==> Shaped(nodes[i].kind, o.state)
    ensures !IsFigure(nodes[i].kind) ==> o.report.None?
    ensures nodes[i].kind in {GroupKind, AnimateKind, PlainKind, LinearKind, RadialKind} ==> o.status.Ok?
  {
    var k := nodes[i].kind;
    var attrs := nodes[i].attrs;
    var d := derived[i];
    match k
    case SvgKind => Outcome(if d.RootState? then RootInit(attrs, env, d) else d, None, Ok(true))
    case GroupKind => Outcome(if d.GroupState? then GroupInit(attrs, d) else d, None, Ok(true))
    case StopKind => StopInit(attrs, env, d)
    case AnimateKind => Outcome(d, None, Ok(true))
    case PlainKind => Outcome(d, None, Ok(true))
    case LinearKind => Outcome(d, None, Ok(true))
    case RadialKind => Outcome(d, None, Ok(true))
    case _ =>
      var w := IntToFloat(DocWidth(derived, env));
      var h := IntToFloat(DocHeight(derived, env));
      FigureInit(k, attrs, env, w, h, ShaderLookup(nodes, derived), if d.FigureState? then d.fig else Blank(k).fig)
  }

  /** The (offset, colour) of each stop among `kids`, in child order. */
  function StopsOf(nodes: seq<Node>, derived: seq<Derived>, kids: seq<nat>): seq<(Float, Argb)>
  {
    if |kids| == 0 then []
    else
      var c := kids[|kids| - 1];
      StopsOf(nodes, derived, kids[..|kids| - 1]) +
        (if c < |nodes| && c < |derived| && nodes[c].kind == StopKind && derived[c].StopState?
         then [(derived[c].offset, derived[c].color)] else [])
  }

  /** What an earlier init left in a gradient element's fields. */
  function GradPrior(d: Derived): GradientState
  {
    if d.GradState? then d.grad else GradientState(None, None)
  }

  /** The gradient element i registers: read from its own attributes and
      stops against the document size, before any merge. */
  function OwnGradient(nodes: seq<Node>, env: Env, i: nat, p: Pass): Result<Option<Gradient>>
    requires i < |nodes| && |p.derived| == |nodes|
  {
    RegisterGradient(nodes[i].kind == LinearKind, nodes[i].attrs, StopsOf(nodes, p.derived, nodes[i].children),
      IntToFloat(DocWidth(p.derived, env)), IntToFloat(DocHeight(p.derived, env)), env.parse, env.scale)
  }

  /** The init of a gradient element after its children's: the stops are
      read, the gradient registered as gradientRef, then the shader built
      with the root's lookups, which by then see this registration.  A
      radial gradient whose radius reads as zero returns first and keeps
      what an earlier init left. */
  function GradientStep(nodes: seq<Node>, env: Env, i: nat, p: Pass): (r: (Pass, Result<bool>))
    requires i < |nodes| && |p.derived| == |nodes|
    ensures |r.0.derived| == |nodes| && r.0.box == p.box
    ensures r.0.derived == p.derived[i := r.0.derived[i]] && r.0.derived[i].GradState?
    ensures var rg := OwnGradient(nodes, env, i, p);
      (rg.Err? ==> r.1 == Err(rg.error) && r.0.derived[i] == GradState(GradPrior(p.derived[i]))) &&
      (rg == Ok(None) ==> r.1 == Ok(true) && r.0.derived[i] == GradState(GradPrior(p.derived[i]))) &&
      (rg.Ok? && rg.value.Some? ==>
        r.1 == Ok(true) && r.0.derived[i].grad.ref == rg.value &&
        r.0.derived[i].grad.shader ==
          ShaderIfNamed(rg.value, RefLookup(nodes, p.derived[i := GradState(GradPrior(p.derived[i]).(ref := rg.value))])))
  {
    var w := IntToFloat(DocWidth(p.derived, env));
    var h := IntToFloat(DocHeight(p.derived, env));
    var stops := StopsOf(nodes, p.derived, nodes[i].children);
    var prior := GradPrior(p.derived[i]);
    match RegisterGradient(nodes[i].kind == LinearKind, nodes[i].attrs, stops, w, h, env.parse, env.scale)
    case Err(e) => (Pass(p.derived[i := GradState(prior)], p.box), Err(e))
    case Ok(None) => (Pass(p.derived[i := GradState(prior)], p.box), Ok(true))
    case Ok(ref) =>
      var registered := p.derived[i := GradState(prior.(ref := ref))];
      (Pass(p.derived[i := GradState(GradientState(ref, ShaderIfNamed(ref, RefLookup(nodes, registered))))], p.box), Ok(true))
  }

  /** The gradientRef a gradient registers is the gradient as read, before
      any merge with the one it links to; the shader is built only when the
      gradient has an id. */
  lemma RegisteredBeforeMerge(nodes: seq<Node>, env: Env, i: nat, p: Pass, g: Gradient)
    requires i < |nodes| && |p.derived| == |nodes|
    ensures OwnGradient(nodes, env, i, p) == Ok(Some(g)) ==>
      var registered := p.derived[i := GradState(GradPrior(p.derived[i]).(ref := Some(g)))];
      GradientStep(nodes, env, i, p).1 == Ok(true) &&
      GradientStep(nodes, env, i, p).0.derived[i].grad.ref == Some(g) &&
      (g.id.None? ==> GradientStep(nodes, env, i, p).0.derived[i].grad.shader.None?) &&
      (g.id.Some? ==> GradientStep(nodes, env, i, p).0.derived[i].grad.shader == ShaderOf(g, RefLookup(nodes, registered)))
  {
  }

  /** init() of element i: a gradient initialises its children first and
      then itself; every other element does its own step first, the box it
      reports going to the root's setBounds, then its children's.  An
      exception ends the pass, with whatever was set so far kept. */
  function InitNode(nodes: seq<Node>, env: Env, i: nat, p: Pass): (r: (Pass, Result<bool>))
    requires i < |nodes| && |p.derived| == |nodes|
    ensures |r.0.derived| == |nodes|
    decreases |nodes| - i, 1, 0
  {
    if IsGradient(nodes[i].kind) then
      var kids := InitKids(nodes, env, i, nodes[i].children, p);
      if kids.1.Err? then kids else GradientStep(nodes, env, i, kids.0)
    else
      var o := OwnStep(nodes, env, i, p.derived);
      var p1 := Pass(p.derived[i := o.state], if o.report.Some? then Widen(p.box, o.report.value) else p.box);
      if o.status.Err? then (p1, o.status) else InitKids(nodes, env, i, nodes[i].children, p1)
  }

  /** SVGElement.init: each child's init in order, stopping at the first
      exception. */
  function InitKids(nodes: seq<Node>, env: Env, i: nat, kids: seq<nat>, p: Pass): (r: (Pass, Result<bool>))
    requires i < |nodes| && |p.derived| == |nodes|
    ensures |r.0.derived| == |nodes|
    decreases |nodes| - i, 0, |kids|
  {
    if |kids| == 0 then (p, Ok(true))
    else
      var c := kids[0];
      if !(i < c < |nodes|) then InitKids(nodes, env, i, kids[1..], p)
      else
        var first := InitNode(nodes, env, c, p);
        if first.1.Err? then first else InitKids(nodes, env, i, kids[1..], first.0)
  }

  /** One child of InitKids: skipped when out of range, otherwise its init,
      which ends the list on an exception. */
  lemma InitKidsStep(nodes: seq<Node>, env: Env, i: nat, kids: seq<nat>, p: Pass)
    requires i < |nodes| && |p.derived| == |nodes| && |kids| > 0
    ensures !(i < kids[0] < |nodes|) ==> InitKids(nodes, env, i, kids, p) == InitKids(nodes, env, i, kids[1..], p)
    ensures i < kids[0] < |nodes| && InitNode(nodes, env, kids[0], p).1.Err? ==>
      InitKids(nodes, env, i, kids, p) == InitNode(nodes, env, kids[0], p)
    ensures i < kids[0] < |nodes| && InitNode(nodes, env, kids[0], p).1.Ok? ==>
      InitKids(nodes, env, i, kids, p) == InitKids(nodes, env, i, kids[1..], InitNode(nodes, env, kids[0], p).0)
  {
  }

  /** init leaves every element with the fields of its class. */
  lemma {:induction false} InitNodeShaped(nodes: seq<Node>, env: Env, i: nat, p: Pass)
    requires i < |nodes| && AllShaped(nodes, p.derived)
    ensures AllShaped(nodes, InitNode(nodes, env, i, p).0.derived)
    decreases |nodes| - i, 1, 0
  {
    if IsGradient(nodes[i].kind) {
      InitKidsShaped(nodes, env, i, nodes[i].children, p);
    } else {
      var o := OwnStep(nodes, env, i, p.derived);
      var p1 := Pass(p.derived[i := o.state], if o.report.Some? then Widen(p.box, o.report.value) else p.box);
      assert AllShaped(nodes, p1.derived);
      if o.status.Ok? {
        InitKidsShaped(nodes, env, i, nodes[i].children, p1);
      }
    }
  }

  lemma {:induction false} InitKidsShaped(nodes: seq<Node>, env: Env, i: nat, kids: seq<nat>, p: Pass)
    requires i < |nodes| && AllShaped(nodes, p.derived)
    ensures AllShaped(nodes, InitKids(nodes, env, i, kids, p).0.derived)
    decreases |nodes| - i, 0, |kids|
  {
    if |kids| > 0 {
      var c := kids[0];
      if !(i < c < |nodes|) {
        InitKidsShaped(nodes, env, i, kids[1..], p);
      } else {
        InitNodeShaped(nodes, env, c, p);
        var first := InitNode(nodes, env, c, p);
        if first.1.Ok? {
          InitKidsShaped(nodes, env, i, kids[1..], first.0);
        }
      }
    }
  }

  /** init only ever widens the root's box, and never puts a NaN in it. */
  lemma {:induction false} InitNodeWidens(nodes: seq<Node>, env: Env, i: nat, p: Pass)
    requires i < |nodes| && |p.derived| == |nodes| && NoNaN(p.box)
    ensures NoNaN(InitNode(nodes, env, i, p).0.box) && Encloses(InitNode(nodes, env, i, p).0.box, p.box)
    decreases |nodes| - i, 1, 0
  {
    if IsGradient(nodes[i].kind) {
      InitKidsWiden(nodes, env, i, nodes[i].children, p);
    } else {
      var o := OwnStep(nodes, env, i, p.derived);
      var p1 := Pass(p.derived[i := o.state], if o.report.Some? then Widen(p.box, o.report.value) else p.box);
      if o.report.Some? {
        WidenGrows(p.box, o.report.value);
      } else {
        assert Encloses(p.box, p.box);
      }
      if o.status.Ok? {
        InitKidsWiden(nodes, env, i, nodes[i].children, p1);
        EnclosesTrans(InitNode(nodes, env, i, p).0.box, p1.box, p.box);
      }
    }
  }

  lemma {:induction false} InitKidsWiden(nodes: seq<Node>, env: Env, i: nat, kids: seq<nat>, p: Pass)
    requires i < |nodes| && |p.derived| == |nodes| && NoNaN(p.box)
    ensures NoNaN(InitKids(nodes, env, i, kids, p).0.box) && Encloses(InitKids(nodes, env, i, kids, p).0.box, p.box)
    decreases |nodes| - i, 0, |kids|
  {
    if |kids| == 0 {
      assert Encloses(p.box, p.box);
    } else {
      var c := kids[0];
      if !(i < c < |nodes|) {
        InitKidsWiden(nodes, env, i, kids[1..], p);
      } else {
        InitNodeWidens(nodes, env, c, p);
        var first := InitNode(nodes, env, c, p);
        if first.1.Ok? {
          InitKidsWiden(nodes, env, i, kids[1..], first.0);
          EnclosesTrans(InitKids(nodes, env, i, kids, p).0.box, first.0.box, p.box);
        }
      }
    }
  }

  /** init of an element touches no element created before it: only the
      element itself and those after it in document order can change. */
  lemma {:induction false} InitNodeFrame(nodes: seq<Node>, env: Env, i: nat, p: Pass)
    requires i < |nodes| && |p.derived| == |nodes|
    ensures forall k :: 0 <= k < i ==> InitNode(nodes, env, i, p).0.derived[k] == p.derived[k]
    decreases |nodes| - i, 1, 0
  {
    if IsGradient(nodes[i].kind) {
      InitKidsFrame(nodes, env, i, nodes[i].children, p);
    } else {
      var o := OwnStep(nodes, env, i, p.derived);
      var p1 := Pass(p.derived[i := o.state], if o.report.Some? then Widen(p.box, o.report.value) else p.box);
      if o.status.Ok? {
        InitKidsFrame(nodes, env, i, nodes[i].children, p1);
      }
    }
  }

  lemma {:induction false} InitKidsFrame(nodes: seq<Node>, env: Env, i: nat, kids: seq<nat>, p: Pass)
    requires i < |nodes| && |p.derived| == |nodes|
    ensures forall k :: 0 <= k <= i ==> InitKids(nodes, env, i, kids, p).0.derived[k] == p.derived[k]
    decreases |nodes| - i, 0, |kids|
  {
    if |kids| > 0 {
      var c := kids[0];
      if !(i < c < |nodes|) {
        InitKidsFrame(nodes, env, i, kids[1..], p);
      } else {
        InitNodeFrame(nodes, env, c, p);
        var first := InitNode(nodes, env, c, p);
        if first.1.Ok? {
          InitKidsFrame(nodes, env, i, kids[1..], first.0);
        }
      }
    }
  }

  /** The size every element below the root measures against is fixed
      once the root's own step is done: nothing below the root changes
      the root's fields. */
  lemma SizeFixedBelowRoot(nodes: seq<Node>, env: Env, i: nat, p: Pass)
    requires 0 < i < |nodes| && |p.derived| == |nodes|
    ensures DocWidth(InitNode(nodes, env, i, p).0.derived, env) == DocWidth(p.derived, env)
    ensures DocHeight(InitNode(nodes, env, i, p).0.derived, env) == DocHeight(p.derived, env)
  {
    InitNodeFrame(nodes, env, i, p);
  }
}
