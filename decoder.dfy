/** SvgDecoder and its document: the tree of elements it parses, kept as an
    arena of nodes (node 0 is the SVG root, `frame`), the fields init
    fills in for each element, the bounds the root accumulates, and the
    cached list of animations. */
module Decoding {
  import opened Base
  import opened Floats
  import opened Colors
  import opened Gradients
  import opened Tree
  import opened Markup
  import opened Arena
  import opened Figures
  import opened Document
  import opened Drawing

  /** The fields of elements `from` onwards of `ns` as their constructors
      leave them. */
  function Blanks(ns: seq<Node>, from: nat): (ds: seq<Derived>)
    requires from <= |ns|
    ensures |ds| == |ns| - from
    ensures forall k :: 0 <= k < |ds| ==> ds[k] == Blank(ns[from + k].kind)
  {
    seq(|ns| - from, k requires 0 <= k < |ns| - from => Blank(ns[from + k].kind))
  }

  /** parse(InputStream) on the events `ev`: nextTag, parseElements for the
      `svg` tag into the root, then init of the whole document.  The
      exception that ends it, if any, is caught and logged, so whatever was
      built so far stays: the result holds the arena, the fields and the
      box, and the exception or Ok. */
  function Parsed(ev: seq<Event>, nodes: seq<Node>, derived: seq<Derived>, box: Box, env: Env): (r: (seq<Node>, Pass, Result<bool>))
    requires 0 < |nodes| && |derived| == |nodes|
    ensures |r.1.derived| == |r.0| && |nodes| <= |r.0|
    ensures NextTag(ev, 0).None? ==> r == (nodes, Pass(derived, box), Err(Structural))
  {
    match NextTag(ev, 0)
    case None => (nodes, Pass(derived, box), Err(Structural))
    case Some(k) =>
      var (ns, pr) := Elements(ev, k, "svg", 0, nodes);
      var ds := derived + Blanks(ns, |nodes|);
      if pr.Err? then (ns, Pass(ds, box), Err(pr.error))
      else
        var (p, st) := InitNode(ns, env, 0, Pass(ds, box));
        (ns, p, st)
  }

  /** parseElements never changes the class of an element already there. */
  lemma ElementsKeepKinds(ev: seq<Event>, i: nat, tag: string, node: nat, ns: seq<Node>)
    requires i < |ev| && node < |ns|
    ensures forall k :: 0 <= k < |ns| ==> Elements(ev, i, tag, node, ns).0[k].kind == ns[k].kind
  {
    ElementsFacts(ev, i, tag, node, ns);
  }

  /** Parsing keeps a well-formed tree whose every element has the fields
      of its class. */
  lemma ParsedIsShaped(ev: seq<Event>, nodes: seq<Node>, derived: seq<Derived>, box: Box, env: Env)
    requires 0 < |nodes| && TreeOk(nodes) && AllShaped(nodes, derived)
    ensures TreeOk(Parsed(ev, nodes, derived, box, env).0)
    ensures AllShaped(Parsed(ev, nodes, derived, box, env).0, Parsed(ev, nodes, derived, box, env).1.derived)
  {
    if NextTag(ev, 0).Some? {
      var k := NextTag(ev, 0).value;
      var (ns, pr) := Elements(ev, k, "svg", 0, nodes);
      ElementsKeepTree(ev, k, "svg", 0, nodes);
      ElementsKeepKinds(ev, k, "svg", 0, nodes);
      var ds := derived + Blanks(ns, |nodes|);
      forall j | 0 <= j < |ns|
        ensures Shaped(ns[j].kind, ds[j])
      {
        if j >= |nodes| {
          BlankIsShaped(ns[j].kind);
        }
      }
      if pr.Ok? {
        InitNodeShaped(ns, env, 0, Pass(ds, box));
      }
    }
  }

  /** Parsing never shrinks the root's box. */
  lemma ParsedWidens(ev: seq<Event>, nodes: seq<Node>, derived: seq<Derived>, box: Box, env: Env)
    requires 0 < |nodes| && |derived| == |nodes| && NoNaN(box)
    ensures NoNaN(Parsed(ev, nodes, derived, box, env).1.box) && Encloses(Parsed(ev, nodes, derived, box, env).1.box, box)
  {
    if NextTag(ev, 0).Some? {
      var k := NextTag(ev, 0).value;
      var (ns, pr) := Elements(ev, k, "svg", 0, nodes);
      var ds := derived + Blanks(ns, |nodes|);
      if pr.Ok? {
        InitNodeWidens(ns, env, 0, Pass(ds, box));
      } else {
        assert Encloses(box, box);
      }
    } else {
      assert Encloses(box, box);
    }
  }

  /** getDelay: 300 when the document animates, Integer.MAX_VALUE when not. */
  function DelayOf(animation: seq<nat>): (d: int)
    ensures d == 300 || d == IntMax
  {
    if |animation| > 0 then 300 else IntMax
  }

  /** The delay is 300 exactly when some descendant of the root is an
      animate element. */
  lemma DelayMeansAnimated(nodes: seq<Node>)
    ensures DelayOf(Filter(Descendants(nodes, 0), IsAnimate(nodes))) == 300 <==>
      exists k :: k in Descendants(nodes, 0) && k < |nodes| && nodes[k].kind == AnimateKind
  {
    var s := Descendants(nodes, 0);
    var f := Filter(s, IsAnimate(nodes));
    FilterMeaning(s, IsAnimate(nodes));
    if |f| > 0 {
      assert f[0] in f;
    }
  }

  /** The ratio setScaling computes: the smaller of |width / right| and
      |height / bottom| of the root's box, so that the box's far corner
      fits the size. */
  function FitScale(width: int, height: int, box: Box): (s: Float)
    ensures s.NaN? <==> Div(IntToFloat(width), box.right).NaN? || Div(IntToFloat(height), box.bottom).NaN?
  {
    Min(Abs(Div(IntToFloat(width), box.right)), Abs(Div(IntToFloat(height), box.bottom)))
  }

  /** For a box whose far corner is at positive coordinates, the ratio is
      the largest that keeps the corner inside the size: scaled, the right
      edge stays within the width and the bottom edge within the height,
      and one of the two meets its limit. */
  lemma FitScaleFits(width: nat, height: nat, box: Box)
    requires box.right.Fin? && box.right.r > 0.0 && box.bottom.Fin? && box.bottom.r > 0.0
    ensures FitScale(width, height, box).Fin?
    ensures FitScale(width, height, box).r >= 0.0
    ensures FitScale(width, height, box).r * box.right.r <= width as real
    ensures FitScale(width, height, box).r * box.bottom.r <= height as real
    ensures FitScale(width, height, box).r * box.right.r == width as real ||
            FitScale(width, height, box).r * box.bottom.r == height as real
  {
    var a := width as real / box.right.r;
    var b := height as real / box.bottom.r;
    assert Div(IntToFloat(width), box.right) == Fin(a);
    assert Div(IntToFloat(height), box.bottom) == Fin(b);
    assert a * box.right.r == width as real;
    assert b * box.bottom.r == height as real;
    if b < a {
      assert b * box.right.r <= a * box.right.r;
    } else {
      assert a * box.bottom.r <= b * box.bottom.r;
    }
  }

  class Decoder {
    /** The elements; node 0 is the root. */
    var nodes: seq<Node>
    /** The fields init sets on each element. */
    var derived: seq<Derived>
    /** The root's x1, y1, x2, y2. */
    var box: Box
    /** The root's animation vector, None until getDelay first fills it. */
    var animation: Option<seq<nat>>
    /** parseFloat, the scale getScale answers and the decoder's own width
        and height. */
    var env: Env
    /** The decoder's scale and scaling flag; getScale is the scale while
        scaling is on and 1 otherwise. */
    var scale: Float
    var scaling: bool

    ghost predicate Valid()
      reads this
    {
      TreeOk(nodes) && AllShaped(nodes, derived) && NoNaN(box) &&
      env.scale == (if scaling then scale else One)
    }

    /** A decoder with its root `svg` element and nothing parsed: scale 1,
        scaling off. */
    constructor (e: Env)
      ensures Valid()
      ensures nodes == [Node("svg", SvgKind, -1, [], map[])] && derived == [RootState(0, 0)]
      ensures box == EmptyBox && animation.None? && env == e.(scale := One)
      ensures scale == One && !scaling
    {
      nodes := [Node("svg", SvgKind, -1, [], map[])];
      derived := [RootState(0, 0)];
      box := EmptyBox;
      animation := None;
      env := e.(scale := One);
      scale := One;
      scaling := false;
    }

    /** getScale. */
    function GetScale(): (s: Float)
      reads this
      ensures Valid() ==> s == env.scale
    {
      if scaling then scale else One
    }

    /** setScale: the stored scale, which getScale answers only while
        scaling is on; nothing is initialised again. */
    method SetScale(s: Float)
      requires Valid()
      modifies this
      ensures Valid()
      ensures scale == s && scaling == old(scaling)
      ensures nodes == old(nodes) && derived == old(derived) && box == old(box) && animation == old(animation)
      ensures env == old(env).(scale := GetScale())
      ensures !scaling ==> env == old(env)
    {
      scale := s;
      env := env.(scale := if scaling then s else One);
    }

    /** setScaling: when the flag changes, the scale becomes the ratio that
        fits the root's box to the size, and init runs again over the whole
        document with it; the box is not reset first, so it keeps whatever
        it held.  Setting the flag it already has changes nothing. */
    method SetScaling(on: bool) returns (st: Result<bool>)
      requires Valid()
      modifies this
      ensures Valid()
      ensures nodes == old(nodes) && animation == old(animation) && scaling == on
      ensures old(scaling) == on ==> derived == old(derived) && box == old(box) && scale == old(scale) && env == old(env) && st == Ok(true)
      ensures old(scaling) != on ==>
        scale == FitScale(DocWidth(old(derived), old(env)), DocHeight(old(derived), old(env)), old(box)) &&
        env == old(env).(scale := GetScale()) &&
        (Pass(derived, box), st) == InitNode(nodes, env, 0, Pass(old(derived), old(box)))
      ensures Encloses(box, old(box))
    {
      var was := scaling;
      scaling := on;
      if was == on {
        assert Encloses(box, box);
        return Ok(true);
      }
      scale := FitScale(Width(), Height(), box);
      env := env.(scale := if scaling then scale else One);
      InitNodeShaped(nodes, env, 0, Pass(derived, box));
      InitNodeWidens(nodes, env, 0, Pass(derived, box));
      st := InitElement(0);
    }

    /** getWidth: the document's width once init has read it, the decoder's
        own while that is 0. */
    function Width(): (w: int)
      reads this
      ensures w == DocWidth(derived, env)
    {
      if |derived| > 0 && derived[0].RootState? && derived[0].width != 0 then derived[0].width else env.width
    }

    function Height(): (h: int)
      reads this
      ensures h == DocHeight(derived, env)
    {
      if |derived| > 0 && derived[0].RootState? && derived[0].height != 0 then derived[0].height else env.height
    }

    /** getElementByTag followed by the SVGElement constructor's
        parent.addElement. */
    method AddElement(tag: string, parent: nat) returns (c: nat)
      requires parent < |nodes|
      modifies this
      ensures c == old(|nodes|) && nodes == AddNode(old(nodes), tag, parent)
      ensures derived == old(derived) && box == old(box) && animation == old(animation) && env == old(env) && scale == old(scale) && scaling == old(scaling)
    {
      c := |nodes|;
      var p := nodes[parent];
      nodes := nodes[parent := p.(children := p.children + [c])] + [Node(tag, KindOf(tag), parent, [], map[])];
    }

    /** setAttr: HashMap.put on the element's attributes. */
    method SetAttr(i: nat, name: string, value: string)
      requires i < |nodes|
      modifies this
      ensures nodes == old(nodes)[i := old(nodes)[i].(attrs := old(nodes)[i].attrs[name := value])]
      ensures derived == old(derived) && box == old(box) && animation == old(animation) && env == old(env) && scale == old(scale) && scaling == old(scaling)
    {
      var n := nodes[i];
      nodes := nodes[i := n.(attrs := n.attrs[name := value])];
    }

    /** parseAttrs: setAttr for each attribute of the start tag, in order. */
    method ParseAttrs(i: nat, attrs: seq<(string, string)>)
      requires i < |nodes|
      modifies this
      ensures nodes == WithAttrs(old(nodes), i, attrs)
      ensures derived == old(derived) && box == old(box) && animation == old(animation) && env == old(env) && scale == old(scale) && scaling == old(scaling)
    {
      for j := 0 to |attrs|
        invariant nodes == WithAttrs(old(nodes), i, attrs[..j])
        invariant derived == old(derived) && box == old(box) && animation == old(animation) && env == old(env) && scale == old(scale) && scaling == old(scaling)
      {
        SetAttr(i, attrs[j].0, attrs[j].1);
        assert attrs[..j + 1][..j] == attrs[..j];
      }
      assert attrs[..|attrs|] == attrs;
    }

    /** parseElements(tag, element): the parser must stand on a start tag
        named `tag`; its attributes go to the element, then each child
        start tag up to the matching end tag becomes a child element when
        its tag is whitelisted and is skipped otherwise.  Returns the index
        of the end tag; running out of events is the parser's exception. */
    method ParseElements(ev: seq<Event>, i: nat, tag: string, node: nat) returns (r: Result<nat>)
      requires i < |ev| && node < |nodes|
      modifies this
      ensures (nodes, r) == Elements(ev, i, tag, node, old(nodes))
      ensures derived == old(derived) && box == old(box) && animation == old(animation) && env == old(env) && scale == old(scale) && scaling == old(scaling)
      decreases |ev| - i, 1
    {
      if !(ev[i].Start? && ev[i].name == tag) {
        return Err(Structural);
      }
      ParseAttrs(node, ev[i].attrs);
      var j := i;
      while true
        invariant i <= j < |ev| && node < |nodes|
        invariant Scan(ev, j, node, nodes) == Elements(ev, i, tag, node, old(nodes))
        invariant derived == old(derived) && box == old(box) && animation == old(animation) && env == old(env) && scale == old(scale) && scaling == old(scaling)
        decreases |ev| - j
      {
        ghost var ns := nodes;
        if j + 1 >= |ev| {
          return Err(Structural);
        }
        j := j + 1;
        if ev[j].End? {
          assert Scan(ev, j - 1, node, ns) == (ns, Ok(j));
          return Ok(j);
        }
        if ev[j].Start? {
          var rc := ParseChild(ev, j, node);
          assert Scan(ev, j - 1, node, ns) == if rc.Err? then (nodes, rc) else Scan(ev, rc.value, node, nodes);
          if rc.Err? {
            return rc;
          }
          j := rc.value;
        } else {
          assert Scan(ev, j - 1, node, ns) == Scan(ev, j, node, ns);
        }
      }
    }

    /** A child start tag in parseElements' loop: a whitelisted tag becomes
        a new child element, parsed in turn; any other is skipped whole. */
    method ParseChild(ev: seq<Event>, j: nat, node: nat) returns (rc: Result<nat>)
      requires j < |ev| && ev[j].Start? && node < |nodes|
      modifies this
      ensures (nodes, rc) == if IsValidTag(ev[j].name) then Elements(ev, j, ev[j].name, |old(nodes)|, AddNode(old(nodes), ev[j].name, node))
                             else (old(nodes), SkipTo(ev, j))
      ensures derived == old(derived) && box == old(box) && animation == old(animation) && env == old(env) && scale == old(scale) && scaling == old(scaling)
      decreases |ev| - j, 2
    {
      if IsValidTag(ev[j].name) {
        var c := AddElement(ev[j].name, node);
        rc := ParseElements(ev, j, ev[j].name, c);
      } else {
        rc := Skip(ev, j);
      }
    }

    /** SVG.setBounds: lower x1, y1 and raise x2, y2 to take in the
        rectangle reported. */
    method SetBounds(x1: Float, y1: Float, x2: Float, y2: Float)
      modifies this
      ensures box == Widen(old(box), Box(x1, y1, x2, y2))
      ensures nodes == old(nodes) && derived == old(derived) && animation == old(animation) && env == old(env) && scale == old(scale) && scaling == old(scaling)
    {
      if Lt(x1, box.left) {
        box := box.(left := x1);
      }
      if Lt(box.right, x2) {
        box := box.(right := x2);
      }
      if Lt(y1, box.top) {
        box := box.(top := y1);
      }
      if Lt(box.bottom, y2) {
        box := box.(bottom := y2);
      }
    }

    /** The loop of a gradient's init over its children: the offset and
        colour of each stop, in child order. */
    method CollectStops(i: nat) returns (stops: seq<(Float, Argb)>)
      requires i < |nodes|
      ensures stops == StopsOf(nodes, derived, nodes[i].children)
    {
      var kids := nodes[i].children;
      stops := [];
      for j := 0 to |kids|
        invariant stops == StopsOf(nodes, derived, kids[..j])
      {
        var c := kids[j];
        assert kids[..j + 1][..j] == kids[..j];
        if c < |nodes| && c < |derived| && nodes[c].kind == StopKind && derived[c].StopState? {
          stops := stops + [(derived[c].offset, derived[c].color)];
        }
      }
      assert kids[..|kids|] == kids;
    }

    /** init() of element i. */
    method InitElement(i: nat) returns (st: Result<bool>)
      requires i < |nodes| && |derived| == |nodes|
      modifies this
      ensures nodes == old(nodes) && animation == old(animation) && env == old(env) && scale == old(scale) && scaling == old(scaling)
      ensures (Pass(derived, box), st) == InitNode(nodes, env, i, Pass(old(derived), old(box)))
      decreases |nodes| - i, 1
    {
      if IsGradient(nodes[i].kind) {
        st := InitChildren(i);
        if st.Err? {
          return;
        }
        st := InitGradientElement(i);
      } else {
        var o := OwnStep(nodes, env, i, derived);
        derived := derived[i := o.state];
        if o.report.Some? {
          var r := o.report.value;
          SetBounds(r.left, r.top, r.right, r.bottom);
        }
        if o.status.Err? {
          return o.status;
        }
        st := InitChildren(i);
      }
    }

    /** The init of a linear or radial gradient once its children are
        done: register the gradient, then build its shader with the
        root's lookups. */
    method InitGradientElement(i: nat) returns (st: Result<bool>)
      requires i < |nodes| && |derived| == |nodes|
      modifies this
      ensures nodes == old(nodes) && animation == old(animation) && env == old(env) && scale == old(scale) && scaling == old(scaling)
      ensures (Pass(derived, box), st) == GradientStep(nodes, env, i, Pass(old(derived), old(box)))
    {
      var stops := CollectStops(i);
      var w := IntToFloat(Width());
      var h := IntToFloat(Height());
      var prior := if derived[i].GradState? then derived[i].grad else GradientState(None, None);
      var reg := RegisterGradient(nodes[i].kind == LinearKind, nodes[i].attrs, stops, w, h, env.parse, env.scale);
      if reg.Err? {
        derived := derived[i := GradState(prior)];
        return Err(reg.error);
      }
      if reg.value.None? {
        derived := derived[i := GradState(prior)];
        return Ok(true);
      }
      assert stops == StopsOf(nodes, derived, nodes[i].children);
      assert w == IntToFloat(DocWidth(derived, env)) && h == IntToFloat(DocHeight(derived, env));
      ghost var d0 := derived;
      derived := derived[i := GradState(prior.(ref := reg.value))];
      var shader := ShaderIfNamed(reg.value, RefLookup(nodes, derived));
      derived := derived[i := GradState(GradientState(reg.value, shader))];
      assert derived == d0[i := GradState(GradientState(reg.value, shader))];
      st := Ok(true);
      assert (Pass(derived, box), st) == GradientStep(nodes, env, i, Pass(d0, box));
    }

    /** SVGElement.init: init() of each child in order. */
    method InitChildren(i: nat) returns (st: Result<bool>)
      requires i < |nodes| && |derived| == |nodes|
      modifies this
      ensures nodes == old(nodes) && animation == old(animation) && env == old(env) && scale == old(scale) && scaling == old(scaling)
      ensures (Pass(derived, box), st) == InitKids(nodes, env, i, nodes[i].children, Pass(old(derived), old(box)))
      decreases |nodes| - i, 0
    {
      var kids := nodes[i].children;
      var j := 0;
      assert kids[0..] == kids;
      while j < |kids|
        invariant 0 <= j <= |kids| && |derived| == |nodes|
        invariant nodes == old(nodes) && animation == old(animation) && env == old(env) && scale == old(scale) && scaling == old(scaling)
        invariant InitKids(nodes, env, i, kids[j..], Pass(derived, box)) == InitKids(nodes, env, i, kids, Pass(old(derived), old(box)))
      {
        var c := kids[j];
        InitKidsStep(nodes, env, i, kids[j..], Pass(derived, box));
        assert kids[j..][1..] == kids[j + 1..];
        if i < c < |nodes| {
          var s := InitElement(c);
          if s.Err? {
            return s;
          }
        }
        j := j + 1;
      }
      st := Ok(true);
    }

    /** parse(InputStream), with the events of the stream given. */
    method Parse(ev: seq<Event>) returns (r: Result<bool>)
      requires Valid()
      modifies this
      ensures Valid()
      ensures (nodes, Pass(derived, box), r) == Parsed(ev, old(nodes), old(derived), old(box), old(env))
      ensures animation == old(animation) && env == old(env) && scale == old(scale) && scaling == old(scaling)
    {
      ParsedIsShaped(ev, nodes, derived, box, env);
      ParsedWidens(ev, nodes, derived, box, env);
      var k := NextTag(ev, 0);
      if k.None? {
        return Err(Structural);
      }
      var n0 := |nodes|;
      var pr := ParseElements(ev, k.value, "svg", 0);
      derived := derived + Blanks(nodes, n0);
      if pr.Err? {
        return Err(pr.error);
      }
      r := InitElement(0);
    }

    /** getDelay: fill the animation vector on the first call, then answer
        from it. */
    method GetDelay() returns (d: int)
      modifies this
      ensures nodes == old(nodes) && derived == old(derived) && box == old(box) && env == old(env) && scale == old(scale) && scaling == old(scaling)
      ensures old(animation).Some? ==> animation == old(animation)
      ensures old(animation).None? ==> animation == Some(Filter(Descendants(nodes, 0), IsAnimate(nodes)))
      ensures d == DelayOf(animation.value)
    {
      if animation.None? {
        var found := CollectAnimations(nodes, 0, []);
        assert [] + Filter(Descendants(nodes, 0), IsAnimate(nodes)) == Filter(Descendants(nodes, 0), IsAnimate(nodes));
        animation := Some(found);
      }
      if |animation.value| > 0 {
        return 300;
      }
      return IntMax;
    }

    /** SvgDecoder.draw(c): the root's draw. */
    method Draw(c: Canvas) returns (st: Result<bool>)
      requires Valid()
      modifies c
      ensures c.ops == old(c.ops) + DrawNode(nodes, derived, 0).cmds && st == DrawNode(nodes, derived, 0).status
    {
      st := DrawElement(nodes, derived, 0, c);
    }
  }
}
