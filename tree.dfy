/** The element tree as the parser builds it: which tags are kept (the
    `tags` whitelist), which element class each kept tag becomes
    (getElementByTag), how an unwanted subtree is skipped over the event
    stream (skip), and the pre-order searches of the document root. */
module Tree {
  import opened Base

  /** The element classes getElementByTag and the root constructor create. */
  datatype Kind =
    | SvgKind | GroupKind | PathKind | RectKind | CircleKind | EllipseKind | LineKind
    | PolylineKind | PolygonKind | LinearKind | RadialKind | StopKind | AnimateKind | PlainKind

  /** isValidTag: membership of the case-sensitive HashSet `tags`. */
  predicate IsValidTag(tag: string)
  {
    match tag
    case "svg" => true
    case "g" => true
    case "defs" => true
    case "symbol" => true
    case "use" => true
    case "a" => true
    case "glyph" => true
    case "title" => true
    case "desc" => true
    case "metadata" => true
    case "circle" => true
    case "path" => true
    case "ellipse" => true
    case "line" => true
    case "polygon" => true
    case "polyline" => true
    case "rect" => true
    case "linearGradient" => true
    case "radialGradient" => true
    case "animate" => true
    case "animateColor" => true
    case "animateMotion" => true
    case "animateTransform" => true
    case "set" => true
    case "altGlyphDef" => true
    case "color-profile" => true
    case "cursor" => true
    case "font" => true
    case "font-face" => true
    case "foreignObject" => true
    case "image" => true
    case "marker" => true
    case "mask" => true
    case "pattern" => true
    case "script" => true
    case "style" => true
    case "switch" => true
    case "view" => true
    case "missing-glyph" => true
    case "filter" => true
    case "feBlend" => true
    case "feColorMatrix" => true
    case "feComposite" => true
    case "feFlood" => true
    case "feGaussianBlur" => true
    case "feImage" => true
    case "feMerge" => true
    case "feMorphology" => true
    case "feOffset" => true
    case "feTile" => true
    case "feTurbulence" => true
    case "feDistantLight" => true
    case "fePointLight" => true
    case "feSpotLight" => true
    case "feComponentTransfer" => true
    case "feConvolveMatrix" => true
    case "feDiffuseLighting" => true
    case "feDisplacementMap" => true
    case "feSpecularLighting" => true
    case "text" => true
    case "altGlyph" => true
    case "textPath" => true
    case "tref" => true
    case "tspan" => true
    case "stop" => true
    case _ => false
  }

  /** getElementByTag: the first tag name equal to `tag` ignoring case picks
      the class; every other tag, `svg`, `text` and `use` included, becomes
      a plain SVGElement. */
  const Factory: seq<(string, Kind)> := [("g", GroupKind), ("path", PathKind), ("rect", RectKind), ("circle", CircleKind),
    ("ellipse", EllipseKind), ("line", LineKind), ("polyline", PolylineKind), ("polygon", PolygonKind),
    ("linearGradient", LinearKind), ("radialGradient", RadialKind), ("stop", StopKind), ("animate", AnimateKind)]

  function KindOf(tag: string): (k: Kind)
    ensures k != SvgKind
  {
    KindFrom(tag, 0)
  }

  function KindFrom(tag: string, i: nat): (k: Kind)
    ensures k != SvgKind
    decreases |Factory| - i
  {
    if i >= |Factory| then PlainKind
    else if EqualsIgnoreCase(tag, Factory[i].0) then Factory[i].1
    else KindFrom(tag, i + 1)
  }

  /** getElementByTag's if-chain, written out. */
  lemma FactoryChain(tag: string)
    ensures KindOf(tag) ==
      if EqualsIgnoreCase(tag, "g") then GroupKind
      else if EqualsIgnoreCase(tag, "path") then PathKind
      else if EqualsIgnoreCase(tag, "rect") then RectKind
      else if EqualsIgnoreCase(tag, "circle") then CircleKind
      else if EqualsIgnoreCase(tag, "ellipse") then EllipseKind
      else if EqualsIgnoreCase(tag, "line") then LineKind
      else if EqualsIgnoreCase(tag, "polyline") then PolylineKind
      else if EqualsIgnoreCase(tag, "polygon") then PolygonKind
      else if EqualsIgnoreCase(tag, "linearGradient") then LinearKind
      else if EqualsIgnoreCase(tag, "radialGradient") then RadialKind
      else if EqualsIgnoreCase(tag, "stop") then StopKind
      else if EqualsIgnoreCase(tag, "animate") then AnimateKind
      else PlainKind
  {
    assert KindFrom(tag, 12) == PlainKind;
    assert KindFrom(tag, 11) == if EqualsIgnoreCase(tag, "animate") then AnimateKind else KindFrom(tag, 12);
    assert KindFrom(tag, 10) == if EqualsIgnoreCase(tag, "stop") then StopKind else KindFrom(tag, 11);
    assert KindFrom(tag, 9) == if EqualsIgnoreCase(tag, "radialGradient") then RadialKind else KindFrom(tag, 10);
    assert KindFrom(tag, 8) == if EqualsIgnoreCase(tag, "linearGradient") then LinearKind else KindFrom(tag, 9);
    assert KindFrom(tag, 7) == if EqualsIgnoreCase(tag, "polygon") then PolygonKind else KindFrom(tag, 8);
    assert KindFrom(tag, 6) == if EqualsIgnoreCase(tag, "polyline") then PolylineKind else KindFrom(tag, 7);
    assert KindFrom(tag, 5) == if EqualsIgnoreCase(tag, "line") then LineKind else KindFrom(tag, 6);
    assert KindFrom(tag, 4) == if EqualsIgnoreCase(tag, "ellipse") then EllipseKind else KindFrom(tag, 5);
    assert KindFrom(tag, 3) == if EqualsIgnoreCase(tag, "circle") then CircleKind else KindFrom(tag, 4);
    assert KindFrom(tag, 2) == if EqualsIgnoreCase(tag, "rect") then RectKind else KindFrom(tag, 3);
    assert KindFrom(tag, 1) == if EqualsIgnoreCase(tag, "path") then PathKind else KindFrom(tag, 2);
  }

  /** The tag name each element class is registered under. */
  function TagName(k: Kind): string
  {
    match k
    case SvgKind => "svg"
    case GroupKind => "g"
    case PathKind => "path"
    case RectKind => "rect"
    case CircleKind => "circle"
    case EllipseKind => "ellipse"
    case LineKind => "line"
    case PolylineKind => "polyline"
    case PolygonKind => "polygon"
    case LinearKind => "linearGradient"
    case RadialKind => "radialGradient"
    case StopKind => "stop"
    case AnimateKind => "animate"
    case PlainKind => "desc"
  }

  /** Every class the factory builds is reached from its own tag name, and
      that name is on the whitelist, so the parser creates it. */
  lemma KindOfTagName(k: Kind)
    requires k != SvgKind && k != PlainKind
    ensures KindOf(TagName(k)) == k
    ensures IsValidTag(TagName(k))
  {
    var t := TagName(k);
    assert EqualsIgnoreCase(t, t);
    FactoryChain(t);
    match k
    case RectKind => OtherInitial(t, "path");
    case LineKind => OtherInitial(t, "path"); OtherInitial(t, "rect");
    case PolygonKind => OtherInitial(t, "ellipse");
    case RadialKind => OtherInitial(t, "linearGradient");
    case StopKind => OtherInitial(t, "path"); OtherInitial(t, "rect"); OtherInitial(t, "line");
    case AnimateKind => OtherInitial(t, "ellipse"); OtherInitial(t, "polygon");
    case GroupKind =>
    case PathKind =>
    case CircleKind =>
    case EllipseKind =>
    case PolylineKind =>
    case LinearKind =>
  }

  /** Two lower-case names that start differently differ ignoring case. */
  lemma OtherInitial(a: string, b: string)
    requires |a| > 0 && |b| > 0 && 'a' <= a[0] <= 'z' && 'a' <= b[0] <= 'z' && a[0] != b[0]
    ensures !EqualsIgnoreCase(a, b)
  {
    assert LowerAscii(a[0]) != LowerAscii(b[0]);
  }

  /** `text` passes the whitelist but has no class of its own. */
  lemma TextIsPlain(t: string)
    requires t == "text"
    ensures IsValidTag(t) && KindOf(t) == PlainKind
  {
    FactoryChain(t);
    OtherInitial(t, "path"); OtherInitial(t, "rect"); OtherInitial(t, "line"); OtherInitial(t, "stop");
  }

  /** Neither has `use`. */
  lemma UseIsPlain(u: string)
    requires u == "use"
    ensures IsValidTag(u) && KindOf(u) == PlainKind
  {
    FactoryChain(u);
  }

  /** The whitelist is case-sensitive although the factory is not: `Path`
      is dropped by the parser before it could become a path. */
  lemma WhitelistIsCaseSensitive(t: string)
    requires t == "Path"
    ensures !IsValidTag(t)
    ensures KindOf(t) == PathKind
  {
    assert LowerAscii('P') == 'p';
    assert EqualsIgnoreCase(t, "path");
    FactoryChain(t);
  }

  /** The parser's view of the XML input: start tags with their attributes
      in document order, end tags, and everything else. */
  datatype Event = Start(name: string, attrs: seq<(string, string)>) | End | Other

  /** The index of the end tag that brings the nesting `depth` to zero,
      scanning from `j`; None when the events run out first. */
  function CloseFrom(ev: seq<Event>, j: nat, depth: nat): (k: Option<nat>)
    requires depth > 0
    ensures k.Some? ==> j <= k.value < |ev| && ev[k.value].End?
    decreases |ev| - j
  {
    if j >= |ev| then None
    else match ev[j]
      case End => if depth == 1 then Some(j) else CloseFrom(ev, j + 1, depth - 1)
      case Start(_, _) => CloseFrom(ev, j + 1, depth + 1)
      case Other => CloseFrom(ev, j + 1, depth)
  }

  /** Start tags minus end tags. */
  function Net(s: seq<Event>): int
  {
    if |s| == 0 then 0
    else (if s[0].Start? then 1 else if s[0].End? then -1 else 0) + Net(s[1..])
  }

  /** The end tag found closes exactly the nesting opened: counting from
      `j` with `depth` levels open, the depth stays positive up to the end
      tag and reaches zero at it. */
  lemma {:induction false} CloseBalances(ev: seq<Event>, j: nat, depth: nat, k: nat)
    requires depth > 0 && CloseFrom(ev, j, depth) == Some(k)
    ensures depth + Net(ev[j..k + 1]) == 0
    ensures forall m :: j <= m <= k ==> depth + Net(ev[j..m]) > 0
    decreases |ev| - j
  {
    var d := if ev[j].Start? then depth + 1 else if ev[j].End? then depth - 1 else depth;
    assert ev[j..k + 1][1..] == ev[j + 1..k + 1];
    if k > j {
      CloseBalances(ev, j + 1, d, k);
      forall m | j < m <= k
        ensures depth + Net(ev[j..m]) > 0
      {
        assert ev[j..m][1..] == ev[j + 1..m];
      }
    }
  }

  /** An enclosed element, once closed, leaves the enclosing depth as it
      was: scanning on after its end tag finds the same close. */
  lemma {:induction false} CloseCompose(ev: seq<Event>, j: nat, d: nat, e: nat, k: nat)
    requires d > 0 && e > 0 && CloseFrom(ev, j, d) == Some(k)
    ensures CloseFrom(ev, j, d + e) == CloseFrom(ev, k + 1, e)
    decreases |ev| - j
  {
    match ev[j]
    case End =>
      if d > 1 {
        CloseCompose(ev, j + 1, d - 1, e, k);
      }
    case Start(_, _) => CloseCompose(ev, j + 1, d + 1, e, k);
    case Other => CloseCompose(ev, j + 1, d, e, k);
  }

  /** More levels open cannot close when fewer could not. */
  lemma {:induction false} CloseDeeper(ev: seq<Event>, j: nat, d: nat, e: nat)
    requires d > 0 && CloseFrom(ev, j, d).None?
    ensures CloseFrom(ev, j, d + e).None?
    decreases |ev| - j
  {
    if j < |ev| {
      match ev[j]
      case End =>
        assert d > 1;
        CloseDeeper(ev, j + 1, d - 1, e);
      case Start(_, _) => CloseDeeper(ev, j + 1, d + 1, e);
      case Other => CloseDeeper(ev, j + 1, d, e);
    }
  }

  /** skip, called with the parser on the start tag at `i`: counts depth
      until the matching end tag and returns its index.  Not standing on a
      start tag is the IllegalStateException; input that ends first is the
      parser's exception at the end of the document. */
  method Skip(ev: seq<Event>, i: nat) returns (r: Result<nat>)
    requires i < |ev|
    ensures !ev[i].Start? ==> r == Err(Structural)
    ensures ev[i].Start? && CloseFrom(ev, i + 1, 1).Some? ==> r == Ok(CloseFrom(ev, i + 1, 1).value)
    ensures ev[i].Start? && CloseFrom(ev, i + 1, 1).None? ==> r == Err(Structural)
  {
    if !ev[i].Start? {
      return Err(Structural);
    }
    var depth := 1;
    var j := i;
    while depth != 0
      invariant i <= j < |ev|
      invariant depth > 0 ==> CloseFrom(ev, j + 1, depth) == CloseFrom(ev, i + 1, 1)
      invariant depth == 0 ==> CloseFrom(ev, i + 1, 1) == Some(j)
      decreases |ev| - j
    {
      if j + 1 >= |ev| {
        return Err(Structural);
      }
      j := j + 1;
      match ev[j]
      case End => depth := depth - 1;
      case Start(_, _) => depth := depth + 1;
      case Other =>
    }
    return Ok(j);
  }

  /** One element of the document arena: its tag, its class, the index of
      its parent (-1 for the root), its children in insertion order and
      its attribute map. */
  datatype Node = Node(tag: string, kind: Kind, parent: int, children: seq<nat>, attrs: map<string, string>)

  /** The shape of a tree built by the parser: the root is node 0, with no
      parent, and every other node was created after its parent and is
      listed among that parent's children. */
  predicate WellFormed(nodes: seq<Node>)
  {
    |nodes| > 0 && nodes[0].parent == -1 && nodes[0].kind == SvgKind &&
    (forall i :: 0 < i < |nodes| ==> 0 <= nodes[i].parent < i) &&
    (forall i, c {:trigger c in nodes[i].children} :: 0 <= i < |nodes| && c in nodes[i].children ==> i < c < |nodes| && nodes[c].parent == i)
  }

  /** getRoot: the parent chain followed to its end. */
  function RootOf(nodes: seq<Node>, i: nat): nat
    decreases i
  {
    if i < |nodes| && 0 <= nodes[i].parent < i then RootOf(nodes, nodes[i].parent) else i
  }

  /** Every element reaches the document root, so whatever setBounds an
      element calls lands in the root's box. */
  lemma {:induction false} RootIsTheDocument(nodes: seq<Node>, i: nat)
    requires WellFormed(nodes) && i < |nodes|
    ensures RootOf(nodes, i) == 0
    decreases i
  {
    if i > 0 {
      RootIsTheDocument(nodes, nodes[i].parent);
    }
  }

  /** The descendants of node i in pre-order: each child, then its own
      descendants, child after child. */
  function Descendants(nodes: seq<Node>, i: nat): seq<nat>
    decreases |nodes| - i, 1, 0
  {
    if i < |nodes| then DescendantsOf(nodes, nodes[i].children, i) else []
  }

  function DescendantsOf(nodes: seq<Node>, kids: seq<nat>, i: nat): seq<nat>
    requires i < |nodes|
    decreases |nodes| - i, 0, |kids|
  {
    if |kids| == 0 then []
    else
      var c := kids[0];
      (if i < c < |nodes| then [c] + Descendants(nodes, c) else []) + DescendantsOf(nodes, kids[1..], i)
  }

  /** The first element of `s` that satisfies `p`. */
  function FirstIn(s: seq<nat>, p: nat -> bool): Option<nat>
  {
    if |s| == 0 then None
    else if p(s[0]) then Some(s[0])
    else FirstIn(s[1..], p)
  }

  /** FirstIn finds a match exactly when there is one, and what it finds
      matches and comes before any other match. */
  lemma {:induction false} FirstInMeaning(s: seq<nat>, p: nat -> bool)
    ensures FirstIn(s, p).None? <==> forall j :: 0 <= j < |s| ==> !p(s[j])
    ensures FirstIn(s, p).Some? ==>
      exists j :: 0 <= j < |s| && s[j] == FirstIn(s, p).value && p(s[j]) && (forall m :: 0 <= m < j ==> !p(s[m]))
    decreases |s|
  {
    if |s| > 0 && !p(s[0]) {
      FirstInMeaning(s[1..], p);
      assert forall j :: 1 <= j < |s| ==> s[1..][j - 1] == s[j];
      if FirstIn(s[1..], p).Some? {
        var j :| 0 <= j < |s| - 1 && s[1..][j] == FirstIn(s, p).value && p(s[1..][j]) &&
          forall m :: 0 <= m < j ==> !p(s[1..][m]);
        assert s[j + 1] == FirstIn(s, p).value && forall m :: 0 <= m < j + 1 ==> !p(s[m]);
      }
    }
  }

  lemma FirstInCons(c: nat, t: seq<nat>, p: nat -> bool)
    ensures FirstIn([c] + t, p) == if p(c) then Some(c) else FirstIn(t, p)
  {
    assert ([c] + t)[1..] == t;
  }

  /** FirstIn over a concatenation looks in the second part only when the
      first has no match. */
  lemma {:induction false} FirstInAppend(a: seq<nat>, b: seq<nat>, p: nat -> bool)
    ensures FirstIn(a + b, p) == if FirstIn(a, p).Some? then FirstIn(a, p) else FirstIn(b, p)
    decreases |a|
  {
    if |a| > 0 {
      assert (a + b)[1..] == a[1..] + b;
      FirstInAppend(a[1..], b, p);
    } else {
      assert a + b == b;
    }
  }

  /** searchElementById and searchGradientById: for each child in order,
      the child itself when it matches, else the result of searching
      below it. */
  function Search(nodes: seq<Node>, i: nat, p: nat -> bool): (r: Option<nat>)
    ensures r.Some? ==> p(r.value)
    decreases |nodes| - i, 1, 0
  {
    if i < |nodes| then SearchKids(nodes, nodes[i].children, i, p) else None
  }

  function SearchKids(nodes: seq<Node>, kids: seq<nat>, i: nat, p: nat -> bool): (r: Option<nat>)
    requires i < |nodes|
    ensures r.Some? ==> p(r.value)
    decreases |nodes| - i, 0, |kids|
  {
    if |kids| == 0 then None
    else
      var c := kids[0];
      if !(i < c < |nodes|) then SearchKids(nodes, kids[1..], i, p)
      else if p(c) then Some(c)
      else match Search(nodes, c, p)
        case Some(r) => Some(r)
        case None => SearchKids(nodes, kids[1..], i, p)
  }

  /** The searches are pre-order depth-first: they return the first
      matching descendant in pre-order, and nothing when none matches. */
  lemma {:induction false} SearchIsFirstInPreorder(nodes: seq<Node>, i: nat, p: nat -> bool)
    ensures Search(nodes, i, p) == FirstIn(Descendants(nodes, i), p)
    decreases |nodes| - i, 1, 0
  {
    if i < |nodes| {
      SearchKidsIsFirstInPreorder(nodes, nodes[i].children, i, p);
    }
  }

  lemma {:induction false} SearchKidsIsFirstInPreorder(nodes: seq<Node>, kids: seq<nat>, i: nat, p: nat -> bool)
    requires i < |nodes|
    ensures SearchKids(nodes, kids, i, p) == FirstIn(DescendantsOf(nodes, kids, i), p)
    decreases |nodes| - i, 0, |kids|
  {
    if |kids| > 0 {
      SearchKidsIsFirstInPreorder(nodes, kids[1..], i, p);
      if i < kids[0] < |nodes| {
        SearchIsFirstInPreorder(nodes, kids[0], p);
        SearchChildStep(nodes, kids, i, p);
      } else {
        assert DescendantsOf(nodes, kids, i) == DescendantsOf(nodes, kids[1..], i);
      }
    }
  }

  /** One child of the loop: the child, its subtree, then the rest. */
  lemma SearchChildStep(nodes: seq<Node>, kids: seq<nat>, i: nat, p: nat -> bool)
    requires i < |nodes| && |kids| > 0 && i < kids[0] < |nodes|
    requires Search(nodes, kids[0], p) == FirstIn(Descendants(nodes, kids[0]), p)
    requires SearchKids(nodes, kids[1..], i, p) == FirstIn(DescendantsOf(nodes, kids[1..], i), p)
    ensures SearchKids(nodes, kids, i, p) == FirstIn(DescendantsOf(nodes, kids, i), p)
  {
    var c := kids[0];
    var below := Descendants(nodes, c);
    var rest := DescendantsOf(nodes, kids[1..], i);
    assert DescendantsOf(nodes, kids, i) == [c] + (below + rest);
    FirstInCons(c, below + rest, p);
    FirstInAppend(below, rest, p);
  }

  /** The elements of `s` that satisfy `p`, in order. */
  function Filter(s: seq<nat>, p: nat -> bool): seq<nat>
  {
    if |s| == 0 then [] else (if p(s[0]) then [s[0]] else []) + Filter(s[1..], p)
  }

  /** Filter keeps exactly the elements that satisfy the test. */
  lemma {:induction false} FilterMeaning(s: seq<nat>, p: nat -> bool)
    ensures forall x :: x in Filter(s, p) <==> x in s && p(x)
    decreases |s|
  {
    if |s| > 0 {
      FilterMeaning(s[1..], p);
      assert forall x :: x in s <==> x == s[0] || x in s[1..];
    }
  }

  lemma {:induction false} FilterAppend(a: seq<nat>, b: seq<nat>, p: nat -> bool)
    ensures Filter(a + b, p) == Filter(a, p) + Filter(b, p)
    decreases |a|
  {
    if |a| > 0 {
      assert (a + b)[1..] == a[1..] + b;
      FilterAppend(a[1..], b, p);
    } else {
      assert a + b == b;
    }
  }

  /** The test searchAnimation applies: an animate element. */
  function IsAnimate(nodes: seq<Node>): nat -> bool
  {
    (k: nat) => k < |nodes| && nodes[k].kind == AnimateKind
  }

  /** searchAnimation: appends to `anim`, in pre-order, every descendant
      of node i that is an animate element. */
  method CollectAnimations(nodes: seq<Node>, i: nat, anim: seq<nat>) returns (out: seq<nat>)
    ensures out == anim + Filter(Descendants(nodes, i), IsAnimate(nodes))
    decreases |nodes| - i
  {
    if i >= |nodes| {
      return anim;
    }
    var kids := nodes[i].children;
    ghost var a := IsAnimate(nodes);
    ghost var total := anim + Filter(Descendants(nodes, i), a);
    out := anim;
    assert kids[0..] == kids;
    for j := 0 to |kids|
      invariant out + Filter(DescendantsOf(nodes, kids[j..], i), a) == total
    {
      var c := kids[j];
      AnimationsOfChild(nodes, kids, j, i);
      ghost var rest := Filter(DescendantsOf(nodes, kids[j + 1..], i), a);
      ghost var mine := if i < c < |nodes| then
          (if nodes[c].kind == AnimateKind then [c] else []) + Filter(Descendants(nodes, c), a)
        else [];
      assert out + (mine + rest) == total;
      ghost var before := out;
      if i < c < |nodes| {
        if nodes[c].kind == AnimateKind {
          out := out + [c];
        }
        out := CollectAnimations(nodes, c, out);
        ConcatAssoc(before, if nodes[c].kind == AnimateKind then [c] else [], Filter(Descendants(nodes, c), a));
      }
      assert out == before + mine;
      ConcatAssoc(before, mine, rest);
    }
    assert kids[|kids|..] == [];
  }

  lemma ConcatAssoc(a: seq<nat>, b: seq<nat>, c: seq<nat>)
    ensures (a + b) + c == a + (b + c)
  {
  }

  /** The animate elements below the j-th child onwards: the child, its
      subtree, then those after it. */
  lemma AnimationsOfChild(nodes: seq<Node>, kids: seq<nat>, j: nat, i: nat)
    requires i < |nodes| && j < |kids|
    ensures Filter(DescendantsOf(nodes, kids[j..], i), IsAnimate(nodes)) ==
      (if i < kids[j] < |nodes| then
         (if nodes[kids[j]].kind == AnimateKind then [kids[j]] else []) + Filter(Descendants(nodes, kids[j]), IsAnimate(nodes))
       else []) + Filter(DescendantsOf(nodes, kids[j + 1..], i), IsAnimate(nodes))
  {
    var c := kids[j];
    var a := IsAnimate(nodes);
    assert kids[j..][1..] == kids[j + 1..];
    var rest := DescendantsOf(nodes, kids[j + 1..], i);
    if i < c < |nodes| {
      assert DescendantsOf(nodes, kids[j..], i) == [c] + (Descendants(nodes, c) + rest);
      FilterAppend([c], Descendants(nodes, c) + rest, a);
      FilterAppend(Descendants(nodes, c), rest, a);
      assert Filter([c], a) == if a(c) then [c] else [];
    } else {
      assert DescendantsOf(nodes, kids[j..], i) == rest;
    }
  }
}
