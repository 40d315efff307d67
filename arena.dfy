/** parseElements as a function of the element arena: which elements the
    event stream creates, with which attributes and under which parent,
    and where the parse stops.  The decoder's methods are proved to compute
    exactly this; the lemmas here say what it means. */
module Arena {
  import opened Base
  import opened Tree
  import opened Markup

  /** The tag and attributes of each node, in index order. */
  function Entries(ns: seq<Node>): (e: seq<(string, map<string, string>)>)
    ensures |e| == |ns|
  {
    seq(|ns|, k requires 0 <= k < |ns| => (ns[k].tag, ns[k].attrs))
  }

  /** `b` is `a` with nodes appended and children added: every node of `a`
      keeps its tag, class, parent and attributes, and its children list
      only grows at the end. */
  ghost predicate Grown(a: seq<Node>, b: seq<Node>)
  {
    |a| <= |b| &&
    forall k :: 0 <= k < |a| ==>
      b[k].tag == a[k].tag && b[k].kind == a[k].kind && b[k].parent == a[k].parent &&
      b[k].attrs == a[k].attrs && a[k].children <= b[k].children
  }

  lemma GrownTrans(a: seq<Node>, b: seq<Node>, c: seq<Node>)
    requires Grown(a, b) && Grown(b, c)
    ensures Grown(a, c)
  {
    forall k | 0 <= k < |a|
      ensures a[k].children <= c[k].children
    {
      assert a[k].children <= b[k].children <= c[k].children;
    }
  }

  /** The entries of a grown arena from `lo`: the old ones, then the new. */
  lemma EntriesSplit(a: seq<Node>, b: seq<Node>, lo: nat)
    requires Grown(a, b) && lo <= |a|
    ensures Entries(b[lo..]) == Entries(a[lo..]) + Entries(b[|a|..])
  {
  }

  /** The shape the decoder keeps: a well-formed tree whose every node but
      the root has the class getElementByTag gives its tag. */
  ghost predicate TreeOk(ns: seq<Node>)
  {
    WellFormed(ns) && forall k :: 0 < k < |ns| ==> ns[k].kind == KindOf(ns[k].tag)
  }

  /** getElementByTag(tag, parent): a new element of the class the tag
      selects, appended to its parent's children. */
  function AddNode(ns: seq<Node>, tag: string, parent: nat): (out: seq<Node>)
    requires parent < |ns|
    ensures |out| == |ns| + 1 && out[|ns|] == Node(tag, KindOf(tag), parent, [], map[])
    ensures Grown(ns, out) && out[parent].children == ns[parent].children + [|ns|]
  {
    ns[parent := ns[parent].(children := ns[parent].children + [|ns|])] + [Node(tag, KindOf(tag), parent, [], map[])]
  }

  /** parseAttrs on node `i`. */
  function WithAttrs(ns: seq<Node>, i: nat, attrs: seq<(string, string)>): seq<Node>
    requires i < |ns|
  {
    ns[i := ns[i].(attrs := PutAll(ns[i].attrs, attrs))]
  }

  /** What skip returns from a start tag at `i`: the index of its end tag. */
  function SkipTo(ev: seq<Event>, i: nat): (r: Result<nat>)
    requires i < |ev|
    ensures r.Ok? ==> i < r.value < |ev|
  {
    if CloseFrom(ev, i + 1, 1).Some? then Ok(CloseFrom(ev, i + 1, 1).value) else Err(Structural)
  }

  /** parseElements(tag, node) with the parser on event `i`: the arena it
      leaves and the index of the end tag it stops on. */
  function Elements(ev: seq<Event>, i: nat, tag: string, node: nat, ns: seq<Node>): (res: (seq<Node>, Result<nat>))
    requires i < |ev| && node < |ns|
    ensures |ns| <= |res.0|
    ensures res.1.Ok? ==> i < res.1.value < |ev|
    decreases |ev| - i, 1
  {
    if !(ev[i].Start? && ev[i].name == tag) then (ns, Err(Structural))
    else Scan(ev, i, node, WithAttrs(ns, node, ev[i].attrs))
  }

  /** The loop of parseElements after event `j`: children are created or
      skipped until the end tag of `node`. */
  function Scan(ev: seq<Event>, j: nat, node: nat, ns: seq<Node>): (res: (seq<Node>, Result<nat>))
    requires j < |ev| && node < |ns|
    ensures |ns| <= |res.0|
    ensures res.1.Ok? ==> j < res.1.value < |ev|
    decreases |ev| - j, 0
  {
    if j + 1 >= |ev| then (ns, Err(Structural))
    else match ev[j + 1]
      case End => (ns, Ok(j + 1))
      case Other => Scan(ev, j + 1, node, ns)
      case Start(n, _) =>
        var child := if IsValidTag(n) then Elements(ev, j + 1, n, |ns|, AddNode(ns, n, node)) else (ns, SkipTo(ev, j + 1));
        if child.1.Err? then child else Scan(ev, child.1.value, node, child.0)
  }

  /** What the loop from `j` achieves: it stops on the end tag closing the
      element (and fails exactly when the events run out first), the arena
      only grows, and the nodes it adds are the elements kept from the
      events it read, in document order. */
  ghost predicate Scanned(ev: seq<Event>, j: nat, ns: seq<Node>, out: seq<Node>, r: Result<nat>)
  {
    Grown(ns, out) &&
    (r.Ok? <==> CloseFrom(ev, j + 1, 1).Some?) &&
    (r.Ok? ==> r.value == CloseFrom(ev, j + 1, 1).value) &&
    (r.Err? ==> r.error == Structural) &&
    (r.Ok? ==> j < r.value < |ev|) &&
    (r.Ok? ==> Entries(out[|ns|..]) == Kept(ev, j + 1, r.value + 1, 0)) &&
    (r.Ok? ==> SkipAfter(ev, j + 1, r.value + 1, 0) == 0)
  }

  /** A start tag whose name does not match is the parser's exception and
      changes nothing; otherwise the element gets its attributes and its
      children come from the loop. */
  lemma {:induction false} ElementsFacts(ev: seq<Event>, i: nat, tag: string, node: nat, ns: seq<Node>)
    requires i < |ev| && node < |ns|
    ensures !(ev[i].Start? && ev[i].name == tag) ==> Elements(ev, i, tag, node, ns) == (ns, Err(Structural))
    ensures ev[i].Start? && ev[i].name == tag ==>
      var out := Elements(ev, i, tag, node, ns).0;
      Scanned(ev, i, WithAttrs(ns, node, ev[i].attrs), out, Elements(ev, i, tag, node, ns).1) &&
      out[node].attrs == PutAll(ns[node].attrs, ev[i].attrs)
    decreases |ev| - i, 2
  {
    if ev[i].Start? && ev[i].name == tag {
      ScanFacts(ev, i, node, WithAttrs(ns, node, ev[i].attrs));
    }
  }

  lemma {:induction false} ScanFacts(ev: seq<Event>, j: nat, node: nat, ns: seq<Node>)
    requires j < |ev| && node < |ns|
    ensures Scanned(ev, j, ns, Scan(ev, j, node, ns).0, Scan(ev, j, node, ns).1)
    decreases |ev| - j, 1
  {
    if j + 1 < |ev| {
      match ev[j + 1]
      case End =>
        NotAStart(ev, j + 1);
        assert ns[|ns|..] == [];
      case Other =>
        ScanFacts(ev, j + 1, node, ns);
        NotAStart(ev, j + 1);
        var r := Scan(ev, j, node, ns).1;
        if r.Ok? {
          KeptSplit(ev, j + 1, j + 2, r.value + 1, 0);
        }
      case Start(n, _) =>
        if IsValidTag(n) {
          ChildKept(ev, j, node, ns);
        } else {
          ChildSkipped(ev, j, node, ns);
        }
    }
  }

  /** The loop step for a whitelisted child: the child's own entry, then
      its descendants, then whatever the loop adds after it. */
  lemma {:induction false} ChildKept(ev: seq<Event>, j: nat, node: nat, ns: seq<Node>)
    requires j + 1 < |ev| && node < |ns| && ev[j + 1].Start? && IsValidTag(ev[j + 1].name)
    ensures Scanned(ev, j, ns, Scan(ev, j, node, ns).0, Scan(ev, j, node, ns).1)
    decreases |ev| - j, 0, 1
  {
    var (mid, rc) := Elements(ev, j + 1, ev[j + 1].name, |ns|, AddNode(ns, ev[j + 1].name, node));
    assert Scan(ev, j, node, ns) == if rc.Err? then (mid, rc) else Scan(ev, rc.value, node, mid);
    ChildEntry(ev, j, node, ns);
    if rc.Err? {
      ChildFailed(ev, j);
    } else {
      var k := rc.value;
      ScanFacts(ev, k, node, mid);
      var (out, r) := Scan(ev, k, node, mid);
      KeptThenRest(ev, j, k, ns, mid, out, r);
    }
  }

  /** The element a whitelisted child start tag creates: appended after the
      arena's old nodes with the tag's attributes, followed by its own
      descendants. */
  lemma ChildEntry(ev: seq<Event>, j: nat, node: nat, ns: seq<Node>)
    requires j + 1 < |ev| && node < |ns| && ev[j + 1].Start? && IsValidTag(ev[j + 1].name)
    ensures var n, a := ev[j + 1].name, ev[j + 1].attrs;
      var (mid, rc) := Elements(ev, j + 1, n, |ns|, AddNode(ns, n, node));
      Grown(ns, mid) && |ns| < |mid| && mid[|ns|].tag == n && mid[|ns|].attrs == PutAll(map[], a) &&
      Scanned(ev, j + 1, WithAttrs(AddNode(ns, n, node), |ns|, a), mid, rc)
    decreases |ev| - j, 0, 0
  {
    var n, a := ev[j + 1].name, ev[j + 1].attrs;
    var added := AddNode(ns, n, node);
    var c := |ns|;
    var mid := Elements(ev, j + 1, n, c, added).0;
    ElementsFacts(ev, j + 1, n, c, added);
    var w := WithAttrs(added, c, a);
    assert Grown(ns, w) && |w| == c + 1 && w[c].tag == n && w[c].attrs == PutAll(map[], a);
    GrownTrans(ns, w, mid);
  }

  lemma KeptThenRest(ev: seq<Event>, j: nat, k: nat, ns: seq<Node>, mid: seq<Node>, out: seq<Node>, r: Result<nat>)
    requires j + 1 < |ev| && ev[j + 1].Start? && IsValidTag(ev[j + 1].name) && CloseFrom(ev, j + 2, 1) == Some(k)
    requires Grown(ns, mid) && |ns| < |mid|
    requires mid[|ns|].tag == ev[j + 1].name && mid[|ns|].attrs == PutAll(map[], ev[j + 1].attrs)
    requires Entries(mid[|ns| + 1..]) == Kept(ev, j + 2, k + 1, 0) && SkipAfter(ev, j + 2, k + 1, 0) == 0
    requires Scanned(ev, k, mid, out, r)
    ensures Scanned(ev, j, ns, out, r)
  {
    var c := |ns|;
    assert CloseFrom(ev, j + 1, 1) == CloseFrom(ev, j + 2, 2);
    CloseCompose(ev, j + 2, 1, 1, k);
    GrownTrans(ns, mid, out);
    if r.Ok? {
      KeptEntries(ev, j, k, ns, mid, out, r.value);
    }
  }

  lemma KeptEntries(ev: seq<Event>, j: nat, k: nat, ns: seq<Node>, mid: seq<Node>, out: seq<Node>, e: nat)
    requires j + 1 < |ev| && ev[j + 1].Start? && IsValidTag(ev[j + 1].name) && j + 1 < k < e < |ev|
    requires Grown(ns, mid) && Grown(mid, out) && |ns| < |mid|
    requires mid[|ns|].tag == ev[j + 1].name && mid[|ns|].attrs == PutAll(map[], ev[j + 1].attrs)
    requires Entries(mid[|ns| + 1..]) == Kept(ev, j + 2, k + 1, 0) && SkipAfter(ev, j + 2, k + 1, 0) == 0
    requires Entries(out[|mid|..]) == Kept(ev, k + 1, e + 1, 0) && SkipAfter(ev, k + 1, e + 1, 0) == 0
    ensures Entries(out[|ns|..]) == Kept(ev, j + 1, e + 1, 0) && SkipAfter(ev, j + 1, e + 1, 0) == 0
  {
    var c := |ns|;
    ChildIsKept(ev, j + 1, k + 1);
    KeptSplit(ev, j + 1, k + 1, e + 1, 0);
    EntriesSplit(mid, out, c);
    assert Entries(mid[c..]) == [(ev[j + 1].name, PutAll(map[], ev[j + 1].attrs))] + Entries(mid[c + 1..]);
  }

  /** A child whose end tag never comes makes the element's end tag
      missing as well. */
  lemma ChildFailed(ev: seq<Event>, j: nat)
    requires j + 1 < |ev| && ev[j + 1].Start? && CloseFrom(ev, j + 2, 1).None?
    ensures CloseFrom(ev, j + 1, 1).None?
  {
    assert CloseFrom(ev, j + 1, 1) == CloseFrom(ev, j + 2, 2);
    CloseDeeper(ev, j + 2, 1, 1);
  }

  /** The loop step for any other child: it is skipped whole. */
  lemma {:induction false} ChildSkipped(ev: seq<Event>, j: nat, node: nat, ns: seq<Node>)
    requires j + 1 < |ev| && node < |ns| && ev[j + 1].Start? && !IsValidTag(ev[j + 1].name)
    ensures Scanned(ev, j, ns, Scan(ev, j, node, ns).0, Scan(ev, j, node, ns).1)
    decreases |ev| - j, 0
  {
    var rc := SkipTo(ev, j + 1);
    if rc.Err? {
      assert Scan(ev, j, node, ns) == (ns, rc);
      ChildFailed(ev, j);
    } else {
      var k := rc.value;
      assert Scan(ev, j, node, ns) == Scan(ev, k, node, ns);
      ScanFacts(ev, k, node, ns);
      var (out, r) := Scan(ev, k, node, ns);
      SkippedThenRest(ev, j, k, ns, out, r);
    }
  }

  lemma SkippedThenRest(ev: seq<Event>, j: nat, k: nat, ns: seq<Node>, out: seq<Node>, r: Result<nat>)
    requires j + 1 < |ev| && ev[j + 1].Start? && !IsValidTag(ev[j + 1].name) && CloseFrom(ev, j + 2, 1) == Some(k)
    requires Scanned(ev, k, ns, out, r)
    ensures Scanned(ev, j, ns, out, r)
  {
    assert CloseFrom(ev, j + 1, 1) == CloseFrom(ev, j + 2, 2);
    CloseCompose(ev, j + 2, 1, 1, k);
    SkippedIsDropped(ev, j + 2, 1, k);
    assert Kept(ev, j + 1, k + 1, 0) == Kept(ev, j + 2, k + 1, 1);
    assert SkipAfter(ev, j + 1, k + 1, 0) == SkipAfter(ev, j + 2, k + 1, 1);
    if r.Ok? {
      KeptSplit(ev, j + 1, k + 1, r.value + 1, 0);
    }
  }

  /** An end tag or text at the top of an element keeps nothing; text
      neither closes nor opens an element, an end tag closes it. */
  lemma NotAStart(ev: seq<Event>, j: nat)
    requires j < |ev| && !ev[j].Start?
    ensures Kept(ev, j, j + 1, 0) == [] && SkipAfter(ev, j, j + 1, 0) == 0
    ensures ev[j].Other? ==> CloseFrom(ev, j, 1) == CloseFrom(ev, j + 1, 1)
    ensures ev[j].End? ==> CloseFrom(ev, j, 1) == Some(j)
  {
  }

  /** A whitelisted start tag at the top of an element is kept with its
      attributes, and what follows is scanned at the top again. */
  lemma ChildIsKept(ev: seq<Event>, j: nat, e: nat)
    requires j < e <= |ev| && ev[j].Start? && IsValidTag(ev[j].name)
    ensures Kept(ev, j, e, 0) == [(ev[j].name, PutAll(map[], ev[j].attrs))] + Kept(ev, j + 1, e, 0)
    ensures SkipAfter(ev, j, e, 0) == SkipAfter(ev, j + 1, e, 0)
  {
  }

  /** Changing attributes leaves the tree's shape as it was. */
  lemma SameShapeWellFormed(a: seq<Node>, b: seq<Node>)
    requires WellFormed(a) && |a| == |b|
    requires forall k :: 0 <= k < |a| ==> b[k].kind == a[k].kind && b[k].parent == a[k].parent && b[k].children == a[k].children
    ensures WellFormed(b)
  {
    forall i: int, c: nat | 0 <= i < |b| && c in b[i].children
      ensures i < c < |b| && b[c].parent == i
    {
      assert c in a[i].children;
      assert i < c < |a| && a[c].parent == i;
    }
    forall i | 0 < i < |b|
      ensures 0 <= b[i].parent < i
    {
      assert 0 <= a[i].parent < i;
    }
  }

  /** A node appended under an existing parent keeps the tree well formed. */
  lemma AppendWellFormed(a: seq<Node>, parent: nat, tag: string)
    requires WellFormed(a) && parent < |a|
    ensures WellFormed(AddNode(a, tag, parent))
  {
    var b := AddNode(a, tag, parent);
    forall i: int, c: nat | 0 <= i < |b| && c in b[i].children
      ensures i < c < |b| && b[c].parent == i
    {
      if i == parent {
        assert b[i].children == a[i].children + [|a|];
        if c != |a| {
          assert c in a[i].children;
          assert i < c < |a| && a[c].parent == i;
          assert b[c] == a[c] || c == parent;
        }
      } else if i < |a| {
        assert b[i].children == a[i].children;
        assert c in a[i].children;
        assert i < c < |a| && a[c].parent == i;
        assert b[c].parent == a[c].parent;
      }
    }
    forall i | 0 < i < |b|
      ensures 0 <= b[i].parent < i
    {
      if i < |a| {
        assert 0 <= a[i].parent < i;
      }
    }
  }

  /** Parsing keeps the arena a well-formed tree of factory-made nodes. */
  lemma {:induction false} ElementsKeepTree(ev: seq<Event>, i: nat, tag: string, node: nat, ns: seq<Node>)
    requires i < |ev| && node < |ns| && TreeOk(ns)
    ensures TreeOk(Elements(ev, i, tag, node, ns).0)
    decreases |ev| - i, 1
  {
    if ev[i].Start? && ev[i].name == tag {
      var w := WithAttrs(ns, node, ev[i].attrs);
      SameShapeWellFormed(ns, w);
      ScanKeepsTree(ev, i, node, w);
    }
  }

  lemma {:induction false} ScanKeepsTree(ev: seq<Event>, j: nat, node: nat, ns: seq<Node>)
    requires j < |ev| && node < |ns| && TreeOk(ns)
    ensures TreeOk(Scan(ev, j, node, ns).0)
    decreases |ev| - j, 0
  {
    if j + 1 < |ev| {
      match ev[j + 1]
      case End =>
      case Other => ScanKeepsTree(ev, j + 1, node, ns);
      case Start(n, _) =>
        var child := if IsValidTag(n) then Elements(ev, j + 1, n, |ns|, AddNode(ns, n, node)) else (ns, SkipTo(ev, j + 1));
        if IsValidTag(n) {
          AppendWellFormed(ns, node, n);
          ElementsKeepTree(ev, j + 1, n, |ns|, AddNode(ns, n, node));
        }
        if child.1.Ok? {
          ScanKeepsTree(ev, child.1.value, node, child.0);
        }
    }
  }
}
