/** What the parser keeps from the event stream: the attribute map an
    element's setAttr calls build, and, in document order, the elements
    parseElements turns into tree nodes (those with a whitelisted tag that
    are not inside a skipped element). */
module Markup {
  import opened Base
  import opened Tree

  /** The map after setAttr for each pair in order. */
  function PutAll(m: map<string, string>, attrs: seq<(string, string)>): map<string, string>
  {
    if |attrs| == 0 then m
    else PutAll(m, attrs[..|attrs| - 1])[attrs[|attrs| - 1].0 := attrs[|attrs| - 1].1]
  }

  /** The index of the last pair naming `k`, or -1 when none does. */
  function LastKey(attrs: seq<(string, string)>, k: string): (i: int)
    ensures -1 <= i < |attrs|
    ensures i >= 0 ==> attrs[i].0 == k
    ensures forall j :: i < j < |attrs| ==> attrs[j].0 != k
  {
    if |attrs| == 0 then -1
    else if attrs[|attrs| - 1].0 == k then |attrs| - 1
    else LastKey(attrs[..|attrs| - 1], k)
  }

  /** An attribute given twice keeps the later value (HashMap.put); one
      not given keeps what the map had. */
  lemma {:induction false} PutAllLastWins(m: map<string, string>, attrs: seq<(string, string)>, k: string)
    ensures LastKey(attrs, k) >= 0 ==> k in PutAll(m, attrs) && PutAll(m, attrs)[k] == attrs[LastKey(attrs, k)].1
    ensures LastKey(attrs, k) < 0 ==> (k in PutAll(m, attrs) <==> k in m) && (k in m ==> PutAll(m, attrs)[k] == m[k])
    decreases |attrs|
  {
    if |attrs| > 0 {
      var n := |attrs| - 1;
      PutAllLastWins(m, attrs[..n], k);
      if attrs[n].0 != k {
        var i := LastKey(attrs[..n], k);
        assert i >= 0 ==> attrs[..n][i] == attrs[i];
      }
    }
  }

  /** The elements kept from events [j, end), each as its tag and the
      attributes it is given, in document order.  `skip` counts the levels
      open inside an element being skipped (0 when none is): a start tag
      inside one only deepens it, an end tag closes a level, and at the top
      a whitelisted start tag is kept while any other starts a skip. */
  function Kept(ev: seq<Event>, j: nat, end: nat, skip: nat): seq<(string, map<string, string>)>
    requires end <= |ev|
    decreases end - j
  {
    if j >= end then []
    else match ev[j]
      case Start(n, a) =>
        if skip > 0 then Kept(ev, j + 1, end, skip + 1)
        else if IsValidTag(n) then [(n, PutAll(map[], a))] + Kept(ev, j + 1, end, 0)
        else Kept(ev, j + 1, end, 1)
      case End => Kept(ev, j + 1, end, if skip > 0 then skip - 1 else 0)
      case Other => Kept(ev, j + 1, end, skip)
  }

  /** The skip depth after events [j, end). */
  function SkipAfter(ev: seq<Event>, j: nat, end: nat, skip: nat): nat
    requires end <= |ev|
    decreases end - j
  {
    if j >= end then skip
    else match ev[j]
      case Start(n, _) =>
        if skip > 0 then SkipAfter(ev, j + 1, end, skip + 1)
        else if IsValidTag(n) then SkipAfter(ev, j + 1, end, 0)
        else SkipAfter(ev, j + 1, end, 1)
      case End => SkipAfter(ev, j + 1, end, if skip > 0 then skip - 1 else 0)
      case Other => SkipAfter(ev, j + 1, end, skip)
  }

  /** Scanning a range in two pieces keeps the same elements. */
  lemma {:induction false} KeptSplit(ev: seq<Event>, a: nat, b: nat, c: nat, s: nat)
    requires a <= b <= c <= |ev|
    ensures Kept(ev, a, c, s) == Kept(ev, a, b, s) + Kept(ev, b, c, SkipAfter(ev, a, b, s))
    ensures SkipAfter(ev, a, c, s) == SkipAfter(ev, b, c, SkipAfter(ev, a, b, s))
    decreases b - a
  {
    if a < b {
      var s' := match ev[a]
        case Start(n, _) => if s > 0 then s + 1 else if IsValidTag(n) then 0 else 1
        case End => if s > 0 then s - 1 else 0
        case Other => s;
      KeptSplit(ev, a + 1, b, c, s');
      assert Kept(ev, a, c, s) == Kept(ev, a, a + 1, s) + Kept(ev, a + 1, c, s');
      assert Kept(ev, a, b, s) == Kept(ev, a, a + 1, s) + Kept(ev, a + 1, b, s');
    }
  }

  /** Everything up to the end tag that closes a skip is dropped, and the
      skip is over after it. */
  lemma {:induction false} SkippedIsDropped(ev: seq<Event>, j: nat, d: nat, k: nat)
    requires d > 0 && CloseFrom(ev, j, d) == Some(k)
    ensures Kept(ev, j, k + 1, d) == [] && SkipAfter(ev, j, k + 1, d) == 0
    decreases |ev| - j
  {
    match ev[j]
    case End => if d > 1 { SkippedIsDropped(ev, j + 1, d - 1, k); }
    case Start(_, _) => SkippedIsDropped(ev, j + 1, d + 1, k);
    case Other => SkippedIsDropped(ev, j + 1, d, k);
  }

  /** The first event that is not text: what XmlPullParser.nextTag moves to. */
  function NextTag(ev: seq<Event>, j: nat): (k: Option<nat>)
    ensures k.Some? ==> j <= k.value < |ev| && !ev[k.value].Other? && forall m :: j <= m < k.value ==> ev[m].Other?
    ensures k.None? ==> forall m :: j <= m < |ev| ==> ev[m].Other?
    decreases |ev| - j
  {
    if j >= |ev| then None
    else if !ev[j].Other? then Some(j)
    else NextTag(ev, j + 1)
  }
}
