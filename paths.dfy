/** parsePath: the interpreter of path data (section 8.3 of SVG 1.1).  It
    walks the `d` attribute with a ParserHelper, keeping the current point
    (lastX, lastY), the remembered control point (lastX1, lastY1) and the
    current command, and appends operations to an android.graphics.Path,
    which is kept here as the list of calls made on it.  The elliptical arc
    stays an operation carrying its endpoints, radii and flags: its
    conversion to cubic segments is trigonometry outside this model. */
module Paths {
  import opened Base
  import opened Floats
  import opened Tokenizer

  datatype PathOp =
    | MoveTo(x: Float, y: Float)
    | RMoveTo(dx: Float, dy: Float)
    | LineTo(x: Float, y: Float)
    | RLineTo(dx: Float, dy: Float)
    | CubicTo(x1: Float, y1: Float, x2: Float, y2: Float, x: Float, y: Float)
    | Close
    | Arc(x0: Float, y0: Float, x: Float, y: Float, rx: Float, ry: Float, angle: Float, largeArc: bool, sweep: bool)

  /** The interpreter's state between two iterations of its loop. */
  datatype Cursor = Cursor(pos: nat, cmd: char, lastX: Float, lastY: Float, lastX1: Float, lastY1: Float, ops: seq<PathOp>)

  const Two: Float := Fin(2.0)

  /** The state after the initial skipWhitespace: no command yet ('x'),
      everything at 0, an empty Path. */
  function Start(s: string): (c: Cursor)
    ensures c.pos <= |s| && c.ops == []
  {
    Cursor(WhitespaceEnd(s, 0), 'x', Zero, Zero, Zero, Zero, [])
  }

  /** The characters that continue the current command instead of naming a new one. */
  predicate IsNumberStart(c: char)
  {
    IsDigit(c) || c == '.' || c == '-'
  }

  /** How many numbers a command reads; 0 for Z/z and for the letters the
      interpreter does not handle (Q, T and any other character). */
  function Arity(c: char): nat
  {
    if c == 'M' || c == 'm' || c == 'L' || c == 'l' then 2
    else if c == 'H' || c == 'h' || c == 'V' || c == 'v' then 1
    else if c == 'C' || c == 'c' then 6
    else if c == 'S' || c == 's' then 4
    else if c == 'A' || c == 'a' then 7
    else 0
  }

  /** The commands with a case of their own; every other character takes
      the default branch. */
  predicate IsHandled(c: char)
  {
    Arity(c) > 0 || c == 'Z' || c == 'z'
  }

  /** k successive nextFloat calls from position p: the numbers and the
      position after the last one, or the exception of the first that fails. */
  function ReadFloats(s: string, p: nat, scale: Float, k: nat): (r: Result<(seq<Float>, nat)>)
    requires p <= |s|
    ensures r.Ok? ==> |r.value.0| == k && p <= r.value.1 <= |s|
    ensures r.Ok? && k > 0 && p < |s| && IsNumberStart(s[p]) ==> r.value.1 > p
    decreases k
  {
    if k == 0 then Ok(([], p))
    else
      var sc := NextFloatSpec(s, p, scale);
      match sc.result
      case Err(e) => Err(e)
      case Ok(f) =>
        match ReadFloats(s, sc.end, scale, k - 1)
        case Err(e) => Err(e)
        case Ok(rest) =>
          NextFloatProgress(s, p, scale);
          Ok(([f] + rest.0, rest.1))
  }

  lemma NextFloatProgress(s: string, p: nat, scale: Float)
    requires p <= |s|
    ensures p < |s| && IsNumberStart(s[p]) ==> NextFloatSpec(s, p, scale).end > p
  {
    if p < |s| && IsNumberStart(s[p]) {
      NextFloatAdvances(s, p, scale);
    }
  }

  /** The command an iteration executes, and the position after its letter:
      a letter becomes the command and is consumed; a number continues the
      current command, except that numbers after M/m are implied L/l. */
  function CommandAt(s: string, st: Cursor): (r: (char, nat))
    requires st.pos < |s|
    ensures st.pos <= r.1 <= st.pos + 1 && r.1 <= |s|
    ensures r.1 == st.pos <==> IsNumberStart(s[st.pos])
  {
    var next := s[st.pos];
    if !IsNumberStart(next) then (next, st.pos + 1)
    else if st.cmd == 'M' then ('L', st.pos)
    else if st.cmd == 'm' then ('l', st.pos)
    else (st.cmd, st.pos)
  }

  /** The effect of command c with operands v on the current point, the
      remembered control point and the Path.  After any command other than
      C/c and S/s the remembered control point is the current point. */
  function Apply(c: char, v: seq<Float>, st: Cursor): (r: Cursor)
    requires |v| == Arity(c)
    ensures r.pos == st.pos && r.cmd == st.cmd
  {
    var st1 :=
      if c == 'M' then st.(lastX := v[0], lastY := v[1], ops := st.ops + [MoveTo(v[0], v[1])])
      else if c == 'm' then st.(lastX := Add(st.lastX, v[0]), lastY := Add(st.lastY, v[1]), ops := st.ops + [RMoveTo(v[0], v[1])])
      else if c == 'Z' || c == 'z' then st.(ops := st.ops + [Close])
      else if c == 'L' then st.(lastX := v[0], lastY := v[1], ops := st.ops + [LineTo(v[0], v[1])])
      else if c == 'l' then st.(lastX := Add(st.lastX, v[0]), lastY := Add(st.lastY, v[1]), ops := st.ops + [RLineTo(v[0], v[1])])
      else if c == 'H' then st.(lastX := v[0], ops := st.ops + [LineTo(v[0], st.lastY)])
      else if c == 'h' then st.(lastX := Add(st.lastX, v[0]), ops := st.ops + [RLineTo(v[0], Zero)])
      else if c == 'V' then st.(lastY := v[0], ops := st.ops + [LineTo(st.lastX, v[0])])
      else if c == 'v' then st.(lastY := Add(st.lastY, v[0]), ops := st.ops + [RLineTo(Zero, v[0])])
      else if c == 'C' || c == 'c' then
        var dx := if c == 'c' then st.lastX else Zero;
        var dy := if c == 'c' then st.lastY else Zero;
        var x1 := if c == 'c' then Add(v[0], dx) else v[0];
        var y1 := if c == 'c' then Add(v[1], dy) else v[1];
        var x2 := if c == 'c' then Add(v[2], dx) else v[2];
        var y2 := if c == 'c' then Add(v[3], dy) else v[3];
        var x := if c == 'c' then Add(v[4], dx) else v[4];
        var y := if c == 'c' then Add(v[5], dy) else v[5];
        st.(lastX1 := x2, lastY1 := y2, lastX := x, lastY := y, ops := st.ops + [CubicTo(x1, y1, x2, y2, x, y)])
      else if c == 'S' || c == 's' then
        var x2 := if c == 's' then Add(v[0], st.lastX) else v[0];
        var y2 := if c == 's' then Add(v[1], st.lastY) else v[1];
        var x := if c == 's' then Add(v[2], st.lastX) else v[2];
        var y := if c == 's' then Add(v[3], st.lastY) else v[3];
        var x1 := Sub(Mul(Two, st.lastX), st.lastX1);
        var y1 := Sub(Mul(Two, st.lastY), st.lastY1);
        st.(lastX1 := x2, lastY1 := y2, lastX := x, lastY := y, ops := st.ops + [CubicTo(x1, y1, x2, y2, x, y)])
      else if c == 'A' || c == 'a' then
        var x := if c == 'a' then Add(v[5], st.lastX) else v[5];
        var y := if c == 'a' then Add(v[6], st.lastY) else v[6];
        st.(lastX := x, lastY := y,
            ops := st.ops + [Arc(st.lastX, st.lastY, x, y, v[0], v[1], v[2], JavaToInt(v[3]) == 1, JavaToInt(v[4]) == 1)])
      else st;
    if c == 'C' || c == 'c' || c == 'S' || c == 's' then st1 else st1.(lastX1 := st1.lastX, lastY1 := st1.lastY)
  }

  /** What each command does to the current point, the remembered control
      point and the Path. */
  lemma CommandEffect(c: char, v: seq<Float>, st: Cursor)
    requires |v| == Arity(c)
    ensures var r := Apply(c, v, st);
      // absolute M/L set the current point, relative m/l add to it
      && (c == 'M' || c == 'L' ==> r.lastX == v[0] && r.lastY == v[1])
      && (c == 'm' || c == 'l' ==> r.lastX == Add(st.lastX, v[0]) && r.lastY == Add(st.lastY, v[1]))
      // H/h change only x, V/v only y, and Z/z neither
      && (c == 'H' || c == 'h' ==> r.lastY == st.lastY)
      && (c == 'V' || c == 'v' ==> r.lastX == st.lastX)
      && (c == 'Z' || c == 'z' ==> r.lastX == st.lastX && r.lastY == st.lastY && r.ops == st.ops + [Close])
      // a handled command appends one operation; any other leaves the Path alone
      && (IsHandled(c) ==> |r.ops| == |st.ops| + 1 && r.ops[..|st.ops|] == st.ops)
      && (!IsHandled(c) ==> r.ops == st.ops && r.lastX == st.lastX && r.lastY == st.lastY)
      // the remembered control point: a curve's second control point, otherwise the current point
      && (c == 'C' || c == 'c' || c == 'S' || c == 's' ==>
           r.ops[|st.ops|].CubicTo? && r.lastX1 == r.ops[|st.ops|].x2 && r.lastY1 == r.ops[|st.ops|].y2
           && r.lastX == r.ops[|st.ops|].x && r.lastY == r.ops[|st.ops|].y)
      && (!(c == 'C' || c == 'c' || c == 'S' || c == 's') ==> r.lastX1 == r.lastX && r.lastY1 == r.lastY)
  {
  }

  /** One iteration of the loop as written: pick the command, read its
      operands, apply it, take the default branch's extra advance for an
      unhandled command, and skip white space. */
  function Step(s: string, scale: Float, st: Cursor): (r: Result<Cursor>)
    requires st.pos < |s|
    ensures r.Ok? ==> st.pos <= r.value.pos <= |s|
    ensures r.Ok? && !Stalls(s, st) ==> r.value.pos > st.pos
  {
    var ca := CommandAt(s, st);
    var c := ca.0;
    match ReadFloats(s, ca.1, scale, Arity(c))
    case Err(e) => Err(e)
    case Ok(rd) =>
      var st1 := Apply(c, rd.0, st.(pos := rd.1, cmd := c));
      var p2 := if IsHandled(c) || st1.pos == |s| then st1.pos else st1.pos + 1;
      Ok(st1.(pos := WhitespaceEnd(s, p2)))
  }

  /** The iteration that makes no progress: the current command is Z/z and
      the next character continues it. */
  predicate Stalls(s: string, st: Cursor)
  {
    st.pos < |s| && IsNumberStart(s[st.pos]) && (st.cmd == 'Z' || st.cmd == 'z')
  }

  /** The loop of parsePath from state st, ending at the end of the text,
      on the first exception, or where the loop as written would stall. */
  function PathFrom(s: string, scale: Float, st: Cursor): (r: Result<seq<PathOp>>)
    requires st.pos <= |s|
    ensures r.Ok? ==> |st.ops| <= |r.value| && r.value[..|st.ops|] == st.ops
    decreases |s| - st.pos
  {
    if st.pos == |s| || Stalls(s, st) then Ok(st.ops)
    else
      match Step(s, scale, st)
      case Err(e) => Err(e)
      case Ok(st1) =>
        StepKeepsOps(s, scale, st);
        var r := PathFrom(s, scale, st1);
        assert r.Ok? ==> r.value[..|st.ops|] == r.value[..|st1.ops|][..|st.ops|];
        r
  }

  lemma StepKeepsOps(s: string, scale: Float, st: Cursor)
    requires st.pos < |s|
    ensures Step(s, scale, st).Ok? ==> |st.ops| <= |Step(s, scale, st).value.ops| && Step(s, scale, st).value.ops[..|st.ops|] == st.ops
  {
    var ca := CommandAt(s, st);
    var rd := ReadFloats(s, ca.1, scale, Arity(ca.0));
    if rd.Ok? {
      CommandEffect(ca.0, rd.value.0, st.(pos := rd.value.1, cmd := ca.0));
    }
  }


  /** The loop goes on from the state one iteration produces. */
  lemma PathFromStep(s: string, scale: Float, st: Cursor)
    requires st.pos < |s| && !Stalls(s, st)
    ensures Step(s, scale, st).Err? ==> PathFrom(s, scale, st) == Err(Step(s, scale, st).error)
    ensures Step(s, scale, st).Ok? ==> PathFrom(s, scale, st) == PathFrom(s, scale, Step(s, scale, st).value)
  {
  }

  /** parsePath, with the stalled iteration ending the loop.  Empty path
      data fails in the ParserHelper constructor. */
  method ParsePath(s: string, scale: Float) returns (r: Result<seq<PathOp>>)
    ensures |s| == 0 ==> r == Err(IndexOutOfBounds)
    ensures |s| > 0 ==> r == PathFrom(s, scale, Start(s))
  {
    var n := |s|;
    if n == 0 {
      return Err(IndexOutOfBounds);
    }
    var ph := new ParserHelper(s, 0);
    ph.SkipWhitespace();
    var st := Start(s);
    while ph.pos < n
      invariant ph.Valid() && ph.s == s && st.pos == ph.pos
      invariant PathFrom(s, scale, st) == PathFrom(s, scale, Start(s))
      decreases n - ph.pos
    {
      if IsNumberStart(s[ph.pos]) && (st.cmd == 'Z' || st.cmd == 'z') {
        return Ok(st.ops);
      }
      PathFromStep(s, scale, st);
      var next := Iterate(ph, scale, st);
      if next.Err? {
        return Err(next.error);
      }
      st := next.value;
    }
    return Ok(st.ops);
  }

  /** The head of an iteration: a letter is consumed and becomes the
      command; a number keeps the command, turning M/m into L/l. */
  method NextCommand(ph: ParserHelper, st: Cursor) returns (cmd: char)
    requires ph.Valid() && st.pos == ph.pos < |ph.s|
    modifies ph
    ensures ph.Valid()
    ensures (cmd, ph.pos) == CommandAt(ph.s, st)
  {
    var next := ph.s[ph.pos];
    cmd := st.cmd;
    if !IsNumberStart(next) {
      cmd := next;
      ph.Advance();
    } else if cmd == 'M' {
      cmd := 'L';
    } else if cmd == 'm' {
      cmd := 'l';
    }
  }

  lemma StepOk(s: string, scale: Float, st: Cursor, v: seq<Float>, p: nat)
    requires st.pos < |s|
    requires ReadFloats(s, CommandAt(s, st).1, scale, Arity(CommandAt(s, st).0)) == Ok((v, p))
    ensures
      var c := CommandAt(s, st).0;
      var st1 := Apply(c, v, st.(pos := p, cmd := c));
      Step(s, scale, st) == Ok(st1.(pos := WhitespaceEnd(s, if IsHandled(c) || p == |s| then p else p + 1)))
  {
  }

  /** One iteration of parsePath's loop on the cursor ph. */
  method Iterate(ph: ParserHelper, scale: Float, st: Cursor) returns (r: Result<Cursor>)
    requires ph.Valid() && st.pos == ph.pos < |ph.s|
    modifies ph
    ensures ph.Valid()
    ensures r == Step(ph.s, scale, st)
    ensures r.Ok? ==> ph.pos == r.value.pos
  {
    var cmd := NextCommand(ph, st);
    var v := ReadOperands(ph, scale, Arity(cmd));
    if v.Err? {
      return Err(v.error);
    }
    var st1 := Apply(cmd, v.value, st.(pos := ph.pos, cmd := cmd));
    StepOk(ph.s, scale, st, v.value, ph.pos);
    if !IsHandled(cmd) {
      ph.Advance();
    }
    ph.SkipWhitespace();
    r := Ok(st1.(pos := ph.pos));
  }

  /** Reads the k operands of a command with k nextFloat calls. */
  method ReadOperands(ph: ParserHelper, scale: Float, k: nat) returns (r: Result<seq<Float>>)
    requires ph.Valid()
    modifies ph
    ensures ph.Valid()
    ensures match ReadFloats(ph.s, old(ph.pos), scale, k)
      case Err(e) => r == Err(e)
      case Ok(rd) => r == Ok(rd.0) && ph.pos == rd.1
    decreases k
  {
    if k == 0 {
      return Ok([]);
    }
    var f := ph.NextFloat(scale);
    if f.Err? {
      return Err(f.error);
    }
    var rest := ReadOperands(ph, scale, k - 1);
    if rest.Err? {
      return Err(rest.error);
    }
    return Ok([f.value] + rest.value);
  }

  /** A number right after M/m continues as an implied L/l: the iteration
      draws a line instead of starting a new subpath. */
  lemma ImpliedLineTo(s: string, scale: Float, st: Cursor, v: seq<Float>, p: nat)
    requires st.pos < |s| && IsNumberStart(s[st.pos]) && st.cmd == 'M'
    requires ReadFloats(s, st.pos, scale, 2) == Ok((v, p))
    ensures Step(s, scale, st).Ok?
    ensures Step(s, scale, st).value.cmd == 'L' && Step(s, scale, st).value.ops == st.ops + [LineTo(v[0], v[1])]
  {
    assert CommandAt(s, st) == ('L', st.pos);
    assert Apply('L', v, st.(pos := p, cmd := 'L')).ops == st.ops + [LineTo(v[0], v[1])];
    StepOk(s, scale, st, v, p);
  }

  /** The same after m: an implied l draws a relative line. */
  lemma ImpliedRLineTo(s: string, scale: Float, st: Cursor, v: seq<Float>, p: nat)
    requires st.pos < |s| && IsNumberStart(s[st.pos]) && st.cmd == 'm'
    requires ReadFloats(s, st.pos, scale, 2) == Ok((v, p))
    ensures Step(s, scale, st).Ok?
    ensures Step(s, scale, st).value.cmd == 'l' && Step(s, scale, st).value.ops == st.ops + [RLineTo(v[0], v[1])]
  {
    assert CommandAt(s, st) == ('l', st.pos);
    assert Apply('l', v, st.(pos := p, cmd := 'l')).ops == st.ops + [RLineTo(v[0], v[1])];
    StepOk(s, scale, st, v, p);
  }

  /** Q, T and any other unhandled letter take the default branch: the
      letter and the character after it are skipped and the Path is left
      as it was. */
  lemma UnhandledCommandSkips(s: string, scale: Float, st: Cursor)
    requires st.pos < |s| && !IsNumberStart(s[st.pos]) && !IsHandled(s[st.pos])
    ensures Step(s, scale, st).Ok?
    ensures var r := Step(s, scale, st).value;
      r.ops == st.ops && r.cmd == s[st.pos]
      && r.pos == WhitespaceEnd(s, if st.pos + 1 == |s| then |s| else st.pos + 2)
  {
    StepOk(s, scale, st, [], st.pos + 1);
  }

  /** The loop as written, run for at most n iterations. */
  function RunAsWritten(s: string, scale: Float, st: Cursor, n: nat): (r: Result<Cursor>)
    requires st.pos <= |s|
    ensures r.Ok? ==> r.value.pos <= |s|
    decreases n
  {
    if n == 0 || st.pos == |s| then Ok(st)
    else
      match Step(s, scale, st)
      case Err(e) => Err(e)
      case Ok(st1) => RunAsWritten(s, scale, st1, n - 1)
  }

  /** A stalled iteration closes the path again and leaves the cursor and
      the command where they were, so it stalls again. */
  lemma StallRepeats(s: string, scale: Float, st: Cursor)
    requires Stalls(s, st)
    ensures Step(s, scale, st) == Ok(st.(lastX1 := st.lastX, lastY1 := st.lastY, ops := st.ops + [Close]))
  {
    assert WhitespaceEnd(s, st.pos) == st.pos;
    assert CommandAt(s, st) == (st.cmd, st.pos);
    assert ReadFloats(s, st.pos, scale, 0) == Ok(([], st.pos));
    ApplyClose(st.cmd, st);
    StepOk(s, scale, st, [], st.pos);
  }

  lemma ApplyClose(c: char, st: Cursor)
    requires c == 'Z' || c == 'z'
    ensures Apply(c, [], st) == st.(lastX1 := st.lastX, lastY1 := st.lastY, ops := st.ops + [Close])
  {
  }

  /** As written, once the loop stalls it never reaches the end of the text:
      after any number of further iterations it is at the same position,
      with one more Close per iteration. */
  lemma {:induction false} StallIsForever(s: string, scale: Float, st: Cursor, n: nat)
    requires Stalls(s, st)
    ensures RunAsWritten(s, scale, st, n).Ok?
    ensures RunAsWritten(s, scale, st, n).value.pos == st.pos < |s|
    ensures |RunAsWritten(s, scale, st, n).value.ops| == |st.ops| + n
    decreases n
  {
    if n > 0 {
      StallRepeats(s, scale, st);
      StallIsForever(s, scale, st.(lastX1 := st.lastX, lastY1 := st.lastY, ops := st.ops + [Close]), n - 1);
    }
  }

  /** "z1": the loop as written closes the path and then repeats forever at
      the '1'; the interpreter here stops there with the one Close. */
  lemma CloseThenNumber(scale: Float, s: string)
    requires s == "z1"
    ensures forall n: nat | n >= 1 :: RunAsWritten(s, scale, Start(s), n).Ok? && RunAsWritten(s, scale, Start(s), n).value.pos == 1
    ensures PathFrom(s, scale, Start(s)) == Ok([Close])
  {
    var st0 := Start(s);
    assert WhitespaceEnd(s, 0) == 0;
    StepOk(s, scale, st0, [], 1);
    assert WhitespaceEnd(s, 1) == 1;
    var st1 := Step(s, scale, st0).value;
    assert st1.pos == 1 && st1.cmd == 'z' && st1.ops == [Close];
    assert Stalls(s, st1);
    forall n: nat | n >= 1
      ensures RunAsWritten(s, scale, st0, n).Ok? && RunAsWritten(s, scale, st0, n).value.pos == 1
    {
      StallIsForever(s, scale, st1, n - 1);
      assert RunAsWritten(s, scale, st0, n) == RunAsWritten(s, scale, st1, n - 1);
    }
  }

  /** The smooth curve's first control point is the reflection of the
      previous curve's second control point about the current point:
      M0,0 C0,0 10,0 10,10 S20,20 20,0 draws its second curve from (10,20). */
  lemma SmoothReflectsControl(st: Cursor)
    requires st.pos == 0
    ensures
      var m := Apply('M', [Fin(0.0), Fin(0.0)], st);
      var c := Apply('C', [Fin(0.0), Fin(0.0), Fin(10.0), Fin(0.0), Fin(10.0), Fin(10.0)], m);
      var sm := Apply('S', [Fin(20.0), Fin(20.0), Fin(20.0), Fin(0.0)], c);
      sm.ops == st.ops + [MoveTo(Fin(0.0), Fin(0.0)), CubicTo(Fin(0.0), Fin(0.0), Fin(10.0), Fin(0.0), Fin(10.0), Fin(10.0)),
                          CubicTo(Fin(10.0), Fin(20.0), Fin(20.0), Fin(20.0), Fin(20.0), Fin(0.0))]
  {
  }

  /** After a command that is not a curve, the smooth curve's first control
      point is the current point. */
  lemma SmoothAfterLineStartsAtCursor(st: Cursor, x: real, y: real, w: seq<Float>)
    requires |w| == 4
    ensures
      var l := Apply('L', [Fin(x), Fin(y)], st);
      var sm := Apply('S', w, l);
      sm.ops[|l.ops|].x1 == Fin(x) && sm.ops[|l.ops|].y1 == Fin(y)
  {
  }
}
