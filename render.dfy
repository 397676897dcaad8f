/** Replay of the drawing history onto the canvas (`redraw` and `drawPath`
    in scripts/components/canvas.js). The 2D context is modelled by the log
    of calls made on it, not by pixels; these functions give the calls a
    replay makes, and a reader of such a log recovers the strokes drawn. */
module Render {
  import opened Wrappers
  import opened Drawing
  import Sequences

  /** One call on the canvas' 2D context: a method call, or an assignment
      to one of its drawing-state properties. */
  datatype Op =
    | ClearRect(width: int, height: int)
    | BeginPath
    | SetStrokeStyle(color: string)
    | SetLineWidth(lineWidth: int)
    | SetLineJoin(join: string)
    | SetLineCap(cap: string)
    | MoveTo(p: Point)
    | LineTo(p: Point)
    | Stroke

  /** One `lineTo` per point, in order. */
  function LineOps(ps: seq<Point>): seq<Op>
  {
    if ps == [] then [] else [LineTo(ps[0])] + LineOps(ps[1..])
  }

  /** `drawPath`: nothing for fewer than two points; otherwise one
      polyline with the command's colour and effective width. */
  function DrawPathOps(c: Command): seq<Op>
  {
    if |c.points| < 2 then []
    else [BeginPath, SetStrokeStyle(c.color), SetLineWidth(EffectiveWidth(c)), MoveTo(c.points[0])]
         + LineOps(c.points[1..]) + [Stroke]
  }

  /** What the loop of `redraw` does for one command: only paths are drawn. */
  function CommandOps(c: Command): seq<Op>
  {
    if c.kind == "path" then DrawPathOps(c) else []
  }

  /** The commands of a history, replayed in history order. */
  function ReplayOps(hist: seq<Command>): seq<Op>
  {
    if hist == [] then [] else CommandOps(hist[0]) + ReplayOps(hist[1..])
  }

  /** `redraw`: clear the whole canvas, then replay the history. */
  function RedrawOps(width: int, height: int, hist: seq<Command>): seq<Op>
  {
    [ClearRect(width, height)] + ReplayOps(hist)
  }

  /** How one call changes the context's line width. As for any canvas 2D
      context, an assignment of a width that is not positive is ignored. */
  function ApplyWidth(w: int, op: Op): int
  {
    if op.SetLineWidth? && op.lineWidth > 0 then op.lineWidth else w
  }

  /** The context's line width after the calls `ops`, starting from `w`. */
  function LineWidthAfter(w: int, ops: seq<Op>): int
  {
    if ops == [] then w else ApplyWidth(LineWidthAfter(w, ops[..|ops| - 1]), ops[|ops| - 1])
  }

  /** The calls `draw` makes for one pointer move: a single segment from the
      previous point to the new one, in the current colour and whatever line
      width the context has. */
  function SegmentOps(color: string, from: Point, to: Point): seq<Op>
  {
    [BeginPath, SetStrokeStyle(color), MoveTo(from), LineTo(to), Stroke]
  }

  /** Running two logs one after the other sets the width the second leaves
      from the width the first leaves. */
  lemma {:induction false} LineWidthAfterAppend(w: int, a: seq<Op>, b: seq<Op>)
    ensures LineWidthAfter(w, a + b) == LineWidthAfter(LineWidthAfter(w, a), b)
    decreases |b|
  {
    if b == [] {
      assert a + b == a;
    } else {
      var b' := b[..|b| - 1];
      assert (a + b)[..|a + b| - 1] == a + b';
      LineWidthAfterAppend(w, a, b');
    }
  }

  /** A segment drawn by `draw` leaves the context's line width as it was. */
  lemma SegmentKeepsWidth(w: int, color: string, from: Point, to: Point)
    ensures LineWidthAfter(w, SegmentOps(color, from, to)) == w
  {
    WidthUnchangedWithoutSet(w, SegmentOps(color, from, to));
  }

  /** Calls that assign no line width leave it as it was. */
  lemma {:induction false} WidthUnchangedWithoutSet(w: int, ops: seq<Op>)
    requires forall i :: 0 <= i < |ops| ==> !ops[i].SetLineWidth?
    ensures LineWidthAfter(w, ops) == w
  {
    if ops != [] {
      WidthUnchangedWithoutSet(w, ops[..|ops| - 1]);
    }
  }

  lemma {:induction false} LineOpsSnoc(ps: seq<Point>, p: Point)
    ensures LineOps(ps + [p]) == LineOps(ps) + [LineTo(p)]
  {
    if ps == [] {
      assert [p][1..] == [];
    } else {
      assert (ps + [p])[1..] == ps[1..] + [p];
      LineOpsSnoc(ps[1..], p);
    }
  }

  lemma {:induction false} ReplayOpsSnoc(hist: seq<Command>, c: Command)
    ensures ReplayOps(hist + [c]) == ReplayOps(hist) + CommandOps(c)
  {
    if hist == [] {
      assert [c][1..] == [];
    } else {
      assert (hist + [c])[1..] == hist[1..] + [c];
      ReplayOpsSnoc(hist[1..], c);
    }
  }

  /** Redrawing one more command makes the calls of the shorter redraw,
      then that command's. */
  lemma RedrawOpsSnoc(width: int, height: int, hist: seq<Command>, c: Command)
    ensures RedrawOps(width, height, hist + [c]) == RedrawOps(width, height, hist) + CommandOps(c)
  {
    ReplayOpsSnoc(hist, c);
  }

  lemma LineWidthAfterSnoc(w: int, ops: seq<Op>, op: Op)
    ensures LineWidthAfter(w, ops + [op]) == ApplyWidth(LineWidthAfter(w, ops), op)
  {
    assert (ops + [op])[..|ops|] == ops;
  }

  /** A command is drawn at all exactly when it is a path of two or more points. */
  lemma CommandOpsDrawnIff(c: Command)
    ensures CommandOps(c) != [] <==> IsDrawable(c)
  {
  }

  /** Calls that assign no width around one call `op`: the width is what
      `op` makes of it. */
  lemma OneWidthCall(w: int, a: seq<Op>, op: Op, b: seq<Op>)
    requires forall i :: 0 <= i < |a| ==> !a[i].SetLineWidth?
    requires forall i :: 0 <= i < |b| ==> !b[i].SetLineWidth?
    ensures LineWidthAfter(w, a + [op] + b) == ApplyWidth(w, op)
  {
    WidthUnchangedWithoutSet(w, a);
    LineWidthAfterSnoc(w, a, op);
    LineWidthAfterAppend(w, a + [op], b);
    WidthUnchangedWithoutSet(ApplyWidth(w, op), b);
  }

  /** `drawPath` leaves the context with the command's effective width, if it
      draws and that width is positive, and with the width it had otherwise. */
  lemma DrawPathWidth(w: int, c: Command)
    ensures LineWidthAfter(w, DrawPathOps(c))
            == if |c.points| >= 2 && EffectiveWidth(c) > 0 then EffectiveWidth(c) else w
  {
    if |c.points| >= 2 {
      var lines := LineOps(c.points[1..]);
      LineOpsAt(c.points[1..]);
      assert DrawPathOps(c)
             == [BeginPath, SetStrokeStyle(c.color)] + [SetLineWidth(EffectiveWidth(c))] + ([MoveTo(c.points[0])] + lines + [Stroke]);
      OneWidthCall(w, [BeginPath, SetStrokeStyle(c.color)], SetLineWidth(EffectiveWidth(c)), [MoveTo(c.points[0])] + lines + [Stroke]);
    }
  }

  /** A replay of strokes that all have the context's positive width leaves
      the context with that width. */
  lemma {:induction false} ReplayKeepsWidth(w: int, hist: seq<Command>)
    requires w > 0 && StrokesOfWidth(hist, w)
    ensures LineWidthAfter(w, ReplayOps(hist)) == w
  {
    if hist != [] {
      LineWidthAfterAppend(w, CommandOps(hist[0]), ReplayOps(hist[1..]));
      DrawPathWidth(w, hist[0]);
      assert StrokesOfWidth(hist[1..], w) by {
        forall i | 0 <= i < |hist[1..]| ensures hist[1..][i].lineWidth == w {
          assert hist[1..][i] == hist[i + 1];
        }
      }
      ReplayKeepsWidth(w, hist[1..]);
    }
  }

  /** So does a whole `redraw`. */
  lemma RedrawKeepsWidth(w: int, width: int, height: int, hist: seq<Command>)
    requires w > 0 && StrokesOfWidth(hist, w)
    ensures LineWidthAfter(w, RedrawOps(width, height, hist)) == w
  {
    LineWidthAfterAppend(w, [ClearRect(width, height)], ReplayOps(hist));
    LineWidthAfterSnoc(w, [], ClearRect(width, height));
    assert [] + [ClearRect(width, height)] == [ClearRect(width, height)];
    ReplayKeepsWidth(w, hist);
  }

  /** A drawn command is a single polyline: `beginPath`, its style, a `moveTo`
      its first point, a `lineTo` each later point, `stroke`. */
  lemma DrawPathShape(c: Command)
    requires |c.points| >= 2
    ensures |DrawPathOps(c)| == |c.points| + 4
    ensures DrawPathOps(c)[0] == BeginPath
    ensures DrawPathOps(c)[1] == SetStrokeStyle(c.color)
    ensures DrawPathOps(c)[2] == SetLineWidth(EffectiveWidth(c))
    ensures DrawPathOps(c)[3] == MoveTo(c.points[0])
    ensures forall i :: 1 <= i < |c.points| ==> DrawPathOps(c)[3 + i] == LineTo(c.points[i])
    ensures DrawPathOps(c)[|c.points| + 3] == Stroke
  {
    LineOpsAt(c.points[1..]);
  }

  lemma {:induction false} LineOpsAt(ps: seq<Point>)
    ensures |LineOps(ps)| == |ps|
    ensures forall i :: 0 <= i < |ps| ==> LineOps(ps)[i] == LineTo(ps[i])
  {
    if ps != [] {
      LineOpsAt(ps[1..]);
    }
  }

  // ---------------------------------------------------------------------
  // A reader of replay logs

  /** What a reader took off the front of an op log, and the log left after it. */
  datatype Taken<T> = Taken(value: T, rest: seq<Op>)

  /** Takes the `lineTo` calls off the front of `ops`. */
  ghost function TakeLines(ops: seq<Op>): (r: Taken<seq<Point>>)
    ensures |r.rest| <= |ops|
  {
    if ops != [] && ops[0].LineTo? then
      var more := TakeLines(ops[1..]);
      Taken([ops[0].p] + more.value, more.rest)
    else Taken([], ops)
  }

  /** Reads one polyline: begin, style, width, move, lines, stroke. */
  ghost function TakeStroke(ops: seq<Op>): (r: Option<Taken<Command>>)
    ensures r.Some? ==> |r.value.rest| < |ops|
  {
    if |ops| >= 4 && ops[0] == BeginPath && ops[1].SetStrokeStyle? && ops[2].SetLineWidth? && ops[3].MoveTo? then
      var lines := TakeLines(ops[4..]);
      if lines.rest != [] && lines.rest[0] == Stroke then
        Some(Taken(Command("path", ops[1].color, [ops[3].p] + lines.value, ops[2].lineWidth), lines.rest[1..]))
      else None
    else None
  }

  /** The strokes a replay log draws, in order; None when the log is not a
      sequence of polylines. */
  ghost function Strokes(ops: seq<Op>): Option<seq<Command>>
    decreases |ops|
  {
    if ops == [] then Some([])
    else
      var s :- TakeStroke(ops);
      var more :- Strokes(s.rest);
      Some([s.value] + more)
  }

  lemma {:induction false} TakeLinesOf(ps: seq<Point>, rest: seq<Op>)
    requires rest == [] || !rest[0].LineTo?
    ensures TakeLines(LineOps(ps) + rest) == Taken(ps, rest)
  {
    if ps == [] {
      assert LineOps(ps) + rest == rest;
    } else {
      assert (LineOps(ps) + rest)[1..] == LineOps(ps[1..]) + rest;
      TakeLinesOf(ps[1..], rest);
      Sequences.ConsSplit(ps);
    }
  }

  lemma TakeStrokeOf(c: Command, rest: seq<Op>)
    requires IsDrawable(c)
    ensures TakeStroke(DrawPathOps(c) + rest) == Some(Taken(Rendered(c), rest))
  {
    var pts := c.points;
    var tail := [Stroke] + rest;
    var ops := DrawPathOps(c) + rest;
    var head := [BeginPath, SetStrokeStyle(c.color), SetLineWidth(EffectiveWidth(c)), MoveTo(pts[0])];
    assert ops == head + (LineOps(pts[1..]) + tail);
    assert ops[4..] == LineOps(pts[1..]) + tail;
    TakeLinesOf(pts[1..], tail);
    assert tail[1..] == rest;
    Sequences.ConsSplit(pts);
  }

  /** Reading a replay log gives back the drawable commands of the history,
      in history order, each with its effective width. */
  lemma {:induction false} ReplayRoundTrip(hist: seq<Command>)
    ensures Strokes(ReplayOps(hist)) == Some(RenderedAll(Drawable(hist)))
  {
    if hist != [] {
      var c := hist[0];
      ReplayRoundTrip(hist[1..]);
      if IsDrawable(c) {
        TakeStrokeOf(c, ReplayOps(hist[1..]));
        assert Drawable(hist) == [c] + Drawable(hist[1..]);
        assert RenderedAll([c] + Drawable(hist[1..]))[1..] == RenderedAll(Drawable(hist[1..]));
      } else {
        assert CommandOps(c) == [];
        assert ReplayOps(hist) == ReplayOps(hist[1..]);
      }
    }
  }

  /** `redraw` begins with clearing the whole canvas, and what it then draws
      is exactly the drawable history. */
  lemma RedrawClearsThenReplays(width: int, height: int, hist: seq<Command>)
    ensures RedrawOps(width, height, hist)[0] == ClearRect(width, height)
    ensures Strokes(RedrawOps(width, height, hist)[1..]) == Some(RenderedAll(Drawable(hist)))
  {
    assert RedrawOps(width, height, hist)[1..] == ReplayOps(hist);
    ReplayRoundTrip(hist);
  }
}
