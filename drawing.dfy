/** The values the drawing board works with: points in canvas space and the
    drawing commands (strokes) that the history holds. Coordinates are
    integers; the browser's floating-point pixel offsets are not modelled. */
module Drawing {

  /** A point of a stroke, relative to the canvas' top-left corner. */
  datatype Point = Point(x: int, y: int)

  /** A drawing command. `kind` is the command's `type` tag; the stroke
      builder only ever produces "path", but replay and export test it. */
  datatype Command = Command(kind: string, color: string, points: seq<Point>, lineWidth: int)

  /** The width a command is rendered and exported with: `lineWidth || 2`,
      where the only falsy integer is 0. */
  function EffectiveWidth(c: Command): (w: int)
    ensures w != 0
    ensures c.lineWidth != 0 ==> w == c.lineWidth
    ensures c.lineWidth == 0 ==> w == 2
  {
    if c.lineWidth == 0 then 2 else c.lineWidth
  }

  /** Commands that replay and export actually draw: paths with at least two points. */
  predicate IsDrawable(c: Command)
  {
    c.kind == "path" && |c.points| >= 2
  }

  /** The command as a reader of the drawn output sees it: its width replaced
      by the effective width. */
  function Rendered(c: Command): (r: Command)
    ensures r.kind == c.kind && r.color == c.color && r.points == c.points
    ensures r.lineWidth == EffectiveWidth(c)
  {
    c.(lineWidth := EffectiveWidth(c))
  }

  /** The drawable commands of a history, in history order. */
  function Drawable(hist: seq<Command>): (r: seq<Command>)
    ensures |r| <= |hist|
    ensures forall i :: 0 <= i < |r| ==> IsDrawable(r[i])
    ensures forall c :: c in r <==> c in hist && IsDrawable(c)
  {
    if hist == [] then []
    else if IsDrawable(hist[0]) then [hist[0]] + Drawable(hist[1..])
    else Drawable(hist[1..])
  }

  /** Each drawable command, as it is drawn. */
  function RenderedAll(cs: seq<Command>): (r: seq<Command>)
    ensures |r| == |cs|
    ensures forall i :: 0 <= i < |cs| ==> r[i] == Rendered(cs[i])
  {
    if cs == [] then [] else [Rendered(cs[0])] + RenderedAll(cs[1..])
  }

  /** Every command of `cs` was recorded with line width `w`. */
  predicate StrokesOfWidth(cs: seq<Command>, w: int)
  {
    forall i :: 0 <= i < |cs| ==> cs[i].lineWidth == w
  }

  /** Filtering distributes over concatenation, so a history can be exported
      or replayed one command at a time. */
  lemma {:induction false} DrawableAppend(a: seq<Command>, b: seq<Command>)
    ensures Drawable(a + b) == Drawable(a) + Drawable(b)
  {
    if a != [] {
      assert (a + b)[1..] == a[1..] + b;
      DrawableAppend(a[1..], b);
    } else {
      assert a + b == b;
    }
  }
}
