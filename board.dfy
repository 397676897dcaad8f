/** The application object of scripts/app.js and the canvas component of
    scripts/components/canvas.js, as classes whose fields the methods update
    in place. The two objects refer to each other (`app.canvas`,
    `canvas.app`), so they share this module. The canvas' 2D context is the
    class `Context`: the log of calls made on it, from which its current
    line width follows. */
module Board {
  import opened Wrappers
  import opened Drawing
  import History
  import Svg
  import Render
  import Sequences

  /** The canvas' 2D rendering context, as the log of every call made on it. */
  class Context {
    /** Every call made on the context, oldest first. */
    var ops: seq<Render.Op>

    /** A fresh context: no calls yet. */
    constructor ()
      ensures ops == [] && LineWidth() == 1
    {
      ops := [];
    }

    /** The context's current `lineWidth`: the default 1, as changed by the
        calls made so far. */
    function LineWidth(): int
      reads this
    {
      Render.LineWidthAfter(1, ops)
    }

    /** Makes one call on the context. */
    method Call(op: Render.Op)
      modifies this
      ensures ops == old(ops) + [op]
      ensures LineWidth() == Render.ApplyWidth(old(LineWidth()), op)
    {
      ops := ops + [op];
      Render.LineWidthAfterSnoc(1, old(ops), op);
    }
  }

  class App {
    var currentColor: string
    var drawingHistory: seq<Command>
    var redoStack: seq<Command>
    var whiteboardName: string
    var canvas: CanvasComponent?

    /** The canvas exists and belongs to this application, and its own
        invariant holds. */
    ghost predicate Valid()
      reads this, canvas, if canvas != null then {canvas.ctx} else {}
    {
      canvas != null && canvas.app == this && canvas.Valid()
    }

    /** The two stacks, as the history engine's value. */
    function Stacks(): History.Stacks
      reads this
    {
      History.Stacks(drawingHistory, redoStack)
    }

    /** `updateUndoRedoState`: the enablement of the undo and redo buttons. */
    function UndoRedoState(): (b: History.Buttons)
      reads this
      ensures b.undoDisabled <==> drawingHistory == []
      ensures b.redoDisabled <==> redoStack == []
    {
      History.ButtonState(Stacks())
    }

    /** A new application: black pen, empty history and redo stack, the
        default name, and a canvas of the container's size, already cleared
        and set up for round strokes of width 2. */
    constructor (width: nat, height: nat)
      ensures Valid() && fresh(canvas) && fresh(canvas.ctx)
      ensures currentColor == "black" && whiteboardName == "Untitled Whiteboard"
      ensures Stacks() == History.Initial()
      ensures canvas.width == width && canvas.height == height
      ensures !canvas.isDrawing && canvas.currentPath.None? && canvas.lastX == 0 && canvas.lastY == 0
      ensures canvas.ctx.ops == Render.RedrawOps(width, height, [])
                                + [Render.SetLineJoin("round"), Render.SetLineCap("round"), Render.SetLineWidth(2)]
      ensures canvas.ctx.LineWidth() == 2
    {
      currentColor := "black";
      drawingHistory := [];
      redoStack := [];
      whiteboardName := "Untitled Whiteboard";
      canvas := null;
      new;
      canvas := new CanvasComponent(this, width, height);
    }

    /** `setColor`: the colour of the strokes started from now on. */
    method SetColor(color: string)
      modifies this`currentColor
      ensures currentColor == color
    {
      currentColor := color;
    }

    /** `updateWhiteboardName`: the name shown and saved. */
    method UpdateWhiteboardName(name: string)
      modifies this`whiteboardName
      ensures whiteboardName == name
    {
      whiteboardName := name;
    }

    /** `addToHistory`: push the command and clear the redo stack. The canvas
        is not redrawn: the stroke is already on it. */
    method AddToHistory(command: Command)
      modifies this`drawingHistory, this`redoStack
      ensures Stacks() == History.Append(old(Stacks()), command)
      ensures drawingHistory == old(drawingHistory) + [command] && redoStack == []
    {
      drawingHistory := drawingHistory + [command];
      redoStack := [];
    }

    /** `undo`: nothing on an empty history; otherwise move the last command
        to the redo stack and redraw the canvas from the shortened history. */
    method Undo()
      requires Valid()
      modifies this`drawingHistory, this`redoStack, canvas.ctx
      ensures Valid()
      ensures Stacks() == History.Undo(old(Stacks()))
      ensures old(drawingHistory) == [] ==> unchanged(canvas.ctx)
      ensures old(drawingHistory) != [] ==>
                canvas.ctx.ops == old(canvas.ctx.ops) + Render.RedrawOps(canvas.width, canvas.height, drawingHistory)
                && canvas.ctx.LineWidth()
                   == Render.LineWidthAfter(old(canvas.ctx.LineWidth()),
                                            Render.RedrawOps(canvas.width, canvas.height, drawingHistory))
    {
      if |drawingHistory| == 0 {
        return;
      }
      var command := drawingHistory[|drawingHistory| - 1];
      drawingHistory := drawingHistory[..|drawingHistory| - 1];
      redoStack := redoStack + [command];
      canvas.Redraw();
      Render.RedrawKeepsWidth(2, canvas.width, canvas.height, drawingHistory);
    }

    /** `redo`: nothing on an empty redo stack; otherwise move its top back
        to the history and redraw the canvas. */
    method Redo()
      requires Valid()
      modifies this`drawingHistory, this`redoStack, canvas.ctx
      ensures Valid()
      ensures Stacks() == History.Redo(old(Stacks()))
      ensures old(redoStack) == [] ==> unchanged(canvas.ctx)
      ensures old(redoStack) != [] ==>
                canvas.ctx.ops == old(canvas.ctx.ops) + Render.RedrawOps(canvas.width, canvas.height, drawingHistory)
                && canvas.ctx.LineWidth()
                   == Render.LineWidthAfter(old(canvas.ctx.LineWidth()),
                                            Render.RedrawOps(canvas.width, canvas.height, drawingHistory))
    {
      if |redoStack| == 0 {
        return;
      }
      var command := redoStack[|redoStack| - 1];
      redoStack := redoStack[..|redoStack| - 1];
      drawingHistory := drawingHistory + [command];
      canvas.Redraw();
      Render.RedrawKeepsWidth(2, canvas.width, canvas.height, drawingHistory);
    }
  }

  class CanvasComponent {
    const app: App
    const ctx: Context
    /** The canvas size, taken from its container. */
    const width: nat
    const height: nat
    var isDrawing: bool
    var lastX: int
    var lastY: int
    /** The stroke in progress; None outside a pointer session. */
    var currentPath: Option<Command>

    /** A pointer session is open exactly when a stroke is in progress; that
        stroke is a path, and its last point is where the pointer last was.
        Every stroke, in progress, committed or undone, has the width 2 that
        `setupCanvas` gives the context, and the context keeps that width,
        because a replay of strokes of width 2 sets it to 2 again. */
    ghost predicate Valid()
      reads this, ctx, app
    {
      && isDrawing == currentPath.Some?
      && (currentPath.Some? ==>
            && currentPath.value.kind == "path"
            && |currentPath.value.points| >= 1
            && currentPath.value.points[|currentPath.value.points| - 1] == Point(lastX, lastY)
            && currentPath.value.lineWidth == 2)
      && ctx.LineWidth() == 2
      && StrokesOfWidth(app.drawingHistory, 2)
      && StrokesOfWidth(app.redoStack, 2)
    }

    /** The component's constructor with `setupCanvas`: size the canvas,
        redraw it, and set round joins and caps and width 2 on the context. */
    constructor (app: App, width: nat, height: nat)
      requires StrokesOfWidth(app.drawingHistory, 2) && StrokesOfWidth(app.redoStack, 2)
      ensures Valid() && fresh(ctx)
      ensures this.app == app && this.width == width && this.height == height
      ensures !isDrawing && currentPath.None? && lastX == 0 && lastY == 0
      ensures ctx.ops == Render.RedrawOps(width, height, app.drawingHistory)
                         + [Render.SetLineJoin("round"), Render.SetLineCap("round"), Render.SetLineWidth(2)]
      ensures ctx.LineWidth() == 2
    {
      this.app := app;
      this.width := width;
      this.height := height;
      ctx := new Context();
      isDrawing := false;
      lastX := 0;
      lastY := 0;
      currentPath := None;
      new;
      ghost var replay := Render.RedrawOps(width, height, app.drawingHistory);
      Redraw();
      assert ctx.ops == replay by {
        assert [] + replay == replay;
      }
      ctx.Call(Render.SetLineJoin("round"));
      ctx.Call(Render.SetLineCap("round"));
      ctx.Call(Render.SetLineWidth(2));
      assert ctx.ops == replay + [Render.SetLineJoin("round"), Render.SetLineCap("round"), Render.SetLineWidth(2)];
    }

    /** `startDrawing`: open a pointer session at the given point with a new
        one-point path in the application's colour and the context's width. */
    method StartDrawing(x: int, y: int)
      requires Valid()
      modifies this`isDrawing, this`lastX, this`lastY, this`currentPath
      ensures Valid()
      ensures isDrawing && lastX == x && lastY == y
      ensures currentPath == Some(Command("path", app.currentColor, [Point(x, y)], ctx.LineWidth()))
      ensures currentPath.value.lineWidth == 2
    {
      isDrawing := true;
      lastX := x;
      lastY := y;
      currentPath := Some(Command("path", app.currentColor, [Point(lastX, lastY)], ctx.LineWidth()));
    }

    /** `draw`: ignored outside a pointer session; otherwise draw the segment
        from the last point, append the point to the path and remember it. */
    method Draw(x: int, y: int)
      requires Valid()
      modifies this`lastX, this`lastY, this`currentPath, ctx
      ensures Valid()
      ensures !old(isDrawing) ==> unchanged(this) && unchanged(ctx)
      ensures old(isDrawing) ==>
                && currentPath.Some?
                && currentPath.value == old(currentPath.value).(points := old(currentPath.value.points) + [Point(x, y)])
                && lastX == x && lastY == y
                && ctx.ops == old(ctx.ops) + Render.SegmentOps(app.currentColor, Point(old(lastX), old(lastY)), Point(x, y))
                && ctx.LineWidth() == old(ctx.LineWidth())
    {
      if !isDrawing {
        return;
      }
      var currentX, currentY := x, y;
      ctx.Call(Render.BeginPath);
      ctx.Call(Render.SetStrokeStyle(app.currentColor));
      ctx.Call(Render.MoveTo(Point(lastX, lastY)));
      ctx.Call(Render.LineTo(Point(currentX, currentY)));
      ctx.Call(Render.Stroke);
      var path := currentPath.value;
      currentPath := Some(path.(points := path.points + [Point(currentX, currentY)]));
      lastX := currentX;
      lastY := currentY;
    }

    /** `stopDrawing`: ignored outside a pointer session; otherwise close it,
        committing the path to the history only if it has more than one point. */
    method StopDrawing()
      requires Valid()
      modifies this`isDrawing, this`currentPath, app`drawingHistory, app`redoStack
      ensures Valid()
      ensures !isDrawing && currentPath.None?
      ensures old(isDrawing) && |old(currentPath.value.points)| > 1 ==>
                app.Stacks() == History.Append(old(app.Stacks()), old(currentPath.value))
      ensures !(old(isDrawing) && |old(currentPath.value.points)| > 1) ==>
                app.Stacks() == old(app.Stacks())
    {
      if isDrawing {
        isDrawing := false;
        if currentPath.Some? && |currentPath.value.points| > 1 {
          app.AddToHistory(currentPath.value);
        }
        currentPath := None;
      }
    }

    /** `redraw`: clear the canvas and replay every path of the history. */
    method Redraw()
      modifies ctx
      ensures ctx.ops == old(ctx.ops) + Render.RedrawOps(width, height, app.drawingHistory)
      ensures ctx.LineWidth() == Render.LineWidthAfter(old(ctx.LineWidth()), Render.RedrawOps(width, height, app.drawingHistory))
    {
      ghost var start := ctx.ops;
      ctx.Call(Render.ClearRect(width, height));
      var history := app.drawingHistory;
      assert history[..0] == [];
      assert Render.RedrawOps(width, height, []) == [Render.ClearRect(width, height)];
      for i := 0 to |history|
        invariant ctx.ops == start + Render.RedrawOps(width, height, history[..i])
      {
        var command := history[i];
        ghost var before := Render.RedrawOps(width, height, history[..i]);
        if command.kind == "path" {
          DrawPath(command);
        }
        Sequences.PrefixSnoc(history, i);
        Render.RedrawOpsSnoc(width, height, history[..i], command);
        Sequences.Assoc(start, before, Render.CommandOps(command));
      }
      assert history[..|history|] == history;
      Render.LineWidthAfterAppend(1, start, Render.RedrawOps(width, height, history));
    }

    /** `drawPath`: nothing for fewer than two points; otherwise stroke one
        polyline through all the points, in the command's colour and its
        width or 2. */
    method DrawPath(command: Command)
      modifies ctx
      ensures ctx.ops == old(ctx.ops) + Render.DrawPathOps(command)
      ensures ctx.LineWidth() == Render.LineWidthAfter(old(ctx.LineWidth()), Render.DrawPathOps(command))
    {
      ghost var start := ctx.ops;
      if |command.points| < 2 {
        assert ctx.ops == start + [];
        return;
      }
      ctx.Call(Render.BeginPath);
      ctx.Call(Render.SetStrokeStyle(command.color));
      ctx.Call(Render.SetLineWidth(EffectiveWidth(command)));
      ctx.Call(Render.MoveTo(command.points[0]));
      ghost var done := ctx.ops;
      assert command.points[1..1] == [];
      for i := 1 to |command.points|
        invariant ctx.ops == done + Render.LineOps(command.points[1..i])
      {
        ctx.Call(Render.LineTo(command.points[i]));
        Sequences.SliceSnoc(command.points, 1, i);
        Render.LineOpsSnoc(command.points[1..i], command.points[i]);
      }
      assert command.points[1..|command.points|] == command.points[1..];
      ctx.Call(Render.Stroke);
      assert ctx.ops == start + Render.DrawPathOps(command);
      Render.LineWidthAfterAppend(1, start, Render.DrawPathOps(command));
    }

    /** `generateSVG`: the SVG document of the history, for a canvas of this size. */
    method GenerateSVG() returns (svg: string)
      ensures svg == Svg.Document(width, height, app.drawingHistory)
    {
      var history := app.drawingHistory;
      svg := Svg.Header(width, height);
      svg := svg + Svg.Background;
      ghost var start := svg;
      for i := 0 to |history|
        invariant svg == start + Svg.Elements(history[..i])
      {
        ghost var elements := Svg.Elements(history[..i]);
        svg := AppendElement(svg, history[i]);
        Sequences.PrefixSnoc(history, i);
        Svg.ElementsSnoc(history[..i], history[i]);
        Sequences.Assoc(start, elements, Svg.ElementOf(history[i]));
      }
      assert history[..|history|] == history;
      svg := svg + Svg.Footer;
    }
  }

  /** The body of the outer loop of `generateSVG`: the `path` element of a
      path command with at least two points, and nothing for any other. */
  method AppendElement(svg: string, command: Command) returns (out: string)
    ensures out == svg + Svg.ElementOf(command)
  {
    out := svg;
    if command.kind == "path" && |command.points| >= 2 {
      out := AppendPath(out, command);
    } else {
      assert svg + Svg.ElementOf(command) == svg + "";
    }
  }

  /** The `path` element of one command, written piece by piece onto `svg`. */
  method AppendPath(svg: string, command: Command) returns (out: string)
    requires |command.points| >= 1
    ensures out == svg + Svg.PathElement(command)
  {
    out := svg + Svg.PathOpen;
    out := out + Svg.MoveCommand(command.points[0]);
    out := AppendLines(out, command.points);
    out := out + Svg.PathAttributes(command);
    PathElementParts(svg, command);
  }

  /** The inner loop of `generateSVG`: a lineto command per point after the first. */
  method AppendLines(svg: string, points: seq<Point>) returns (out: string)
    requires |points| >= 1
    ensures out == svg + Svg.LineCommands(points[1..])
  {
    out := svg;
    assert points[1..1] == [];
    for i := 1 to |points|
      invariant out == svg + Svg.LineCommands(points[1..i])
    {
      ghost var lines := Svg.LineCommands(points[1..i]);
      out := out + Svg.LineCommand(points[i]);
      Sequences.SliceSnoc(points, 1, i);
      Svg.LineCommandsSnoc(points[1..i], points[i]);
      Sequences.Assoc(svg, lines, Svg.LineCommand(points[i]));
    }
    assert points[1..|points|] == points[1..];
  }

  /** The text `AppendPath` writes, grouped as the element's parts. */
  lemma PathElementParts(svg: string, command: Command)
    requires |command.points| >= 1
    ensures svg + Svg.PathOpen + Svg.MoveCommand(command.points[0]) + Svg.LineCommands(command.points[1..])
            + Svg.PathAttributes(command)
            == svg + Svg.PathElement(command)
  {
    var open, move, lines, attributes := Svg.PathOpen, Svg.MoveCommand(command.points[0]),
      Svg.LineCommands(command.points[1..]), Svg.PathAttributes(command);
    Sequences.Assoc(svg + open, move, lines);
    Sequences.Assoc(svg, open, move + lines);
    Sequences.Assoc(svg, open + (move + lines), attributes);
    assert Svg.PathElement(command) == open + (move + lines) + attributes;
  }

  /** What `generateSVG` exports is what `redraw` draws: the strokes read
      back from the document are the strokes read back from the replay. */
  lemma ExportMatchesCanvas(width: nat, height: nat, hist: seq<Command>)
    requires forall c :: c in hist ==> Svg.QuoteFree(c)
    ensures Svg.ReadDocument(Svg.Document(width, height, hist)).Some?
    ensures Render.Strokes(Render.RedrawOps(width, height, hist)[1..])
            == Some(Svg.ReadDocument(Svg.Document(width, height, hist)).value.paths)
  {
    Svg.DocumentRoundTrip(width, height, hist);
    Render.RedrawClearsThenReplays(width, height, hist);
  }

  /** Two strokes drawn, the second undone and redone, then exported: undo and
      redo move the second stroke away and back, and the document holds both
      strokes, in drawing order, with their colours, widths and points. */
  lemma TwoStrokeScenario(width: nat, height: nat, a: Command, b: Command)
    requires a == Command("path", "black", [Point(0, 0), Point(10, 10)], 2)
    requires b == Command("path", "white", [Point(5, 5), Point(15, 15), Point(20, 5)], 4)
    ensures History.Undo(History.Append(History.Append(History.Initial(), a), b)) == History.Stacks([a], [b])
    ensures History.Redo(History.Undo(History.Append(History.Append(History.Initial(), a), b)))
            == History.Stacks([a, b], [])
    ensures Svg.ReadDocument(Svg.Document(width, height, [a, b])) == Some(Svg.Image(width, height, [a, b]))
  {
    var drawn := History.Append(History.Append(History.Initial(), a), b);
    assert drawn == History.Stacks([a, b], []) by {
      assert [] + [a] + [b] == [a, b];
    }
    assert History.Undo(drawn) == History.Stacks([a], [b]) by {
      assert [a, b][..1] == [a];
      assert [] + [b] == [b];
    }
    History.RedoAfterUndo(drawn);
    assert Drawable([a, b]) == [a, b] by {
      assert [a, b][1..] == [b];
      assert [b][1..] == [];
    }
    assert RenderedAll([a, b]) == [a, b] by {
      assert Rendered(a) == a && Rendered(b) == b;
    }
    Svg.DocumentRoundTrip(width, height, [a, b]);
  }
}
