# Black and White Board: drawing history, strokes, replay and SVG export

This project models the core of a client-side drawing board in Dafny:

- the application object (`App` in scripts/app.js): its drawing history, its
  redo stack, `addToHistory`, `undo`, `redo` and the undo/redo button state;
- the canvas component (`CanvasComponent` in scripts/components/canvas.js):
  - the pointer-session stroke builder (`startDrawing`, `draw`,
    `stopDrawing`);
  - the replay of the history onto the 2D context (`redraw`, `drawPath`);
  - the SVG export (`generateSVG`).

Modules:

- `Drawing` (drawing.dfy): points, drawing commands, the `lineWidth || 2`
  width default, and which commands are drawn at all.
- `History` (history.dfy): the two stacks as a value, and the three
  operations on them as functions. The properties of undo and redo are
  proved here.
- `Render` (render.dfy): the calls `redraw` and `drawPath` make on the
  context, as a function of the history.
  - The 2D context is the log of calls made on it, not pixels.
  - Its `lineWidth` follows the canvas rule that an assignment of a width
    that is not positive is ignored.
  - A reader of such logs (`Strokes`) recovers the strokes drawn.
- `Numerals` (numerals.dfy): the decimal text a template literal gives an
  integer, and a reader for it.
- `Svg` (svg.dfy): the document `generateSVG` writes, as a function of the
  canvas size and the history.
  - The source has no SVG decoder, so the module defines its own reader
    (`ReadDocument`) of exactly the text the encoder writes.
  - `DocumentRoundTrip` proves the export loses no drawn stroke.
- `Board` (board.dfy): the classes `App`, `CanvasComponent` and `Context`.
  - Their fields are updated in place by methods with `modifies` frames.
  - `generateSVG`, `redraw` and `drawPath` keep the source's loops; each is
    proved equal to the functions above.
  - `App` and `CanvasComponent` refer to each other, so they share one
    module.
  - The class invariant `CanvasComponent.Valid` ties the pointer session to
    the stroke in progress.
  - It also records that, as long as the canvas is not resized, every
    stroke has width 2 and so does the context: `setupCanvas` sets 2, and a
    replay of width-2 strokes sets 2 again. A resize resets the context, so
    this holds only because resizing is left out (see below).
- `Wrappers` (wrappers.dfy): `Option` and the result of a text reader.
- `Sequences` (sequences.dfy): associativity of concatenation and the
  one-longer prefix and slice, used by the loops and the text proofs.

Coordinates are integers. The pointer positions the browser computes from
events are parameters of `StartDrawing` and `Draw`.

## Model

| member | source | states |
|---|---|---|
| `History.AppendEffect` | scripts/app.js:49-53 | `addToHistory(c)` makes the history the old one plus `c` and empties the redo stack; the total becomes the old history length plus one; undo is enabled and redo disabled afterwards |
| `History.NoOpWhenEmpty` | scripts/app.js:58-81 | undo on an empty history and redo on an empty redo stack leave both stacks exactly as they were |
| `History.UndoMovesTop` | scripts/app.js:58-67 | undo on a non-empty history removes its last command, pushes exactly that command on the redo stack, leaves the rest of both stacks as it was, and enables redo |
| `History.RedoMovesTop` | scripts/app.js:72-81 | redo on a non-empty redo stack pops its top and appends it to the history, leaves the rest as it was, and enables undo |
| `History.RedoAfterUndo` | scripts/app.js:58-81 | undo followed by redo restores both stacks exactly when the history is not empty |
| `History.UndoAfterRedo` | scripts/app.js:58-81 | redo followed by undo restores both stacks exactly when the redo stack is not empty |
| `History.TimelineInvariant` | scripts/app.js:49-81 | undo and redo keep the timeline (history, then the redo stack read from its top) and so the total number of commands; append makes the timeline the old history plus the new command |
| `History.UndoKeepsTimeline` | scripts/app.js:58-67 | one undo leaves the timeline unchanged: the command it takes off the history is the first one read from the redo stack |
| `History.RedoKeepsTimeline` | scripts/app.js:72-81 | one redo leaves the timeline unchanged: the command it takes off the redo stack becomes the last one of the history |
| `History.UndoTimesShape` | scripts/app.js:58-67 | `k` undos on a history of at least `k` commands drop exactly its last `k` commands and push exactly those onto the redo stack, the history's last command on top |
| `History.UndoTimesLength` | scripts/app.js:58-67 | `k` undos on a history of at least `k` commands shorten the history by exactly `k` |
| `History.RedoTimesAfterUndoTimes` | scripts/app.js:58-81 | any number of undos, up to the history length, is undone by as many redos |
| `History.InitialButtons` | scripts/app.js:9-30 | the constructor's empty stacks show both buttons disabled, with an empty timeline |
| `Board.App.UndoRedoState` | scripts/app.js:86-97 | undo is disabled if and only if the history is empty; redo is disabled if and only if the redo stack is empty |
| `Board.App.constructor` | scripts/app.js:8-22 | black pen, empty history and redo stack, name "Untitled Whiteboard", a new canvas that belongs to the application, cleared and set to round joins and caps and width 2 |
| `Board.App.SetColor` | scripts/app.js:40-43 | the current colour becomes the given one |
| `Board.App.UpdateWhiteboardName` | scripts/app.js:103-109 | the name becomes the given one |
| `Board.App.AddToHistory` | scripts/app.js:49-53 | the stacks become `History.Append` of the old stacks: the history gains the command and the redo stack is emptied |
| `Board.App.Undo` | scripts/app.js:58-67 | the stacks become `History.Undo` of the old ones; an empty history leaves the canvas untouched; otherwise the canvas is redrawn from the new history; the class invariant is kept |
| `Board.App.Redo` | scripts/app.js:72-81 | the stacks become `History.Redo` of the old ones; an empty redo stack leaves the canvas untouched; otherwise the canvas is redrawn from the new history; the class invariant is kept |
| `Board.Context.constructor` | scripts/components/canvas.js:14 | a fresh 2D context has made no calls and has line width 1 |
| `Board.Context.Call` | scripts/components/canvas.js:131-135 | a call is appended to the context's log, and its line width changes only by a positive width assignment |
| `Board.CanvasComponent.constructor` | scripts/components/canvas.js:11-61 | no pointer session and last point (0, 0); the context has logged a redraw of the history, then round join, round cap and width 2, so its width is 2 |
| `Board.CanvasComponent.StartDrawing` | scripts/components/canvas.js:101-116 | the session opens at the given point, with a one-point path of kind "path" in the current colour and the context's width, which is 2 |
| `Board.CanvasComponent.Draw` | scripts/components/canvas.js:122-143 | outside a session, nothing changes; inside one, exactly one segment from the last point to the new one is drawn, the new point is appended to the path, it becomes the last point, and the line width stays the same |
| `Board.CanvasComponent.StopDrawing` | scripts/components/canvas.js:148-159 | the session ends with no stroke in progress; the path is appended to the history, with the redo stack emptied, exactly when a session was open and its path had more than one point; otherwise the stacks are unchanged |
| `Board.CanvasComponent.Redraw` | scripts/components/canvas.js:164-174 | the context logs exactly `Render.RedrawOps` of the current history: a clear of the whole canvas, then each path command's `drawPath` in history order |
| `Board.CanvasComponent.DrawPath` | scripts/components/canvas.js:180-196 | the context logs exactly `Render.DrawPathOps` of the command, and its width is what that log leaves |
| `Board.CanvasComponent.GenerateSVG` | scripts/components/canvas.js:203-234 | the string built is exactly `Svg.Document` of the canvas size and the history |
| `Board.AppendElement` | scripts/components/canvas.js:217-229 | appends the `path` element of a path command with at least two points, and nothing for any other command |
| `Board.AppendPath` | scripts/components/canvas.js:218-228 | appends exactly the `path` element of one command |
| `Board.AppendLines` | scripts/components/canvas.js:224-226 | appends exactly one lineto command per point after the first, in order |
| `Board.ExportMatchesCanvas` | scripts/components/canvas.js:164-234 | the strokes read back from the exported document equal the strokes read back from a redraw of the same history |
| `Board.TwoStrokeScenario` | scripts/app.js:49-81 | two strokes appended, then undo and redo, give the expected stacks; the export of both reads back as both strokes, in order, with their colours, widths and points |
| `Drawing.Drawable` | scripts/components/canvas.js:217 | the result holds exactly the commands of the history that are paths with at least two points, and nothing else |
| `Drawing.DrawableAppend` | scripts/components/canvas.js:216-230 | the drawable commands of two histories one after the other are the drawable commands of each, in order |
| `Drawing.EffectiveWidth` | scripts/components/canvas.js:185 | the width used is the command's own width whenever that is not 0, and 2 when it is 0 |
| `Render.CommandOpsDrawnIff` | scripts/components/canvas.js:169-181 | a command produces calls during a redraw if and only if it is a path with at least two points |
| `Render.DrawPathShape` | scripts/components/canvas.js:180-196 | a drawn command is `beginPath`, its colour, its effective width, a `moveTo` to its first point, one `lineTo` per later point in order, and `stroke` |
| `Render.SegmentKeepsWidth` | scripts/components/canvas.js:131-135 | the segment `draw` strokes leaves the context's line width as it was |
| `Render.DrawPathWidth` | scripts/components/canvas.js:185 | `drawPath` leaves the context at the command's effective width if it draws and that width is positive, and at its old width otherwise |
| `Render.RedrawKeepsWidth` | scripts/components/canvas.js:164-174 | a redraw of strokes that all have the context's positive width leaves the context at that width |
| `Render.ReplayRoundTrip` | scripts/components/canvas.js:164-196 | reading the replay log gives back exactly the drawable commands of the history, in order, each with its effective width |
| `Render.RedrawClearsThenReplays` | scripts/components/canvas.js:164-174 | a redraw starts by clearing the whole canvas, and the rest of it draws exactly the drawable history |
| `Numerals.ReadIntOf` | scripts/components/canvas.js:221-225 | reading the decimal text of any integer gives the integer back and leaves exactly what followed it |
| `Numerals.IntToStringInjective` | scripts/components/canvas.js:221-225 | different integers have different decimal texts |
| `Svg.CoordsRoundTrip` | scripts/components/canvas.js:221 | the "x,y" text of a point reads back as that point |
| `Svg.LineCommandsRoundTrip` | scripts/components/canvas.js:224-226 | the lineto commands of a list of points read back as that list |
| `Svg.PathDataRoundTrip` | scripts/components/canvas.js:221-226 | the path data of a stroke reads back as its points: the first from the moveto, every later one from a lineto, in order |
| `Svg.PathDataInjective` | scripts/components/canvas.js:221-226 | different point lists have different path data |
| `Svg.AttributesRoundTrip` | scripts/components/canvas.js:228 | the attributes of a path read back as the command's colour and its effective width (`lineWidth`, or 2 when it is 0) |
| `Svg.PathElementRoundTrip` | scripts/components/canvas.js:217-229 | a drawable command's `path` element reads back as the command with its effective width |
| `Svg.ElementsRoundTrip` | scripts/components/canvas.js:216-230 | the elements of a history read back as its drawable commands, one per command that is a path with at least two points, in history order |
| `Svg.HeaderRoundTrip` | scripts/components/canvas.js:207-210 | the `svg` header reads back as the canvas width and height |
| `Svg.DocumentRoundTrip` | scripts/components/canvas.js:203-234 | the whole document reads back as the canvas size and every drawable command of the history, in history order, with its colour, points and effective width |
| `Svg.DocumentInjective` | scripts/components/canvas.js:203-234 | two histories that export to the same document have the same drawn strokes |

## Left out

- DOM and event wiring are not modelled: `getElementById`, `addEventListener`, touch-to-mouse conversion and `getBoundingClientRect` offsets (scripts/components/canvas.js:54-95). Pointer positions are the integer parameters of `StartDrawing` and `Draw`.
- `resizeCanvas` is not modelled as a separate operation. The size is fixed when the component is built, because a resize is a browser event. In a browser, assigning the canvas size (scripts/components/canvas.js:56-57) resets the context to its defaults: line width 1, miter joins, butt caps. If the history then holds no drawable stroke, the `redraw` that follows sets no width, and the next `startDrawing` records width 1 (scripts/components/canvas.js:114). That state lies outside `CanvasComponent.Valid`, whose width clauses therefore hold only without resizes.
- Coordinates are integers, not floating point. Their text is produced by the model's own decimal formatter (`Numerals.IntToString`), not by JavaScript's number-to-string conversion, so fractional and non-finite coordinates are out of scope, and so are integers of magnitude 10^21 or more, which JavaScript writes in exponent form. No point is validated or filtered, because the source does none.
- The `lineWidth || 2` default only replaces 0. NaN, the other falsy number, is not modelled.
- Colours are not escaped in the `stroke` attribute. `Svg.DocumentRoundTrip` and the lemmas built on it therefore require colours with no double quote (`Svg.QuoteFree`). Strokes are not validated against the canvas' `strokeStyle` parsing either.
- The source has no SVG decoder. `Svg.ReadDocument` and the readers under it exist only to state what the encoder preserves. They read exactly the encoder's output and are not a general SVG parser.
- `Board.CanvasComponent.constructor` requires the application's stacks to hold only strokes of width 2. In the source the component is only built by the application's constructor, when both stacks are empty.
- `Board.CanvasComponent.StartDrawing` and the other canvas methods require the class invariant `Valid`. It holds after construction, and every method that requires it keeps it. `Board.App.AddToHistory`, `Board.CanvasComponent.Redraw` and `Board.CanvasComponent.DrawPath` neither require nor ensure it: `AddToHistory` called directly with a stroke whose width is not 2 breaks it. In the source `addToHistory` is only called by `stopDrawing` (scripts/components/canvas.js:154), which keeps the invariant. After a resize with no drawable stroke, strokes record width 1 (see `resizeCanvas` above), a state `StartDrawing`'s width clause does not cover.
- `Board.App.Undo`, `Board.App.Redo`: as in scripts/app.js, they return nothing. The source has no reset of the stacks, so neither does the model.
- `updateUndoRedoState` writes the `disabled` flags of two DOM buttons. It is modelled as the function `Board.App.UndoRedoState`, which is always up to date with the stacks.
- App's `isDrawing` field is not modelled: it is set in the constructor (scripts/app.js:13) and never read or written again. The canvas' `offsetX`, `offsetY` and `scale` are not modelled either (scripts/components/canvas.js:20-22); nothing uses them.
- `init`'s console log, and the console logs in `setColor`, `undo` and `redo`, are not modelled.
- The toolbar (scripts/components/toolbar.js) is not part of this model; it is event wiring.
- Storage (scripts/storage/storageManager.js) is not part of this model: asynchronous browser storage with generated identifiers and clock reads.
- The file browser (scripts/components/fileBrowser.js) is not part of this model, and neither is the notification UI (scripts/utils/toastManager.js); both build DOM.
- `saveWhiteboard` and `exportWhiteboard` (scripts/app.js:115-129) are not modelled; they are alert-only placeholders.
- The build configuration (vite.config.js) is not modelled.
