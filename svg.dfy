/** The SVG text that `generateSVG` (scripts/components/canvas.js) produces
    from the drawing history, and a reader for that text.

    The document is an `svg` root sized to the canvas, a white background
    `rect`, one `path` element per drawable command in history order, and
    the closing tag. Path data is one absolute moveto ("M") to the first
    point and one absolute lineto ("L") to each later point, each command
    followed by a space (sections 8.3.2 and 8.3.3 of the W3C SVG 1.1
    Recommendation).

    The application has no SVG decoder. `ReadDocument` below is this model's
    own reader of exactly the text the encoder writes; the lemma
    `DocumentRoundTrip` uses it to state that the encoding loses nothing. */
module Svg {
  import opened Wrappers
  import opened Drawing
  import opened Numerals
  import Sequences

  // ---------------------------------------------------------------------
  // The encoder

  function Header(width: nat, height: nat): string
  {
    "<svg width=\"" + NatToString(width) + "\" height=\"" + NatToString(height)
    + "\" xmlns=\"http://www.w3.org/2000/svg\">"
  }

  const Background: string := "<rect width=\"100%\" height=\"100%\" fill=\"white\"/>"

  const Footer: string := "</svg>"

  const PathOpen: string := "<path d=\""

  /** "x,y" */
  function Coords(p: Point): string
  {
    IntToString(p.x) + "," + IntToString(p.y)
  }

  function MoveCommand(p: Point): string
  {
    "M" + Coords(p) + " "
  }

  function LineCommand(p: Point): string
  {
    "L" + Coords(p) + " "
  }

  /** A lineto command per point, in order. */
  function LineCommands(ps: seq<Point>): string
  {
    if ps == [] then "" else LineCommand(ps[0]) + LineCommands(ps[1..])
  }

  /** The `d` attribute of a stroke. */
  function PathData(pts: seq<Point>): string
    requires |pts| >= 1
  {
    MoveCommand(pts[0]) + LineCommands(pts[1..])
  }

  const PathTail: string := "\"" + " fill=\"none\" stroke-linecap=\"round\" stroke-linejoin=\"round\"/>"

  /** Everything of a `path` element after its path data. */
  function PathAttributes(c: Command): string
  {
    "\" stroke=\"" + c.color + "\" stroke-width=\"" + IntToString(EffectiveWidth(c)) + PathTail
  }

  function PathElement(c: Command): string
    requires |c.points| >= 1
  {
    PathOpen + PathData(c.points) + PathAttributes(c)
  }

  /** The element a command contributes: its `path` if it is drawable, nothing otherwise. */
  function ElementOf(c: Command): string
  {
    if IsDrawable(c) then PathElement(c) else ""
  }

  /** The `path` elements of a history: one per drawable command, in order. */
  function Elements(hist: seq<Command>): string
  {
    if hist == [] then "" else ElementOf(hist[0]) + Elements(hist[1..])
  }

  /** The whole document for a canvas of the given size. */
  function Document(width: nat, height: nat, hist: seq<Command>): string
  {
    Header(width, height) + Background + Elements(hist) + Footer
  }

  /** Appending one point appends one lineto command. */
  lemma {:induction false} LineCommandsSnoc(ps: seq<Point>, p: Point)
    ensures LineCommands(ps + [p]) == LineCommands(ps) + LineCommand(p)
  {
    if ps == [] {
      assert [p][1..] == [];
    } else {
      assert (ps + [p])[1..] == ps[1..] + [p];
      LineCommandsSnoc(ps[1..], p);
    }
  }

  /** Appending one command to the history appends at most its own element. */
  lemma {:induction false} ElementsSnoc(hist: seq<Command>, c: Command)
    ensures Elements(hist + [c]) == Elements(hist) + ElementOf(c)
  {
    if hist == [] {
      assert [c][1..] == [];
      assert Elements([c]) == ElementOf(c) + "";
    } else {
      assert (hist + [c])[1..] == hist[1..] + [c];
      ElementsSnoc(hist[1..], c);
      Sequences.Assoc(ElementOf(hist[0]), Elements(hist[1..]), ElementOf(c));
    }
  }

  // ---------------------------------------------------------------------
  // A reader for the encoder's output

  /** What a document says: the canvas size and the strokes, in paint order. */
  datatype Image = Image(width: nat, height: nat, paths: seq<Command>)

  /** The two presentation attributes of a `path` element that carry data. */
  datatype Style = Style(color: string, width: int)

  /** Takes the literal `lit` off the front of `s`, one character at a time. */
  ghost function Expect(s: string, lit: string): (r: Option<string>)
    ensures r.Some? ==> |r.value| == |s| - |lit|
  {
    if lit == [] then Some(s)
    else if |s| > 0 && s[0] == lit[0] then Expect(s[1..], lit[1..])
    else None
  }

  ghost function ReadCoords(s: string): (r: Option<Read<Point>>)
    ensures r.Some? ==> |r.value.rest| < |s|
  {
    var x :- ReadInt(s);
    var afterComma :- Expect(x.rest, ",");
    var y :- ReadInt(afterComma);
    Some(Read(Point(x.value, y.value), y.rest))
  }

  /** Reads "Lx,y " commands for as long as the text starts with 'L'. */
  ghost function ReadLines(s: string): (r: Option<Read<seq<Point>>>)
    ensures r.Some? ==> |r.value.rest| <= |s|
    decreases |s|
  {
    if |s| > 0 && s[0] == 'L' then
      var p :- ReadCoords(s[1..]);
      var afterSpace :- Expect(p.rest, " ");
      var more :- ReadLines(afterSpace);
      Some(Read([p.value] + more.value, more.rest))
    else
      Some(Read([], s))
  }

  /** Reads "Mx,y " and then the lineto commands after it. */
  ghost function ReadPathData(s: string): (r: Option<Read<seq<Point>>>)
    ensures r.Some? ==> |r.value.rest| < |s|
  {
    var afterM :- Expect(s, "M");
    var p :- ReadCoords(afterM);
    var afterSpace :- Expect(p.rest, " ");
    var more :- ReadLines(afterSpace);
    Some(Read([p.value] + more.value, more.rest))
  }

  /** Splits `s` before its first double quote. */
  ghost function UntilQuote(s: string): (r: Read<string>)
    ensures |r.rest| <= |s|
  {
    if s == [] || s[0] == '"' then Read([], s)
    else
      var t := UntilQuote(s[1..]);
      Read([s[0]] + t.value, t.rest)
  }

  /** Reads the attributes after the path data, up to the end of the element. */
  ghost function ReadAttributes(s: string): (r: Option<Read<Style>>)
    ensures r.Some? ==> |r.value.rest| < |s|
  {
    var afterStroke :- Expect(s, "\" stroke=\"");
    var color := UntilQuote(afterStroke);
    var afterColor :- Expect(color.rest, "\" stroke-width=\"");
    var width :- ReadInt(afterColor);
    var rest :- Expect(width.rest, PathTail);
    Some(Read(Style(color.value, width.value), rest))
  }

  ghost function ReadPath(s: string): (r: Option<Read<Command>>)
    ensures r.Some? ==> |r.value.rest| < |s|
  {
    var afterOpen :- Expect(s, PathOpen);
    var pts :- ReadPathData(afterOpen);
    var style :- ReadAttributes(pts.rest);
    Some(Read(Command("path", style.value.color, pts.value, style.value.width), style.rest))
  }

  /** Reads `path` elements for as long as the text starts with one. */
  ghost function ReadPaths(s: string): (r: Option<Read<seq<Command>>>)
    decreases |s|
  {
    if Expect(s, PathOpen).Some? then
      var c :- ReadPath(s);
      var more :- ReadPaths(c.rest);
      Some(Read([c.value] + more.value, more.rest))
    else
      Some(Read([], s))
  }

  /** Reads the root's opening tag: the canvas size. */
  ghost function ReadHeader(s: string): (r: Option<Read<(nat, nat)>>)
  {
    var afterOpen :- Expect(s, "<svg width=\"");
    var w :- ReadNat(afterOpen);
    var afterWidth :- Expect(w.rest, "\" height=\"");
    var h :- ReadNat(afterWidth);
    var rest :- Expect(h.rest, "\" xmlns=\"http://www.w3.org/2000/svg\">");
    Some(Read((w.value, h.value), rest))
  }

  ghost function ReadDocument(s: string): Option<Image>
  {
    var size :- ReadHeader(s);
    var afterBackground :- Expect(size.rest, Background);
    var paths :- ReadPaths(afterBackground);
    var end :- Expect(paths.rest, Footer);
    if end == [] then Some(Image(size.value.0, size.value.1, paths.value)) else None
  }

  // ---------------------------------------------------------------------
  // The encoding loses nothing
  //
  // Each reader is first shown to take one step over abstract pieces of
  // text (the ...Step lemmas); the shape of the encoder's text is then
  // given by separate equations (the ...Shape lemmas).

  lemma {:induction false} ExpectOf(lit: string, rest: string)
    ensures Expect(lit + rest, lit) == Some(rest)
  {
    if lit == [] {
      assert lit + rest == rest;
    } else {
      assert (lit + rest)[1..] == lit[1..] + rest;
      ExpectOf(lit[1..], rest);
    }
  }

  lemma {:induction false} CoordsRoundTrip(p: Point, rest: string)
    requires Stops(rest)
    ensures ReadCoords(Coords(p) + rest) == Some(Read(p, rest))
  {
    var tail := "," + (IntToString(p.y) + rest);
    assert Coords(p) + rest == IntToString(p.x) + tail;
    ReadIntOf(p.x, tail);
    ExpectOf(",", IntToString(p.y) + rest);
    ReadIntOf(p.y, rest);
  }

  /** Text that does not start another lineto command. */
  predicate NoLineNext(rest: string)
  {
    rest == [] || rest[0] != 'L'
  }

  lemma SpaceStops(u: string)
    ensures Stops(" " + u)
  {
  }

  lemma ReadLinesStep(t: string, p: Point, u: string, ps: seq<Point>, r: string)
    requires ReadCoords(t) == Some(Read(p, " " + u))
    requires ReadLines(u) == Some(Read(ps, r))
    ensures ReadLines("L" + t) == Some(Read([p] + ps, r))
  {
    var s := "L" + t;
    assert s[0] == 'L';
    assert s[1..] == t;
    ExpectOf(" ", u);
  }

  lemma LineCommandsShape(ps: seq<Point>, rest: string)
    requires ps != []
    ensures LineCommands(ps) + rest == "L" + (Coords(ps[0]) + (" " + (LineCommands(ps[1..]) + rest)))
  {
    var m, p, l := "L", Coords(ps[0]), LineCommands(ps[1..]);
    assert LineCommands(ps) == ((m + p) + " ") + l;
    Sequences.Assoc((m + p) + " ", l, rest);
    Sequences.Assoc(m + p, " ", l + rest);
    Sequences.Assoc(m, p, " " + (l + rest));
  }

  lemma {:induction false} LineCommandsRoundTrip(ps: seq<Point>, rest: string)
    requires NoLineNext(rest)
    ensures ReadLines(LineCommands(ps) + rest) == Some(Read(ps, rest))
  {
    if ps == [] {
      assert LineCommands(ps) + rest == rest;
    } else {
      var more := LineCommands(ps[1..]) + rest;
      LineCommandsShape(ps, rest);
      SpaceStops(more);
      CoordsRoundTrip(ps[0], " " + more);
      LineCommandsRoundTrip(ps[1..], rest);
      ReadLinesStep(Coords(ps[0]) + (" " + more), ps[0], more, ps[1..], rest);
      Sequences.ConsSplit(ps);
    }
  }

  lemma ReadPathDataStep(t: string, p: Point, u: string, ps: seq<Point>, r: string)
    requires ReadCoords(t) == Some(Read(p, " " + u))
    requires ReadLines(u) == Some(Read(ps, r))
    ensures ReadPathData("M" + t) == Some(Read([p] + ps, r))
  {
    ExpectOf("M", t);
    ExpectOf(" ", u);
  }

  lemma PathDataShape(pts: seq<Point>, rest: string)
    requires |pts| >= 1
    ensures PathData(pts) + rest == "M" + (Coords(pts[0]) + (" " + (LineCommands(pts[1..]) + rest)))
  {
    var m, p, l := "M", Coords(pts[0]), LineCommands(pts[1..]);
    assert PathData(pts) == ((m + p) + " ") + l;
    Sequences.Assoc((m + p) + " ", l, rest);
    Sequences.Assoc(m + p, " ", l + rest);
    Sequences.Assoc(m, p, " " + (l + rest));
  }

  /** The path data of a stroke reads back as exactly its points, in order. */
  lemma PathDataRoundTrip(pts: seq<Point>, rest: string)
    requires |pts| >= 1 && NoLineNext(rest)
    ensures ReadPathData(PathData(pts) + rest) == Some(Read(pts, rest))
  {
    var more := LineCommands(pts[1..]) + rest;
    PathDataShape(pts, rest);
    SpaceStops(more);
    CoordsRoundTrip(pts[0], " " + more);
    LineCommandsRoundTrip(pts[1..], rest);
    ReadPathDataStep(Coords(pts[0]) + (" " + more), pts[0], more, pts[1..], rest);
    Sequences.ConsSplit(pts);
  }

  /** Two strokes with the same path data have the same points. */
  lemma PathDataInjective(a: seq<Point>, b: seq<Point>)
    requires |a| >= 1 && |b| >= 1 && PathData(a) == PathData(b)
    ensures a == b
  {
    PathDataRoundTrip(a, []);
    PathDataRoundTrip(b, []);
    assert PathData(a) + [] == PathData(a);
    assert PathData(b) + [] == PathData(b);
  }

  lemma {:induction false} UntilQuoteOf(color: string, rest: string)
    requires '"' !in color
    requires |rest| > 0 && rest[0] == '"'
    ensures UntilQuote(color + rest) == Read(color, rest)
  {
    if color == [] {
      assert color + rest == rest;
    } else {
      assert (color + rest)[1..] == color[1..] + rest;
      UntilQuoteOf(color[1..], rest);
      assert [color[0]] + color[1..] == color;
    }
  }

  /** No double quote in a command's colour: the text of the `stroke`
      attribute is not escaped. */
  predicate QuoteFree(c: Command)
  {
    '"' !in c.color
  }

  lemma ReadAttributesStep(color: string, ws: string, w: int, rest: string)
    requires '"' !in color
    requires ReadInt(ws + (PathTail + rest)) == Some(Read(w, PathTail + rest))
    ensures ReadAttributes("\" stroke=\"" + (color + ("\" stroke-width=\"" + (ws + (PathTail + rest)))))
            == Some(Read(Style(color, w), rest))
  {
    var afterColor := "\" stroke-width=\"" + (ws + (PathTail + rest));
    ExpectOf("\" stroke=\"", color + afterColor);
    UntilQuoteOf(color, afterColor);
    ExpectOf("\" stroke-width=\"", ws + (PathTail + rest));
    ExpectOf(PathTail, rest);
  }

  lemma AttributesShape(c: Command, rest: string)
    ensures PathAttributes(c) + rest
            == "\" stroke=\"" + (c.color + ("\" stroke-width=\""
               + (IntToString(EffectiveWidth(c)) + (PathTail + rest))))
    ensures Stops(PathTail + rest)
  {
    var a, b, w := "\" stroke=\"", "\" stroke-width=\"", IntToString(EffectiveWidth(c));
    assert PathAttributes(c) == (((a + c.color) + b) + w) + PathTail;
    Sequences.Assoc(((a + c.color) + b) + w, PathTail, rest);
    Sequences.Assoc((a + c.color) + b, w, PathTail + rest);
    Sequences.Assoc(a + c.color, b, w + (PathTail + rest));
    Sequences.Assoc(a, c.color, b + (w + (PathTail + rest)));
    TailStops(rest);
  }

  lemma TailStops(rest: string)
    ensures Stops(PathTail + rest)
  {
    assert |PathTail| > 0 && PathTail[0] == '"';
    assert (PathTail + rest)[0] == PathTail[0];
  }

  lemma AttributesRoundTrip(c: Command, rest: string)
    requires QuoteFree(c)
    ensures ReadAttributes(PathAttributes(c) + rest) == Some(Read(Style(c.color, EffectiveWidth(c)), rest))
  {
    AttributesShape(c, rest);
    ReadIntOf(EffectiveWidth(c), PathTail + rest);
    ReadAttributesStep(c.color, IntToString(EffectiveWidth(c)), EffectiveWidth(c), rest);
  }

  lemma ReadPathStep(d: string, pts: seq<Point>, a: string, style: Style, rest: string)
    requires ReadPathData(d + a) == Some(Read(pts, a))
    requires ReadAttributes(a) == Some(Read(style, rest))
    ensures ReadPath(PathOpen + (d + a)) == Some(Read(Command("path", style.color, pts, style.width), rest))
  {
    ExpectOf(PathOpen, d + a);
  }

  lemma PathElementShape(c: Command, rest: string)
    requires |c.points| >= 1
    ensures PathElement(c) + rest == PathOpen + (PathData(c.points) + (PathAttributes(c) + rest))
    ensures NoLineNext(PathAttributes(c) + rest)
  {
    Sequences.Assoc(PathOpen + PathData(c.points), PathAttributes(c), rest);
    Sequences.Assoc(PathOpen, PathData(c.points), PathAttributes(c) + rest);
    AttributesStart(c, rest);
  }

  lemma AttributesStart(c: Command, rest: string)
    ensures (PathAttributes(c) + rest)[0] == '"'
  {
  }

  /** A `path` element reads back as its command, with the effective width. */
  lemma PathElementRoundTrip(c: Command, rest: string)
    requires IsDrawable(c) && QuoteFree(c)
    ensures ReadPath(PathElement(c) + rest) == Some(Read(Rendered(c), rest))
  {
    var a := PathAttributes(c) + rest;
    PathElementShape(c, rest);
    PathDataRoundTrip(c.points, a);
    AttributesRoundTrip(c, rest);
    ReadPathStep(PathData(c.points), c.points, a, Style(c.color, EffectiveWidth(c)), rest);
  }

  lemma ReadPathsStep(s: string, c: Command, t: string, cs: seq<Command>, rest: string)
    requires Expect(s, PathOpen).Some?
    requires ReadPath(s) == Some(Read(c, t))
    requires ReadPaths(t) == Some(Read(cs, rest))
    ensures ReadPaths(s) == Some(Read([c] + cs, rest))
  {
  }

  lemma StartsWithPath(c: Command, rest: string)
    requires |c.points| >= 1
    ensures Expect(PathElement(c) + rest, PathOpen).Some?
  {
    PathElementShape(c, rest);
    ExpectOf(PathOpen, PathData(c.points) + (PathAttributes(c) + rest));
  }

  lemma FooterIsNoPath(rest: string)
    ensures Expect(Footer + rest, PathOpen).None?
  {
    assert (Footer + rest)[1] == '/';
  }

  lemma ElementsShape(hist: seq<Command>, rest: string)
    requires hist != []
    ensures Elements(hist) + rest
            == if IsDrawable(hist[0]) then PathElement(hist[0]) + (Elements(hist[1..]) + rest)
               else Elements(hist[1..]) + rest
  {
    var head := ElementOf(hist[0]);
    var tail := Elements(hist[1..]);
    assert Elements(hist) == head + tail;
    Sequences.Assoc(head, tail, rest);
    assert "" + (tail + rest) == tail + rest;
  }

  lemma RenderedDrawableCons(hist: seq<Command>)
    requires hist != []
    ensures RenderedAll(Drawable(hist))
            == if IsDrawable(hist[0]) then [Rendered(hist[0])] + RenderedAll(Drawable(hist[1..]))
               else RenderedAll(Drawable(hist[1..]))
  {
    if IsDrawable(hist[0]) {
      assert ([hist[0]] + Drawable(hist[1..]))[1..] == Drawable(hist[1..]);
    }
  }

  /** The elements of a history read back as its drawable commands, in
      history order, each with its effective width. */
  lemma {:induction false} ElementsRoundTrip(hist: seq<Command>, rest: string)
    requires forall c :: c in hist ==> QuoteFree(c)
    requires Expect(rest, PathOpen).None?
    ensures ReadPaths(Elements(hist) + rest) == Some(Read(RenderedAll(Drawable(hist)), rest))
  {
    if hist == [] {
      assert Elements(hist) + rest == rest;
    } else {
      var c := hist[0];
      var more := Elements(hist[1..]) + rest;
      ElementsRoundTrip(hist[1..], rest);
      ElementsShape(hist, rest);
      RenderedDrawableCons(hist);
      if IsDrawable(c) {
        PathElementRoundTrip(c, more);
        StartsWithPath(c, more);
        ReadPathsStep(PathElement(c) + more, Rendered(c), more, RenderedAll(Drawable(hist[1..])), rest);
      }
    }
  }

  lemma ReadHeaderStep(ws: string, w: nat, hs: string, h: nat, rest: string)
    requires ReadNat(ws + ("\" height=\"" + (hs + ("\" xmlns=\"http://www.w3.org/2000/svg\">" + rest))))
             == Some(Read(w, "\" height=\"" + (hs + ("\" xmlns=\"http://www.w3.org/2000/svg\">" + rest))))
    requires ReadNat(hs + ("\" xmlns=\"http://www.w3.org/2000/svg\">" + rest))
             == Some(Read(h, "\" xmlns=\"http://www.w3.org/2000/svg\">" + rest))
    ensures ReadHeader("<svg width=\"" + (ws + ("\" height=\"" + (hs + ("\" xmlns=\"http://www.w3.org/2000/svg\">" + rest)))))
            == Some(Read((w, h), rest))
  {
    var afterHeight := "\" xmlns=\"http://www.w3.org/2000/svg\">" + rest;
    var afterWidth := "\" height=\"" + (hs + afterHeight);
    ExpectOf("<svg width=\"", ws + afterWidth);
    ExpectOf("\" height=\"", hs + afterHeight);
    ExpectOf("\" xmlns=\"http://www.w3.org/2000/svg\">", rest);
  }

  lemma HeaderShape(width: nat, height: nat, rest: string)
    ensures Header(width, height) + rest
            == "<svg width=\"" + (NatToString(width) + ("\" height=\"" + (NatToString(height)
               + ("\" xmlns=\"http://www.w3.org/2000/svg\">" + rest))))
    ensures Stops("\" height=\"" + (NatToString(height) + ("\" xmlns=\"http://www.w3.org/2000/svg\">" + rest)))
    ensures Stops("\" xmlns=\"http://www.w3.org/2000/svg\">" + rest)
  {
    assert ("\" height=\"" + (NatToString(height) + ("\" xmlns=\"http://www.w3.org/2000/svg\">" + rest)))[0] == '"';
    assert ("\" xmlns=\"http://www.w3.org/2000/svg\">" + rest)[0] == '"';
  }

  /** The opening tag reads back as the canvas size. */
  lemma HeaderRoundTrip(width: nat, height: nat, rest: string)
    ensures ReadHeader(Header(width, height) + rest) == Some(Read((width, height), rest))
  {
    var afterHeight := "\" xmlns=\"http://www.w3.org/2000/svg\">" + rest;
    var afterWidth := "\" height=\"" + (NatToString(height) + afterHeight);
    HeaderShape(width, height, rest);
    ReadNatOf(width, afterWidth);
    ReadNatOf(height, afterHeight);
    ReadHeaderStep(NatToString(width), width, NatToString(height), height, rest);
  }

  lemma DocumentShape(width: nat, height: nat, hist: seq<Command>)
    ensures Document(width, height, hist) == Header(width, height) + (Background + (Elements(hist) + Footer))
  {
    var h, e := Header(width, height), Elements(hist);
    Sequences.Assoc(h + Background, e, Footer);
    Sequences.Assoc(h, Background, e + Footer);
  }

  /** Reading the encoder's document gives back the canvas size and every
      drawable command of the history, in history order, with its colour,
      its points and its effective width. */
  lemma DocumentRoundTrip(width: nat, height: nat, hist: seq<Command>)
    requires forall c :: c in hist ==> QuoteFree(c)
    ensures ReadDocument(Document(width, height, hist))
            == Some(Image(width, height, RenderedAll(Drawable(hist))))
  {
    DocumentShape(width, height, hist);
    HeaderRoundTrip(width, height, Background + (Elements(hist) + Footer));
    ExpectOf(Background, Elements(hist) + Footer);
    FooterIsNoPath([]);
    ElementsRoundTrip(hist, Footer);
    ExpectOf(Footer, []);
    assert Footer + [] == Footer;
  }

  /** The export loses nothing a reader can see: two histories with the same
      document have the same drawable strokes, up to the width default. */
  lemma DocumentInjective(width: nat, height: nat, a: seq<Command>, b: seq<Command>)
    requires forall c :: c in a ==> QuoteFree(c)
    requires forall c :: c in b ==> QuoteFree(c)
    requires Document(width, height, a) == Document(width, height, b)
    ensures RenderedAll(Drawable(a)) == RenderedAll(Drawable(b))
  {
    DocumentRoundTrip(width, height, a);
    DocumentRoundTrip(width, height, b);
  }
}
