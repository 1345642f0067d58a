/**
 * The floating window that shows one cell's output (magma/outputbuffer.py):
 * the header line, the rendering of the chunks into the lines of a scratch
 * buffer, where a carriage return overwrites the start of its line, and the
 * size and place of the window opened under the cell. The editor's window
 * metrics, the new window's handle and the closing of a window are inputs.
 */
module OutputLayout {
  import opened Common
  import opened PyStr
  import opened Options
  import opened OutputChunks
  import opened Images
  import Utils

  // ---------------------------------------------------------------------------
  // The header line

  /** The execution count as the header shows it. */
  function CountLabel(executionCount: Option<int>): string
  {
    match executionCount
    case None => "..."
    case Some(n) => IntToString(n)
  }

  /** The status as the header shows it. */
  function StatusLabel(status: OutputStatus, success: bool): (r: string)
    ensures |r| >= 2
  {
    match status
    case Hold => "* On Hold"
    case Done => if success then "✓ Done" else "✗ Failed"
    case Running => "... Running"
  }

  /** OutputBuffer._get_header_text: "[OLD] " for an output loaded from a file,
      then Out[count]: and the status. */
  function HeaderText(o: OutputRecord): (h: string)
    ensures ("[OLD] " <= h) <==> o.isOld
  {
    var mid := "Out[" + CountLabel(o.executionCount) + "]: ";
    var tail := mid + StatusLabel(o.status, o.success);
    assert tail[..|mid|] == mid;
    assert tail[0] == 'O';
    if o.isOld then
      var h := "[OLD] " + tail;
      assert h[..6] == "[OLD] " && h[6..] == tail;
      h
    else
      tail
  }

  /** The last two characters of each status label. */
  lemma StatusLabelEnd(status: OutputStatus, success: bool)
    ensures var l := StatusLabel(status, success);
            (l[|l| - 2], l[|l| - 1])
            == match status
               case Hold => ('l', 'd')
               case Done => if success then ('n', 'e') else ('e', 'd')
               case Running => ('n', 'g')
  {
  }

  /** The header ends with the status label. */
  lemma HeaderTail(o: OutputRecord)
    ensures var h := HeaderText(o);
            var l := StatusLabel(o.status, o.success);
            |h| >= 2 && h[|h| - 2] == l[|l| - 2] && h[|h| - 1] == l[|l| - 1]
  {
    var l := StatusLabel(o.status, o.success);
    var tail := "Out[" + CountLabel(o.executionCount) + "]: " + l;
    assert tail[|tail| - 2] == l[|l| - 2] && tail[|tail| - 1] == l[|l| - 1];
    if o.isOld {
      var h := "[OLD] " + tail;
      assert h[|h| - 2] == tail[|tail| - 2] && h[|h| - 1] == tail[|tail| - 1];
    }
  }

  /** The header tells whether the output is old, its status, and for a finished
      execution whether it succeeded. */
  lemma HeaderDistinguishes(a: OutputRecord, b: OutputRecord)
    requires HeaderText(a) == HeaderText(b)
    ensures a.isOld == b.isOld
    ensures a.status == b.status
    ensures a.status == Done ==> a.success == b.success
  {
    HeaderTail(a);
    HeaderTail(b);
    StatusLabelEnd(a.status, a.success);
    StatusLabelEnd(b.status, b.success);
  }

  // ---------------------------------------------------------------------------
  // Rendering the chunk texts into lines

  /** What a line shows: the text after its last carriage return. */
  function LastSegment(line: string): string
  {
    var parts := Split(line, '\r');
    parts[|parts| - 1]
  }

  /** The loop over the lines of the rendered text: each line becomes its last
      segment, and the lines that are then empty are dropped. */
  function KeptLines(lines: seq<string>): seq<string>
    decreases |lines|
  {
    if |lines| == 0 then []
    else
      var last := LastSegment(lines[|lines| - 1]);
      KeptLines(lines[..|lines| - 1]) + (if last != "" then [last] else [])
  }

  /** A carriage return overwrites everything written before it on its line. */
  lemma CarriageReturnOverwrites(a: string, b: string)
    ensures LastSegment(a + "\r" + b) == LastSegment(b)
  {
    assert a + "\r" + b == a + ['\r'] + b;
    SplitAtSep(a, b, '\r');
  }

  /** A line without carriage returns shows whole. */
  lemma LastSegmentPlain(line: string)
    requires forall i :: 0 <= i < |line| ==> line[i] != '\r'
    ensures LastSegment(line) == line
  {
    SplitNoSep(line, '\r');
  }

  /** The kept lines are non-empty and hold no carriage return, nor any character
      absent from every input line. */
  lemma {:induction false} KeptLinesClean(lines: seq<string>, c: char)
    requires forall k, i :: 0 <= k < |lines| && 0 <= i < |lines[k]| ==> lines[k][i] != c
    ensures forall k :: 0 <= k < |KeptLines(lines)| ==> KeptLines(lines)[k] != ""
    ensures forall k, i :: 0 <= k < |KeptLines(lines)| && 0 <= i < |KeptLines(lines)[k]| ==>
              KeptLines(lines)[k][i] != '\r' && KeptLines(lines)[k][i] != c
    decreases |lines|
  {
    if |lines| > 0 {
      var init := lines[..|lines| - 1];
      var line := lines[|lines| - 1];
      KeptLinesClean(init, c);
      var parts := Split(line, '\r');
      SplitPiecesFree(line, '\r');
      SplitPiecesAvoid(line, '\r', c);
      assert LastSegment(line) == parts[|parts| - 1];
    }
  }

  /** Lines that are non-empty and free of carriage returns are all kept as they are. */
  lemma {:induction false} KeptLinesPlain(lines: seq<string>)
    requires forall k :: 0 <= k < |lines| ==> lines[k] != ""
    requires forall k, i :: 0 <= k < |lines| && 0 <= i < |lines[k]| ==> lines[k][i] != '\r'
    ensures KeptLines(lines) == lines
    decreases |lines|
  {
    if |lines| > 0 {
      KeptLinesPlain(lines[..|lines| - 1]);
      LastSegmentPlain(lines[|lines| - 1]);
      assert lines[..|lines| - 1] + [lines[|lines| - 1]] == lines;
    }
  }

  /** The body lines of a rendered text. */
  function BodyLines(text: string): seq<string>
  {
    KeptLines(Split(RStrip(text), '\n'))
  }

  /** Every body line is a non-empty line with no newline and no carriage return. */
  lemma BodyLinesClean(text: string)
    ensures forall k :: 0 <= k < |BodyLines(text)| ==> BodyLines(text)[k] != ""
    ensures forall k, i :: 0 <= k < |BodyLines(text)| && 0 <= i < |BodyLines(text)[k]| ==>
              BodyLines(text)[k][i] != '\r' && BodyLines(text)[k][i] != '\n'
  {
    SplitPiecesFree(RStrip(text), '\n');
    KeptLinesClean(Split(RStrip(text), '\n'), '\n');
  }

  /** A text without carriage returns or blank lines is shown line for line: joining
      the body lines gives back the text without its trailing whitespace. */
  lemma BodyLinesRoundTrip(text: string)
    requires forall i :: 0 <= i < |text| ==> text[i] != '\r'
    requires forall k :: 0 <= k < |Split(RStrip(text), '\n')| ==> Split(RStrip(text), '\n')[k] != ""
    ensures Join("\n", BodyLines(text)) == RStrip(text)
  {
    var t := RStrip(text);
    assert forall i :: 0 <= i < |t| ==> t[i] == text[i];
    SplitPiecesAvoid(t, '\n', '\r');
    KeptLinesPlain(Split(t, '\n'));
    JoinSplit(t, '\n');
  }

  /** The filtering loop of show. */
  method ProcessLines(lines: seq<string>) returns (actual: seq<string>)
    ensures actual == KeptLines(lines)
  {
    actual := [];
    var i := 0;
    while i < |lines|
      invariant 0 <= i <= |lines|
      invariant actual == KeptLines(lines[..i])
    {
      var parts := Split(lines[i], '\r');
      var last := parts[|parts| - 1];
      assert lines[..i + 1][..i] == lines[..i];
      if last != "" {
        actual := actual + [last];
      }
      i := i + 1;
    }
    assert lines[..|lines|] == lines;
  }

  /** The line processing of show, on the placed text. */
  method ProcessText(text: string) returns (body: seq<string>)
    ensures body == BodyLines(text)
  {
    body := ProcessLines(Split(RStrip(text), '\n'));
  }

  // ---------------------------------------------------------------------------
  // Placing the chunks

  /** The placed chunks: their texts concatenated, the line count after them, the
      images they put on the canvas, and the exception that stopped the loop. */
  datatype PlacedAll = PlacedAll(text: string, lineno: int, requests: seq<ImageRequest>, error: Option<PyError>)

  function RequestList(r: Option<ImageRequest>): seq<ImageRequest>
  {
    match r
    case None => []
    case Some(q) => [q]
  }

  /** Placing one chunk at a line of the output. */
  type Placer = (OutputChunk, int) -> Result<Placed>

  /** chunk.place(options, lineno, shape, canvas) with show's options and shape. */
  function PlacerFor(wrapOutput: bool, wrap: TextWrapper, shape: Shape, ws: Option<WinSize>): Placer
  {
    (c: OutputChunk, lineno: int) => Place(c, wrapOutput, wrap, lineno, shape, ws)
  }

  /** The placing loop of show, from line `lineno` on: each chunk is placed at the
      line count of the text before it, until one raises. */
  function PlaceFrom(chunks: seq<OutputChunk>, place: Placer, lineno: int): PlacedAll
    decreases |chunks|
  {
    if |chunks| == 0 then PlacedAll("", lineno, [], None)
    else
      match place(chunks[0], lineno)
      case Err(e) => PlacedAll("", lineno, [], Some(e))
      case Ok(p) =>
        var rest := PlaceFrom(chunks[1..], place, lineno + Count(p.text, "\n"));
        PlacedAll(p.text + rest.text, rest.lineno, RequestList(p.request) + rest.requests, rest.error)
  }

  /** The line count the loop ends with is the number of newlines it placed. */
  lemma {:induction false} PlaceFromCountsLines(chunks: seq<OutputChunk>, place: Placer, lineno: int)
    ensures var r := PlaceFrom(chunks, place, lineno);
            r.error.None? ==> r.lineno == lineno + Count(r.text, "\n")
    decreases |chunks|
  {
    if |chunks| > 0 {
      match place(chunks[0], lineno)
      case Err(e) =>
      case Ok(p) =>
        var n := lineno + Count(p.text, "\n");
        PlaceFromCountsLines(chunks[1..], place, n);
        var rest := PlaceFrom(chunks[1..], place, n);
        CountConcatChar(p.text, rest.text, '\n');
    }
  }

  /** An image chunk first in the list is requested at line y + lineno + 1 of the
      window, at its left edge. */
  lemma FirstImagePosition(chunks: seq<OutputChunk>, wrapOutput: bool, wrap: TextWrapper, lineno: int, shape: Shape,
                           ws: Option<WinSize>)
    requires |chunks| > 0 && chunks[0].body.ImageBody?
    requires PlaceFrom(chunks, PlacerFor(wrapOutput, wrap, shape, ws), lineno).error.None?
    ensures var r := PlaceFrom(chunks, PlacerFor(wrapOutput, wrap, shape, ws), lineno);
            |r.requests| > 0 && r.requests[0].y == shape.y + lineno + 1 && r.requests[0].x == shape.x
  {
    assert PlacerFor(wrapOutput, wrap, shape, ws)(chunks[0], lineno) == Place(chunks[0], wrapOutput, wrap, lineno, shape, ws);
  }

  /** The pid the canvas extends Ueberzug identifiers with. */
  function CanvasPid(c: Canvas): int
  {
    if c.Ueberzug? then c.u.pid else 0
  }

  /** The canvas after a series of add_image calls. */
  function AddAll(s: CanvasState, pid: int, requests: seq<ImageRequest>): CanvasState
    decreases |requests|
  {
    if |requests| == 0 then s
    else
      var q := requests[|requests| - 1];
      CanvasAdd(AddAll(s, pid, requests[..|requests| - 1]), pid, q.path, q.identifier, q.x, q.y, q.width, q.height)
  }

  /** Without a canvas the images go nowhere. */
  lemma {:induction false} NoCanvasKeepsNothing(pid: int, requests: seq<ImageRequest>)
    ensures AddAll(NoState, pid, requests) == NoState
    decreases |requests|
  {
    if |requests| > 0 {
      NoCanvasKeepsNothing(pid, requests[..|requests| - 1]);
    }
  }

  /** The placing of the chunks still to come, after `text` and `requests`. */
  function After(text: string, requests: seq<ImageRequest>, t: PlacedAll): PlacedAll
  {
    PlacedAll(text + t.text, t.lineno, requests + t.requests, t.error)
  }

  /** A turn of the placing loop whose chunk is placed moves its text and request
      to the placed part. */
  lemma PlaceStep(rest: seq<OutputChunk>, place: Placer, lineno: int, text: string, requests: seq<ImageRequest>)
    requires |rest| > 0 && place(rest[0], lineno).Ok?
    ensures var p := place(rest[0], lineno).value;
            After(text, requests, PlaceFrom(rest, place, lineno))
            == After(text + p.text, requests + RequestList(p.request),
                     PlaceFrom(rest[1..], place, lineno + Count(p.text, "\n")))
  {
    var p := place(rest[0], lineno).value;
    var t := PlaceFrom(rest[1..], place, lineno + Count(p.text, "\n"));
    AppendAssoc(text, p.text, t.text);
    AppendAssoc(requests, RequestList(p.request), t.requests);
  }

  /** The placing loop of show, recording the images it asks the canvas for. */
  method PlaceChunks(chunks: seq<OutputChunk>, place: Placer) returns (r: PlacedAll)
    ensures r == PlaceFrom(chunks, place, 0)
  {
    var text, lineno, requests := "", 0, [];
    var rest := chunks;
    assert PlaceFrom(chunks, place, 0) == After(text, requests, PlaceFrom(rest, place, lineno));
    while |rest| > 0
      invariant PlaceFrom(chunks, place, 0) == After(text, requests, PlaceFrom(rest, place, lineno))
    {
      var placed := place(rest[0], lineno);
      if placed.Err? {
        assert text + "" == text && requests + [] == requests;
        return PlacedAll(text, lineno, requests, Some(placed.error));
      }
      var p := placed.value;
      PlaceStep(rest, place, lineno, text, requests);
      text := text + p.text;
      lineno := lineno + Count(p.text, "\n");
      requests := requests + RequestList(p.request);
      rest := rest[1..];
    }
    assert text + "" == text && requests + [] == requests;
    return PlacedAll(text, lineno, requests, None);
  }

  /** The add_image calls of the placing loop, in order. Placing a chunk does not
      look at the canvas, so making the calls after the loop leaves the canvas as
      making them during it. */
  method AddImages(canvas: Canvas, requests: seq<ImageRequest>)
    requires canvas.Valid()
    modifies canvas.Repr()
    ensures canvas.Valid()
    ensures canvas.State() == AddAll(old(canvas.State()), CanvasPid(canvas), requests)
  {
    ghost var s0 := canvas.State();
    var i := 0;
    while i < |requests|
      invariant 0 <= i <= |requests|
      invariant canvas.Valid()
      invariant canvas.State() == AddAll(s0, CanvasPid(canvas), requests[..i])
    {
      var q := requests[i];
      AddImage(canvas, q.path, q.identifier, q.x, q.y, q.width, q.height);
      assert requests[..i + 1][..i] == requests[..i];
      i := i + 1;
    }
    assert requests[..|requests|] == requests;
  }

  // ---------------------------------------------------------------------------
  // The window

  /** The current window: its column, the first buffer line it shows (line("w0")),
      its width and its height. */
  datatype View = View(col: int, top: int, width: int, height: int)

  /** The options of the window opened (relative to the window, column 0, anchored
      NW, not focusable, in all cases). */
  datatype WindowConfig = WindowConfig(row: int, width: int, height: int, border: string, minimal: bool)

  /** OutputBuffer._buffer_to_window_lineno: the line of the window showing a
      (1-based) buffer line, counting the window's first line as 1. */
  function BufferToWindowLineno(lineno: int, top: int): (r: int)
    ensures r == 1 <==> lineno == top
    ensures r - 1 == lineno - top
  {
    lineno - top + 1
  }

  /** The room for the window: borders take two lines. */
  function UsableHeight(height: int, borders: bool): (r: int)
    ensures borders ==> r == height - 2
    ensures !borders ==> r == height
  {
    if borders then height - 2 else height
  }

  /** Where the output window goes and how large it is: opened only below `row`
      when that is inside the window, as tall as the output (one header line
      plus `lineno`) but not past the bottom. */
  function WindowGeometry(row: int, width: int, height: int, lineno: nat, borders: bool): (r: Option<WindowConfig>)
    ensures r.Some? <==> row < height
    ensures r.Some? ==> r.value.row == row && r.value.width == width
    ensures r.Some? ==> 1 <= r.value.height && r.value.height <= height - row && r.value.height <= lineno + 1
    ensures r.Some? ==> r.value.height == height - row || r.value.height == lineno + 1
    ensures r.Some? ==> (r.value.border == "rounded" <==> borders) && (r.value.minimal <==> !borders)
    ensures r.Some? && !borders ==> r.value.border == "none"
  {
    if row < height then
      var border := if borders then "rounded" else "none";
      Some(WindowConfig(row, width, Min(height - row, lineno + 1), border, !borders))
    else None
  }

  /** What show leaves: the display buffer's lines, the window, the canvas, and the
      window opened (or the exception raised). */
  datatype ShowOutcome = ShowOutcome(lines: seq<string>, window: Option<int>, canvas: CanvasState,
                                     result: Result<Option<WindowConfig>>)

  /** The body and the line count: the processed lines when there are chunks,
      a single empty line and 0 otherwise. */
  function Body(chunkCount: nat, text: string): (seq<string>, nat)
  {
    if chunkCount > 0 then (BodyLines(text), |BodyLines(text)|) else ([""], 0)
  }

  /** What show writes once the chunks are placed: the display buffer's lines, the
      window, and the window opened or the exception raised. */
  datatype Layout = Layout(lines: seq<string>, window: Option<int>, result: Result<Option<WindowConfig>>)

  function LaidOut(o: OutputRecord, window: Option<int>, placed: PlacedAll, row: int, height: int, width: int,
                   borders: bool, newWindow: int): Layout
  {
    if placed.error.Some? then Layout([""], window, Err(placed.error.value))
    else
      var (body, lineno) := Body(|o.chunks|, placed.text);
      var lines := [HeaderText(o)] + body;
      if window.Some? then Layout(lines, window, Err(AssertionError))
      else
        var cfg := WindowGeometry(row, width, height, lineno, borders);
        Layout(lines, if cfg.Some? then Some(newWindow) else None, Ok(cfg))
  }

  /** OutputBuffer.show(anchor): lay the chunks out in the display buffer under the
      header and open a window on it below the anchor's line, `newWindow` being the
      handle the editor gives the new window. */
  function ShowSpec(o: OutputRecord, window: Option<int>, canvas: CanvasState, pid: int, options: MagmaOptions,
                    anchorLine: int, view: View, wrap: TextWrapper, ws: Option<WinSize>, newWindow: int): ShowOutcome
  {
    var row := BufferToWindowLineno(anchorLine + 1, view.top);
    var height := UsableHeight(view.height, options.outputWindowBorders);
    var placed := PlaceFrom(o.chunks, PlacerFor(options.wrapOutput, wrap, Shape(view.col, row, view.width, height), ws), 0);
    var l := LaidOut(o, window, placed, row, height, view.width, options.outputWindowBorders, newWindow);
    ShowOutcome(l.lines, l.window, AddAll(canvas, pid, placed.requests), l.result)
  }

  /** The part of show after the placing loop. */
  method LayOut(o: OutputRecord, window: Option<int>, placed: PlacedAll, row: int, height: int, width: int,
                borders: bool, newWindow: int) returns (l: Layout)
    ensures l == LaidOut(o, window, placed, row, height, width, borders, newWindow)
  {
    // The display buffer was emptied before the chunks were placed.
    if placed.error.Some? {
      return Layout([""], window, Err(placed.error.value));
    }
    var body, lineno := [""], 0;
    if |o.chunks| > 0 {
      body := ProcessText(placed.text);
      lineno := |body|;
    }
    var lines := [HeaderText(o)] + body;
    if window.Some? {
      return Layout(lines, window, Err(AssertionError));
    }
    var cfg := WindowGeometry(row, width, height, lineno, borders);
    var win: Option<int> := None;
    if cfg.Some? {
      win := Some(newWindow);
    }
    l := Layout(lines, win, Ok(cfg));
  }

  /** An output without chunks shows its header over one empty line, in a window
      one line tall if it opens. */
  lemma ShowEmptyOutput(o: OutputRecord, canvas: CanvasState, pid: int, options: MagmaOptions, anchorLine: int,
                        view: View, wrap: TextWrapper, ws: Option<WinSize>, newWindow: int)
    requires o.chunks == []
    ensures var s := ShowSpec(o, None, canvas, pid, options, anchorLine, view, wrap, ws, newWindow);
            s.lines == [HeaderText(o), ""] && s.canvas == canvas && s.result.Ok?
            && (s.result.value.Some? ==> s.result.value.value.height == 1 && s.window == Some(newWindow))
  {
  }

  /** The window opens exactly when nothing raised, no window was open, and the row
      below the anchor is inside the usable height; it then shows the header and
      as many body lines as fit. */
  lemma ShowOpensWindow(o: OutputRecord, window: Option<int>, canvas: CanvasState, pid: int, options: MagmaOptions,
                        anchorLine: int, view: View, wrap: TextWrapper, ws: Option<WinSize>, newWindow: int)
    ensures var s := ShowSpec(o, window, canvas, pid, options, anchorLine, view, wrap, ws, newWindow);
            var row := anchorLine + 2 - view.top;
            var height := UsableHeight(view.height, options.outputWindowBorders);
            var placed := PlaceFrom(o.chunks, PlacerFor(options.wrapOutput, wrap, Shape(view.col, row, view.width, height), ws), 0);
            ((s.result.Ok? && s.result.value.Some?) <==> (placed.error.None? && window.None? && row < height))
            && (s.result.Ok? && s.result.value.Some? ==>
                  s.window == Some(newWindow) && s.result.value.value.row == row
                  && s.result.value.value.height <= |s.lines| && s.result.value.value.height <= height - row)
            && (s.result.Err? ==> s.window == window)
  {
  }

  // ---------------------------------------------------------------------------
  // OutputBuffer

  class OutputBuffer {
    var output: Output
    /** The floating window showing the display buffer, when one is open. */
    var displayWindow: Option<int>
    /** The lines of the scratch display buffer. */
    var displayLines: seq<string>
    const displayBuffer: int
    const canvas: Canvas
    const options: MagmaOptions

    /** The canvas is valid and owns neither this buffer nor its output. */
    ghost predicate Valid()
      reads this, canvas.Repr()
    {
      canvas.Valid() && this !in canvas.Repr() && output !in canvas.Repr()
    }

    /** A new output buffer: a fresh output, a new scratch buffer (number
        `displayBuffer`, one empty line) and no window. */
    constructor (canvas: Canvas, options: MagmaOptions, displayBuffer: int)
      requires canvas.Valid()
      ensures Valid() && fresh(output) && output.Record() == FreshRecord(None)
      ensures displayWindow == None && displayLines == [""]
      ensures this.canvas == canvas && this.options == options && this.displayBuffer == displayBuffer
    {
      output := new Output(None);
      displayWindow := None;
      displayLines := [""];
      this.displayBuffer := displayBuffer;
      this.canvas := canvas;
      this.options := options;
    }

    /** enter: the window to move the cursor into, if there is one. */
    method Enter() returns (target: Option<int>)
      ensures target == displayWindow
    {
      target := displayWindow;
    }

    /** clear_interface: closes the window, if any; `close` is what closing it does
        in the editor. A close that raises leaves the window recorded. */
    method ClearInterface(close: Utils.CallOutcome) returns (r: Result<Option<int>>)
      modifies this
      ensures old(displayWindow).None? ==> r == Ok(None) && displayWindow == None
      ensures old(displayWindow).Some? && close.Completed? ==> r == Ok(old(displayWindow)) && displayWindow == None
      ensures old(displayWindow).Some? && close.Raised? ==> r == Err(close.error) && displayWindow == old(displayWindow)
      ensures r.Ok? ==> displayWindow == None
      ensures output == old(output) && displayLines == old(displayLines)
    {
      if displayWindow.None? {
        return Ok(None);
      }
      var w := displayWindow.value;
      if close.Raised? {
        return Err(close.error);
      }
      displayWindow := None;
      r := Ok(Some(w));
    }

    /** show(anchor), for an anchor on buffer line `anchorLine` (0-based). */
    method Show(anchorLine: int, view: View, wrap: TextWrapper, ws: Option<WinSize>, newWindow: int)
      returns (r: Result<Option<WindowConfig>>)
      requires Valid()
      modifies this, canvas.Repr()
      ensures Valid() && output == old(output) && output.Record() == old(output.Record())
      ensures var s := ShowSpec(old(output.Record()), old(displayWindow), old(canvas.State()), CanvasPid(canvas),
                                options, anchorLine, view, wrap, ws, newWindow);
              displayLines == s.lines && displayWindow == s.window && canvas.State() == s.canvas && r == s.result
    {
      var rec := output.Record();
      var row := BufferToWindowLineno(anchorLine + 1, view.top);
      var height := UsableHeight(view.height, options.outputWindowBorders);
      var placed := PlaceChunks(rec.chunks, PlacerFor(options.wrapOutput, wrap, Shape(view.col, row, view.width, height), ws));
      r := Display(rec, placed, row, height, view.width, newWindow);
    }

    /** The part of show after the placing loop: the images go to the canvas and
        the text to the display buffer. */
    method Display(rec: OutputRecord, placed: PlacedAll, row: int, height: int, width: int, newWindow: int)
      returns (r: Result<Option<WindowConfig>>)
      requires Valid()
      modifies this, canvas.Repr()
      ensures Valid() && output == old(output) && output.Record() == old(output.Record())
      ensures canvas.State() == AddAll(old(canvas.State()), CanvasPid(canvas), placed.requests)
      ensures var l := LaidOut(rec, old(displayWindow), placed, row, height, width, options.outputWindowBorders,
                               newWindow);
              displayLines == l.lines && displayWindow == l.window && r == l.result
    {
      var l := LayOut(rec, displayWindow, placed, row, height, width, options.outputWindowBorders, newWindow);
      displayLines, displayWindow := l.lines, l.window;
      r := l.result;
      AddImages(canvas, placed.requests);
    }
  }
}
