/**
 * Output chunks, the output record of one cell, and the conversion of a
 * Jupyter MIME bundle into a chunk (magma/outputchunks.py).
 *
 * The renderers behind the image MIME types (base64 decoding, cairosvg, plotly,
 * pnglatex and PIL) are a parameter: for a MIME type and its payload a Renderer
 * says which files it allocated, and whether it produced an image, failed to
 * import a library, or raised. The terminal's pixel geometry and textwrap.wrap
 * are parameters too.
 */
module OutputChunks {
  import opened Common
  import opened PyStr
  import opened Json

  // ---------------------------------------------------------------------------
  // Chunks

  datatype ChunkBody =
    | TextBody(text: string)
    | ImageBody(path: string, checksum: string, width: int, height: int)

  /** A chunk and the MIME bundle it was made from (None until to_outputchunk sets it). */
  datatype OutputChunk = OutputChunk(body: ChunkBody, jupyterData: Option<Json>, jupyterMetadata: Option<Json>)

  /** TextOutputChunk(text) */
  function TextChunk(text: string): OutputChunk
  {
    OutputChunk(TextBody(text), None, None)
  }

  /** TextLnOutputChunk(text): the text with a newline appended. */
  function TextLnChunk(text: string): (c: OutputChunk)
    ensures c.body.TextBody? && |c.body.text| == |text| + 1
    ensures c.body.text[..|text|] == text && c.body.text[|text|] == '\n'
    ensures c.jupyterData.None? && c.jupyterMetadata.None?
  {
    TextChunk(text + "\n")
  }

  /** BadOutputChunk(mimetypes) */
  function BadChunk(mimetypes: seq<string>): OutputChunk
  {
    TextLnChunk("<No usable MIMEtype! Received mimetypes " + ReprList(mimetypes) + ">")
  }

  /** MimetypesOutputChunk(mimetypes) */
  function MimetypesChunk(mimetypes: seq<string>): OutputChunk
  {
    TextLnChunk("[DEBUG] Received mimetypes: " + ReprList(mimetypes))
  }

  /** The first line of an error chunk. */
  function ErrorHeading(name: string, message: string): string
  {
    "[Error] " + name + ": " + message
  }

  /** ErrorOutputChunk(name, message, traceback) */
  function ErrorChunk(name: string, message: string, traceback: seq<string>): OutputChunk
  {
    TextLnChunk(Join("\n", [ErrorHeading(name, message), "Traceback:"] + traceback))
  }

  /** AbortedOutputChunk() */
  function AbortedChunk(): OutputChunk
  {
    TextLnChunk("<Kernel aborted with no error message.>")
  }

  /** ImageOutputChunk(path, checksum, (width, height)) */
  function ImageChunk(path: string, checksum: string, width: int, height: int): OutputChunk
  {
    OutputChunk(ImageBody(path, checksum, width, height), None, None)
  }

  /** An error chunk shows its heading, the word "Traceback:" and then one line per
      traceback entry, and ends in a newline (for entries without newlines). */
  lemma {:induction false} ErrorChunkLines(name: string, message: string, traceback: seq<string>)
    requires forall i :: 0 <= i < |name| ==> name[i] != '\n'
    requires forall i :: 0 <= i < |message| ==> message[i] != '\n'
    requires forall k, i :: 0 <= k < |traceback| && 0 <= i < |traceback[k]| ==> traceback[k][i] != '\n'
    ensures var t := ErrorChunk(name, message, traceback).body.text;
            |t| >= 1 && t[|t| - 1] == '\n'
            && Split(t[..|t| - 1], '\n') == [ErrorHeading(name, message), "Traceback:"] + traceback
  {
    var lines := [ErrorHeading(name, message), "Traceback:"] + traceback;
    var heading := ErrorHeading(name, message);
    forall i | 0 <= i < |heading|
      ensures heading[i] != '\n'
    {
      if i < 8 {
        assert heading[i] == "[Error] "[i];
      } else if i < 8 + |name| {
        assert heading[i] == name[i - 8];
      } else if i < 10 + |name| {
        assert heading[i] == ": "[i - 8 - |name|];
      } else {
        assert heading[i] == message[i - 10 - |name|];
      }
    }
    forall k, i | 0 <= k < |lines| && 0 <= i < |lines[k]|
      ensures lines[k][i] != '\n'
    {
      if k >= 2 {
        assert lines[k] == traceback[k - 2];
      }
    }
    SplitJoin(lines, '\n');
  }

  // ---------------------------------------------------------------------------
  // TextOutputChunk._cleanup_text: ANSI escape sequences, then CRLF

  /** The single character after ESC in a two-character sequence: @ to Z and \ to _. */
  predicate IsFeByte(c: char)
  {
    ('@' <= c <= 'Z') || ('\\' <= c <= '_')
  }

  /** Parameter bytes, intermediate bytes and the final byte of a CSI sequence. */
  predicate IsParamByte(c: char) { '0' <= c <= '?' }
  predicate IsIntermediateByte(c: char) { ' ' <= c <= '/' }
  predicate IsFinalByte(c: char) { '@' <= c <= '~' }

  /** The first index at or after i whose character is not a parameter byte. */
  function SkipParams(s: string, i: nat): (r: nat)
    requires i <= |s|
    ensures i <= r <= |s|
    ensures r < |s| ==> !IsParamByte(s[r])
    ensures forall k :: i <= k < r ==> IsParamByte(s[k])
    decreases |s| - i
  {
    if i < |s| && IsParamByte(s[i]) then SkipParams(s, i + 1) else i
  }

  /** The first index at or after i whose character is not an intermediate byte. */
  function SkipIntermediates(s: string, i: nat): (r: nat)
    requires i <= |s|
    ensures i <= r <= |s|
    ensures r < |s| ==> !IsIntermediateByte(s[r])
    ensures forall k :: i <= k < r ==> IsIntermediateByte(s[k])
    decreases |s| - i
  {
    if i < |s| && IsIntermediateByte(s[i]) then SkipIntermediates(s, i + 1) else i
  }

  /** The length of the match of \x1B(?:[@-Z\\-_]|\[[0-?]*[ -/]*[@-~]) at the start
      of s, or 0 when there is none; the pattern has at most one match at a place. */
  function AnsiMatchLength(s: string): (n: nat)
    ensures n == 0 || 2 <= n <= |s|
    ensures n > 0 ==> s[0] == ESC
  {
    if |s| < 2 || s[0] != ESC then 0
    else if IsFeByte(s[1]) then 2
    else if s[1] == '[' then
      var p := SkipParams(s, 2);
      var q := SkipIntermediates(s, p);
      if q < |s| && IsFinalByte(s[q]) then q + 1 else 0
    else 0
  }

  /** ANSI_CODE_REGEX.sub("", s): scan left to right, dropping each match. */
  function StripAnsi(s: string): (r: string)
    ensures |r| <= |s|
    decreases |s|
  {
    if |s| == 0 then ""
    else
      var n := AnsiMatchLength(s);
      if n > 0 then StripAnsi(s[n..]) else [s[0]] + StripAnsi(s[1..])
  }

  /** _cleanup_text */
  function CleanupText(s: string): string
  {
    Replace(StripAnsi(s), "\r\n", "\n")
  }

  /** Text without escape characters passes the regex unchanged. */
  lemma {:induction false} StripAnsiPlain(s: string)
    requires forall i :: 0 <= i < |s| ==> s[i] != ESC
    ensures StripAnsi(s) == s
    decreases |s|
  {
    if |s| > 0 {
      StripAnsiPlain(s[1..]);
      assert [s[0]] + s[1..] == s;
    }
  }

  /** Every character StripAnsi keeps comes from its input. */
  lemma {:induction false} StripAnsiKeeps(s: string, c: char)
    requires forall i :: 0 <= i < |s| ==> s[i] != c
    ensures forall i :: 0 <= i < |StripAnsi(s)| ==> StripAnsi(s)[i] != c
    decreases |s|
  {
    if |s| > 0 {
      var n := AnsiMatchLength(s);
      if n > 0 {
        StripAnsiKeeps(s[n..], c);
      } else {
        StripAnsiKeeps(s[1..], c);
      }
    }
  }

  /** Cleaning never lengthens the text: each CRLF becomes one character. */
  lemma CleanupNotLonger(s: string)
    ensures |CleanupText(s)| == |StripAnsi(s)| - Count(StripAnsi(s), "\r\n")
    ensures |CleanupText(s)| <= |s|
  {
    ReplaceLength(StripAnsi(s), "\r\n", "\n");
  }

  /** Text with neither escape characters nor carriage returns is left as it is. */
  lemma CleanupPlain(s: string)
    requires forall i :: 0 <= i < |s| ==> s[i] != ESC && s[i] != '\r'
    ensures CleanupText(s) == s
  {
    StripAnsiPlain(s);
    NoCrlf(s);
    ReplaceAbsent(s, "\r\n", "\n");
  }

  /** A string without '\r' has no "\r\n" in it. */
  lemma {:induction false} NoCrlf(s: string)
    requires forall i :: 0 <= i < |s| ==> s[i] != '\r'
    ensures !IsSubstring("\r\n", s)
    decreases |s|
  {
    if |s| > 0 {
      NoCrlf(s[1..]);
      assert s[0] != "\r\n"[0];
    }
  }

  /** A coloured line: the SGR sequences go and the CRLF becomes a newline. */
  lemma CleanupExample()
    ensures CleanupText([ESC] + "[31mred" + [ESC] + "[0m\r\n") == "red\n"
  {
    StripExample();
    ReplaceExample();
  }

  lemma StripExample()
    ensures StripAnsi([ESC] + "[31mred" + [ESC] + "[0m\r\n") == "red\r\n"
  {
    var s := [ESC] + "[31mred" + [ESC] + "[0m\r\n";
    assert s[..5] == [ESC, '[', '3', '1', 'm'];
    assert SkipParams(s, 4) == 4;
    assert SkipParams(s, 2) == 4;
    assert SkipIntermediates(s, 4) == 4;
    assert AnsiMatchLength(s) == 5;
    assert s[5..] == "red" + [ESC] + "[0m\r\n";
    StripRed();
  }

  /** The plain text before the reset code is kept. */
  lemma StripRed()
    ensures StripAnsi("red" + [ESC] + "[0m\r\n") == "red\r\n"
  {
    var t := "red" + [ESC] + "[0m\r\n";
    assert AnsiMatchLength(t) == 0 && AnsiMatchLength(t[1..]) == 0 && AnsiMatchLength(t[2..]) == 0;
    assert StripAnsi(t) == "r" + StripAnsi(t[1..]);
    assert StripAnsi(t[1..]) == "e" + StripAnsi(t[2..]);
    assert StripAnsi(t[2..]) == "d" + StripAnsi(t[3..]);
    assert t[1..][1..] == t[2..] && t[2..][1..] == t[3..];
    assert t[3..] == [ESC] + "[0m\r\n";
    StripReset();
  }

  /** The reset code goes, the line ending stays. */
  lemma StripReset()
    ensures StripAnsi([ESC] + "[0m\r\n") == "\r\n"
  {
    var u := [ESC] + "[0m\r\n";
    assert u == [ESC, '[', '0', 'm', '\r', '\n'];
    assert SkipParams(u, 2) == 3;
    assert SkipIntermediates(u, 3) == 3;
    assert AnsiMatchLength(u) == 4;
    assert u[4..] == "\r\n";
    assert StripAnsi("\r\n") == "\r\n";
  }

  lemma ReplaceExample()
    ensures Replace("red\r\n", "\r\n", "\n") == "red\n"
  {
    var w := "red\r\n";
    assert w[0] == 'r' && w[1] == 'e' && w[2] == 'd';
    assert !("\r\n" <= w) && !("\r\n" <= w[1..]) && !("\r\n" <= w[2..]);
    assert w[1..][1..] == w[2..] && w[2..][1..] == w[3..];
    assert w[3..] == "\r\n" && "\r\n"[2..] == "";
    assert Replace(w[3..], "\r\n", "\n") == "\n";
  }

  /** The cleanup is not idempotent: removing a complete sequence can bring the
      halves of another one together. */
  lemma CleanupNotIdempotent()
    ensures var s := [ESC, ESC, '[', 'm', '[', 'm'];
            CleanupText(s) == [ESC, '[', 'm'] && CleanupText(CleanupText(s)) == ""
  {
    var s := [ESC, ESC, '[', 'm', '[', 'm'];
    assert AnsiMatchLength(s) == 0;
    assert AnsiMatchLength(s[1..]) == 3;
    assert s[1..][3..] == "[m";
    assert StripAnsi("[m") == "[m";
    assert StripAnsi(s) == [ESC, '[', 'm'];
    assert Replace([ESC, '[', 'm'], "\r\n", "\n") == [ESC, '[', 'm'];
    assert AnsiMatchLength([ESC, '[', 'm']) == 3;
    assert StripAnsi([ESC, '[', 'm']) == "";
  }

  // ---------------------------------------------------------------------------
  // Placing a chunk in the output window

  /** (x, y, width, height) of the output window. */
  datatype Shape = Shape(x: int, y: int, width: int, height: int)

  /** A canvas.add_image(path, identifier, x=, y=, width=, height=) call. */
  datatype ImageRequest = ImageRequest(path: string, identifier: string, x: int, y: int, width: int, height: int)

  /** What placing a chunk yields: its text, and the image it puts on the canvas. */
  datatype Placed = Placed(text: string, request: Option<ImageRequest>)

  /** textwrap.wrap(line, width) */
  type TextWrapper = (string, int) -> seq<string>

  /** The terminal's size in cells and pixels (TIOCGWINSZ on the terminal's pty);
      None when that cannot be queried. */
  datatype WinSize = WinSize(rows: int, cols: int, xpixels: int, ypixels: int)

  /** ImageOutputChunk._get_char_pixelsize */
  function CharPixelSize(ws: Option<WinSize>): (r: Result<Option<(int, int)>>)
    ensures r.Ok? && r.value.Some? ==> r.value.value.0 >= 1 && r.value.value.1 >= 1
  {
    match ws
    case None => Ok(None)
    case Some(w) =>
      if w.xpixels == 0 && w.ypixels == 0 then Ok(None)
      else if w.cols == 0 || w.rows == 0 then Err(ZeroDivisionError)
      else Ok(Some((Max(1, w.xpixels / w.cols), Max(1, w.ypixels / w.rows))))
  }

  /** The most lines an image may take below line `lineno` of the window. */
  function MaxNLines(lineno: int, shape: Shape): nat
  {
    Max(0, (shape.height - shape.y) - lineno - 1) as nat
  }

  /** The aspect-ratio branch of _determine_n_lines, on the image's size in cells
      (cw wide, ch high): all the room when the image fits the window width at that
      height, otherwise the height at which it fills the width, rounded down; never
      more than `cap` lines. */
  function FitLines(cw: real, ch: real, maxN: nat, width: int, cap: int): Result<int>
  {
    if ch == 0.0 then Err(ZeroDivisionError)
    else if (cw / ch) * (maxN as real) <= width as real then Ok(Min(maxN, cap))
    else if cw == 0.0 then Err(ZeroDivisionError)
    else Ok(Min(((ch / cw) * width as real).Floor, cap))
  }

  /** ImageOutputChunk._determine_n_lines: without a pixel size, a third of the
      room; with one, the aspect-ratio fit, capped by the image's height in cells. */
  function DetermineNLines(imgWidth: int, imgHeight: int, lineno: int, shape: Shape, ws: Option<WinSize>): Result<int>
  {
    var maxN := MaxNLines(lineno, shape);
    match CharPixelSize(ws)
    case Err(e) => Err(e)
    case Ok(None) => Ok(maxN / 3)
    case Ok(Some((xp, yp))) =>
      FitLines(imgWidth as real / xp as real, imgHeight as real / yp as real, maxN, shape.width, imgHeight / yp)
  }

  /** Without a pixel size the image gets a third of the room, rounded down. */
  lemma NLinesWithoutPixelSize(imgWidth: int, imgHeight: int, lineno: int, shape: Shape, ws: Option<WinSize>)
    requires CharPixelSize(ws) == Ok(None)
    ensures var r := DetermineNLines(imgWidth, imgHeight, lineno, shape, ws);
            r.Ok? && 3 * r.value <= MaxNLines(lineno, shape) < 3 * r.value + 3
  {
  }

  /** The fit never exceeds the room nor the cap, for an image of non-negative size;
      it fails exactly when the image has no height, or no width while too wide. */
  lemma FitLinesBounded(cw: real, ch: real, maxN: nat, width: int, cap: int)
    requires cw >= 0.0 && ch >= 0.0
    ensures var r := FitLines(cw, ch, maxN, width, cap);
            (r.Err? <==> ch == 0.0 || (cw == 0.0 && width < 0))
            && (r.Ok? ==> r.value <= maxN && r.value <= cap)
  {
    if ch != 0.0 && !((cw / ch) * (maxN as real) <= width as real) {
      if cw == 0.0 {
        assert (cw / ch) * (maxN as real) == 0.0;
      } else {
        FloorBelow(cw, ch, maxN, width);
      }
    } else if ch != 0.0 && cw == 0.0 {
      assert (cw / ch) * (maxN as real) == 0.0;
    }
  }

  /** With a pixel size the image never takes more than the room below it, nor
      more lines than its height in character cells. */
  lemma NLinesFit(imgWidth: int, imgHeight: int, lineno: int, shape: Shape, ws: Option<WinSize>)
    requires imgWidth >= 0 && imgHeight >= 0
    requires CharPixelSize(ws).Ok? && CharPixelSize(ws).value.Some?
    requires DetermineNLines(imgWidth, imgHeight, lineno, shape, ws).Ok?
    ensures var r := DetermineNLines(imgWidth, imgHeight, lineno, shape, ws).value;
            r <= MaxNLines(lineno, shape) && r <= imgHeight / CharPixelSize(ws).value.value.1
  {
    var (xp, yp) := CharPixelSize(ws).value.value;
    FitLinesBounded(imgWidth as real / xp as real, imgHeight as real / yp as real,
                    MaxNLines(lineno, shape), shape.width, imgHeight / yp);
  }

  /** When the image would be too wide at maxN lines, the narrower height is below maxN. */
  lemma FloorBelow(cw: real, ch: real, maxN: nat, width: int)
    requires cw > 0.0 && ch > 0.0
    requires (cw / ch) * (maxN as real) > width as real
    ensures ((ch / cw) * width as real).Floor <= maxN
  {
    var k := cw / ch;
    assert k > 0.0;
    assert ch / cw == 1.0 / k;
    assert (1.0 / k) * (width as real) < (1.0 / k) * (k * maxN as real);
    assert (1.0 / k) * (k * maxN as real) == maxN as real;
  }

  /** TextOutputChunk.place: the cleaned text, each of its lines wrapped to the
      window width when wrap_output is set. */
  function PlaceText(text: string, wrapOutput: bool, wrap: TextWrapper, shape: Shape): string
  {
    var cleaned := CleanupText(text);
    if !wrapOutput then cleaned
    else
      var lines := Split(cleaned, '\n');
      Join("\n", seq(|lines|, i requires 0 <= i < |lines| => Join("\n", wrap(lines[i], shape.width))))
  }

  /** Wrapping that leaves every line whole gives back the cleaned text. */
  lemma WrapKeepsShortLines(text: string, wrap: TextWrapper, shape: Shape)
    requires forall i :: 0 <= i < |Split(CleanupText(text), '\n')| ==>
               wrap(Split(CleanupText(text), '\n')[i], shape.width) == [Split(CleanupText(text), '\n')[i]]
    ensures PlaceText(text, true, wrap, shape) == CleanupText(text)
  {
    var lines := Split(CleanupText(text), '\n');
    var wrapped := seq(|lines|, i requires 0 <= i < |lines| => Join("\n", wrap(lines[i], shape.width)));
    assert wrapped == lines;
    JoinSplit(CleanupText(text), '\n');
  }

  /** OutputChunk.place, at line `lineno` of the output: a text chunk yields its
      placed text; an image chunk requests its image at (x, y + lineno + 1) with
      the window width and its line count, and yields that many newlines. */
  function Place(chunk: OutputChunk, wrapOutput: bool, wrap: TextWrapper, lineno: int, shape: Shape, ws: Option<WinSize>)
    : (r: Result<Placed>)
    ensures chunk.body.TextBody? ==> r == Ok(Placed(PlaceText(chunk.body.text, wrapOutput, wrap, shape), None))
    ensures chunk.body.ImageBody? ==> (r.Ok? <==> DetermineNLines(chunk.body.width, chunk.body.height, lineno, shape, ws).Ok?)
    ensures chunk.body.ImageBody? && r.Ok? ==>
              var n := DetermineNLines(chunk.body.width, chunk.body.height, lineno, shape, ws).value;
              r.value.request == Some(ImageRequest(chunk.body.path, chunk.body.checksum, shape.x, shape.y + lineno + 1, shape.width, n))
              && |r.value.text| == Max(0, n) && Count(r.value.text, "\n") == Max(0, n)
  {
    match chunk.body
    case TextBody(text) => Ok(Placed(PlaceText(text, wrapOutput, wrap, shape), None))
    case ImageBody(path, checksum, w, h) =>
      var n :- DetermineNLines(w, h, lineno, shape, ws);
      var text := Repeat('\n', Max(0, n) as nat);
      NewlinesCount(Max(0, n) as nat);
      Ok(Placed(text, Some(ImageRequest(path, checksum, shape.x, shape.y + lineno + 1, shape.width, n))))
  }

  /** "\n" * n holds n newlines. */
  lemma {:induction false} NewlinesCount(n: nat)
    ensures Count(Repeat('\n', n), "\n") == n
    decreases n
  {
    if n > 0 {
      NewlinesCount(n - 1);
      assert Repeat('\n', n)[1..] == Repeat('\n', n - 1);
      assert "\n" <= Repeat('\n', n);
    }
  }

  // ---------------------------------------------------------------------------
  // The output of one cell

  /** OutputStatus: HOLD = 0, RUNNING = 1, DONE = 2. */
  datatype OutputStatus = Hold | Running | Done
  {
    function Value(): nat
    {
      match this
      case Hold => 0
      case Running => 1
      case Done => 2
    }
  }

  /** OutputStatus(v): the member with value v, or ValueError. */
  function StatusFromValue(v: int): (r: Result<OutputStatus>)
    ensures r.Ok? <==> 0 <= v <= 2
    ensures r.Ok? ==> r.value.Value() == v
  {
    if v == 0 then Ok(Hold)
    else if v == 1 then Ok(Running)
    else if v == 2 then Ok(Done)
    else Err(ValueError(IntToString(v) + " is not a valid OutputStatus"))
  }

  /** Status values round-trip through OutputStatus(value). */
  lemma StatusValueRoundTrip(s: OutputStatus)
    ensures StatusFromValue(s.Value()) == Ok(s)
  {
  }

  /** The state of an Output, as a value. */
  datatype OutputRecord = OutputRecord(
    executionCount: Option<int>,
    chunks: seq<OutputChunk>,
    status: OutputStatus,
    success: bool,
    isOld: bool,
    shouldClear: bool)

  /** The state of Output(execution_count) when it is created. */
  function FreshRecord(executionCount: Option<int>): OutputRecord
  {
    OutputRecord(executionCount, [], Hold, true, false, false)
  }

  /** Output: the chunks, status and counters of one execution. */
  class Output {
    var executionCount: Option<int>
    var chunks: seq<OutputChunk>
    var status: OutputStatus
    var success: bool
    var isOld: bool
    var shouldClear: bool

    constructor (executionCount: Option<int>)
      ensures Record() == FreshRecord(executionCount)
    {
      this.executionCount := executionCount;
      status := Hold;
      chunks := [];
      success := true;
      isOld := false;
      shouldClear := false;
    }

    function Record(): OutputRecord
      reads this
    {
      OutputRecord(executionCount, chunks, status, success, isOld, shouldClear)
    }

    /** Makes the fields hold a given record. */
    method SetRecord(r: OutputRecord)
      modifies this
      ensures Record() == r
    {
      executionCount, chunks, status := r.executionCount, r.chunks, r.status;
      success, isOld, shouldClear := r.success, r.isOld, r.shouldClear;
    }
  }

  // ---------------------------------------------------------------------------
  // to_outputchunk

  /** The MIME types in the order they are tried. */
  const Priority: seq<string> := ["image/png", "image/svg+xml", "application/vnd.plotly.v1+json", "text/latex", "text/plain"]

  datatype Rendered =
    | ImportFailed
    | RenderedImage(path: string, checksum: string, width: int, height: int)
    | RenderRaised(what: string)

  /** What rendering one payload did: the files it allocated, and its result. */
  datatype RenderOutcome = RenderOutcome(files: seq<string>, rendered: Rendered)

  /** The image renderers: for an image MIME type and its payload, the outcome. */
  type Renderer = (string, Json) -> RenderOutcome

  /** The outcome of one tier. */
  datatype TierResult = TierSkipped | TierChunk(chunk: OutputChunk) | TierRaised(error: PyError)

  /** The processing function of a MIME type applied to its payload: plain text
      must be a str; every other type goes to the renderers. */
  function ProcessTier(mimetype: string, payload: Json, render: Renderer): (seq<string>, TierResult)
  {
    if mimetype == "text/plain" then
      if payload.JStr? then ([], TierChunk(TextLnChunk(payload.s)))
      else ([], TierRaised(TypeError("can only concatenate str to str")))
    else
      var out := render(mimetype, payload);
      match out.rendered
      case ImportFailed => (out.files, TierSkipped)
      case RenderedImage(p, c, w, h) => (out.files, TierChunk(ImageChunk(p, c, w, h)))
      case RenderRaised(what) => (out.files, TierRaised(RenderError(what)))
  }

  /** A chunk carrying the bundle it came from. */
  function Attach(c: OutputChunk, data: Json, metadata: Json): OutputChunk
  {
    c.(jupyterData := Some(data), jupyterMetadata := Some(metadata))
  }

  /** The chunk, or the exception, and every file allocated on the way. */
  datatype Conversion = Conversion(chunk: Result<OutputChunk>, files: seq<string>)

  /** dict.get(mimetype) is not None */
  predicate Present(entries: seq<(string, Json)>, mimetype: string)
  {
    Lookup(entries, mimetype).Some? && Lookup(entries, mimetype).value != JNull
  }

  /** The conversion from tier i on, after `prior` files. */
  function ResolveFrom(entries: seq<(string, Json)>, i: nat, data: Json, metadata: Json, render: Renderer,
                       prior: seq<string>): Conversion
    requires i <= |Priority|
    decreases |Priority| - i
  {
    if i == |Priority| then Conversion(Ok(Attach(BadChunk(Keys(entries)), data, metadata)), prior)
    else if !Present(entries, Priority[i]) then ResolveFrom(entries, i + 1, data, metadata, render, prior)
    else
      var (files, result) := ProcessTier(Priority[i], Lookup(entries, Priority[i]).value, render);
      match result
      case TierSkipped => ResolveFrom(entries, i + 1, data, metadata, render, prior + files)
      case TierChunk(c) => Conversion(Ok(Attach(c, data, metadata)), prior + files)
      case TierRaised(e) => Conversion(Err(e), prior + files)
  }

  /** to_outputchunk(alloc_file, data, metadata); data.get needs a dict. */
  function ResolveChunk(data: Json, metadata: Json, render: Renderer): Conversion
  {
    if !data.JObject? then Conversion(Err(AttributeError("object has no attribute 'get'")), [])
    else ResolveFrom(data.entries, 0, data, metadata, render, [])
  }

  /** to_outputchunk, as the loop over the priority table. */
  method ToOutputChunk(data: Json, metadata: Json, render: Renderer) returns (r: Conversion)
    ensures r == ResolveChunk(data, metadata, render)
  {
    if !data.JObject? {
      return Conversion(Err(AttributeError("object has no attribute 'get'")), []);
    }
    var entries := data.entries;
    var prior: seq<string> := [];
    var i := 0;
    while i < |Priority|
      invariant 0 <= i <= |Priority|
      invariant ResolveFrom(entries, i, data, metadata, render, prior) == ResolveChunk(data, metadata, render)
    {
      var maybeData := Lookup(entries, Priority[i]);
      if maybeData.Some? && maybeData.value != JNull {
        var (files, result) := ProcessTier(Priority[i], maybeData.value, render);
        prior := prior + files;
        match result {
          case TierChunk(c) =>
            return Conversion(Ok(Attach(c, data, metadata)), prior);
          case TierRaised(e) =>
            return Conversion(Err(e), prior);
          case TierSkipped =>
        }
      }
      i := i + 1;
    }
    r := Conversion(Ok(Attach(BadChunk(Keys(entries)), data, metadata)), prior);
  }

  /** Every chunk to_outputchunk returns carries the bundle it was given. */
  lemma {:induction false} ResolveCarriesBundle(entries: seq<(string, Json)>, i: nat, data: Json, metadata: Json,
                                                render: Renderer, prior: seq<string>)
    requires i <= |Priority|
    ensures var c := ResolveFrom(entries, i, data, metadata, render, prior).chunk;
            c.Ok? ==> c.value.jupyterData == Some(data) && c.value.jupyterMetadata == Some(metadata)
    decreases |Priority| - i
  {
    if i < |Priority| {
      ResolveCarriesBundle(entries, i + 1, data, metadata, render, prior);
      if Present(entries, Priority[i]) {
        var (files, _) := ProcessTier(Priority[i], Lookup(entries, Priority[i]).value, render);
        ResolveCarriesBundle(entries, i + 1, data, metadata, render, prior + files);
      }
    }
  }

  /** Files allocated earlier are kept, and new ones go after them. */
  lemma {:induction false} ResolveKeepsAllocations(entries: seq<(string, Json)>, i: nat, data: Json, metadata: Json,
                                                   render: Renderer, prior: seq<string>)
    requires i <= |Priority|
    ensures prior <= ResolveFrom(entries, i, data, metadata, render, prior).files
    decreases |Priority| - i
  {
    if i < |Priority| {
      ResolveKeepsAllocations(entries, i + 1, data, metadata, render, prior);
      if Present(entries, Priority[i]) {
        var (files, _) := ProcessTier(Priority[i], Lookup(entries, Priority[i]).value, render);
        ResolveKeepsAllocations(entries, i + 1, data, metadata, render, prior + files);
      }
    }
  }

  /** Tiers whose MIME type is absent or null are passed over. */
  lemma {:induction false} AbsentTiersSkipped(entries: seq<(string, Json)>, i: nat, j: nat, data: Json, metadata: Json,
                                              render: Renderer, prior: seq<string>)
    requires i <= j <= |Priority|
    requires forall k :: i <= k < j ==> !Present(entries, Priority[k])
    ensures ResolveFrom(entries, i, data, metadata, render, prior) == ResolveFrom(entries, j, data, metadata, render, prior)
    decreases j - i
  {
    if i < j {
      AbsentTiersSkipped(entries, i + 1, j, data, metadata, render, prior);
    }
  }

  /** A bundle with none of the five MIME types becomes a BadOutputChunk listing its keys. */
  lemma NoUsableMimetype(entries: seq<(string, Json)>, metadata: Json, render: Renderer)
    requires forall k :: 0 <= k < |Priority| ==> !Present(entries, Priority[k])
    ensures ResolveChunk(JObject(entries), metadata, render)
            == Conversion(Ok(Attach(BadChunk(Keys(entries)), JObject(entries), metadata)), [])
  {
    AbsentTiersSkipped(entries, 0, |Priority|, JObject(entries), metadata, render, []);
  }

  /** The first present MIME type decides, unless its renderer cannot be imported,
      in which case the next tiers are tried after the files it allocated. */
  lemma FirstPresentDecides(entries: seq<(string, Json)>, i: nat, metadata: Json, render: Renderer,
                            files: seq<string>, result: TierResult)
    requires i < |Priority| && Present(entries, Priority[i])
    requires forall k :: 0 <= k < i ==> !Present(entries, Priority[k])
    requires ProcessTier(Priority[i], Lookup(entries, Priority[i]).value, render) == (files, result)
    ensures result.TierChunk? ==> ResolveChunk(JObject(entries), metadata, render)
                                  == Conversion(Ok(Attach(result.chunk, JObject(entries), metadata)), files)
    ensures result.TierRaised? ==> ResolveChunk(JObject(entries), metadata, render)
                                   == Conversion(Err(result.error), files)
    ensures result.TierSkipped? ==> ResolveChunk(JObject(entries), metadata, render)
                                    == ResolveFrom(entries, i + 1, JObject(entries), metadata, render, files)
  {
    var data := JObject(entries);
    AbsentTiersSkipped(entries, 0, i, data, metadata, render, []);
    assert [] + files == files;
  }

  /** A bundle whose only usable entry is a text/plain str becomes that text plus a newline. */
  lemma PlainTextBundle(entries: seq<(string, Json)>, text: string, metadata: Json, render: Renderer)
    requires forall k :: 0 <= k < 4 ==> !Present(entries, Priority[k])
    requires Lookup(entries, "text/plain") == Some(JStr(text))
    ensures ResolveChunk(JObject(entries), metadata, render)
            == Conversion(Ok(Attach(TextLnChunk(text), JObject(entries), metadata)), [])
  {
    FirstPresentDecides(entries, 4, metadata, render, [], TierChunk(TextLnChunk(text)));
  }
}
