/**
 * The plugin object (__init__.py): the registry from editor buffer numbers to
 * their MagmaBuffer, one-time initialisation, the choice prompt, the
 * conversion of editor selections (1-based lines and columns, inclusive end)
 * to the 0-based, end-exclusive coordinates of a Span, and MagmaLoad's
 * version check and rollback.
 */
module Plugin {
  import opened Common
  import opened Json
  import PyStr
  import opened Utils
  import opened Options
  import Images
  import Runtime
  import OutputChunks
  import OutputLayout
  import Ledger
  import SaveIO

  // ---------------------------------------------------------------------------
  // _ask_for_choice

  /** The numbered lines "1. a", "2. b", ... for the options, numbering from `first`. */
  function Numbered(options: seq<string>, first: int): (r: seq<string>)
    ensures |r| == |options|
    decreases |options|
  {
    if |options| == 0 then []
    else [PyStr.IntToString(first) + ". " + options[0]] + Numbered(options[1..], first + 1)
  }

  /** Line i of the numbering is option i under the number first + i. */
  lemma {:induction false} NumberedAt(options: seq<string>, first: int, i: int)
    requires 0 <= i < |options|
    ensures Numbered(options, first)[i] == PyStr.IntToString(first + i) + ". " + options[i]
    decreases |options|
  {
    var rest := Numbered(options[1..], first + 1);
    assert Numbered(options, first) == [PyStr.IntToString(first) + ". " + options[0]] + rest;
    if i > 0 {
      NumberedAt(options[1..], first + 1, i - 1);
      assert Numbered(options, first)[i] == rest[i - 1];
      assert first + 1 + (i - 1) == first + i;
      assert options[1..][i - 1] == options[i];
    }
  }

  /** The list given to inputlist(): the preface, then one numbered line per option. */
  function PromptLines(preface: string, options: seq<string>): (r: seq<string>)
    ensures |r| == |options| + 1 && r[0] == preface
  {
    [preface] + Numbered(options, 1)
  }

  /** options[i] for a Python list: a negative index counts from the end. */
  function PyIndex(options: seq<string>, i: int): (r: Result<string>)
    ensures r.Ok? <==> -|options| <= i < |options|
    ensures 0 <= i < |options| ==> r == Ok(options[i])
    ensures -|options| <= i < 0 ==> r == Ok(options[|options| + i])
    ensures r.Err? ==> r.error == IndexError("list index out of range")
  {
    if 0 <= i < |options| then Ok(options[i])
    else if -|options| <= i < 0 then Ok(options[|options| + i])
    else Err(IndexError("list index out of range"))
  }

  /** _ask_for_choice as written, given the number inputlist() returned: 0 is no
      choice, anything else indexes the options at index - 1. inputlist() also
      returns a negative number for a click above the list and one more than the
      length of its list for a click on the prompt. */
  function AskForChoiceAsWritten(options: seq<string>, index: int): (r: Result<Option<string>>)
    ensures index == 0 ==> r == Ok(None)
    ensures 1 <= index <= |options| ==> r == Ok(Some(options[index - 1]))
    ensures index > |options| ==> r == Err(IndexError("list index out of range"))
    ensures index < 0 && -|options| <= index - 1 ==> r == Ok(Some(options[|options| + index - 1]))
    ensures index < 0 && index - 1 < -|options| ==> r == Err(IndexError("list index out of range"))
  {
    if index == 0 then Ok(None)
    else
      var o :- PyIndex(options, index - 1);
      Ok(Some(o))
  }

  /** A click one line above the prompt picks the second-to-last option, and a
      click on the prompt line of a two-option list raises. */
  lemma ChoiceAboveListPicksFromEnd()
    ensures AskForChoiceAsWritten(["python3", "julia", "ir"], -1) == Ok(Some("julia"))
    ensures AskForChoiceAsWritten(["python3", "julia"], 3).Err?
  {
  }

  /** _ask_for_choice answering only for a number of a listed option. */
  function AskForChoice(options: seq<string>, index: int): (r: Result<Option<string>>)
    ensures r.Ok?
    ensures r.value.Some? <==> 1 <= index <= |options|
  {
    if 1 <= index <= |options| then Ok(Some(options[index - 1])) else Ok(None)
  }

  /** The option chosen is the one on the prompt line whose number the user gave. */
  lemma ChoiceIsPromptLine(preface: string, options: seq<string>, index: int)
    requires AskForChoice(options, index).value.Some?
    ensures PromptLines(preface, options)[index]
            == PyStr.IntToString(index) + ". " + AskForChoice(options, index).value.value
  {
    NumberedAt(options, 1, index - 1);
  }

  // ---------------------------------------------------------------------------
  // Selections

  /** A mark as getpos() reports it: 1-based line and column. */
  datatype Mark = Mark(lineno: int, colno: int)

  /** The (line, col) pairs a span is built from: 0-based, the end column exclusive;
      a column of -1 stands for the end of its line. */
  datatype Selection = Selection(beginLine: int, beginCol: int, endLine: int, endCol: int)

  /** getline(lnum): the line, or "" for a line that does not exist. */
  function GetLine(doc: seq<string>, lnum: int): string
  {
    if 1 <= lnum <= |doc| then doc[lnum - 1] else ""
  }

  /** command_evaluate_visual: both columns are clipped to their line's length,
      the begin column moved to 0-based and the inclusive end column kept as the
      exclusive end. */
  function VisualSpan(doc: seq<string>, b: Mark, e: Mark): (s: Selection)
    ensures s.beginLine == b.lineno - 1 && s.endLine == e.lineno - 1
    ensures s.beginCol == PyStr.Min(b.colno, |GetLine(doc, b.lineno)|) - 1
    ensures s.endCol == PyStr.Min(e.colno, |GetLine(doc, e.lineno)|)
  {
    Selection(b.lineno - 1, PyStr.Min(b.colno, |GetLine(doc, b.lineno)|) - 1,
              e.lineno - 1, PyStr.Min(e.colno, |GetLine(doc, e.lineno)|))
  }

  /** function_magma_operatorfunc: no arguments does nothing; a linewise motion
      becomes the visual span from column 1 to column -1, a characterwise one
      keeps its marks, and any other kind is refused. */
  function OperatorSpan(args: seq<string>, doc: seq<string>, b: Mark, e: Mark): (r: Result<Option<Selection>>)
    ensures |args| == 0 ==> r == Ok(None)
    ensures |args| > 0 && args[0] == "line" ==> r == Ok(Some(VisualSpan(doc, Mark(b.lineno, 1), Mark(e.lineno, -1))))
    ensures |args| > 0 && args[0] == "char" ==> r == Ok(Some(VisualSpan(doc, b, e)))
    ensures |args| > 0 && args[0] != "line" && args[0] != "char"
            ==> r == Err(MagmaException("this kind of selection is not supported: '" + args[0] + "'"))
  {
    if |args| == 0 then Ok(None)
    else
      var kind := args[0];
      if kind == "line" then Ok(Some(VisualSpan(doc, Mark(b.lineno, 1), Mark(e.lineno, -1))))
      else if kind == "char" then Ok(Some(VisualSpan(doc, b, e)))
      else Err(MagmaException("this kind of selection is not supported: '" + kind + "'"))
  }

  /** command_evaluate_line: the 1-based cursor line, from column 0 to its end. */
  function LineSpan(cursorLine: int): Selection
  {
    Selection(cursorLine - 1, 0, cursorLine - 1, -1)
  }

  /** function_magma_define_cell: lines start..end (1-based, inclusive), whole. */
  function DefineCellSpan(start: int, end: int): Selection
  {
    Selection(start - 1, 0, end - 1, -1)
  }

  /** _do_evaluate_expr: an expression is attached to the empty span at the top. */
  const ArgumentSpan: Selection := Selection(0, 0, 0, 0)

  /** The span the two extmarks of a selection resolve to right after they are
      set, or the editor's refusal of the first mark it refuses. */
  function Placed(doc: seq<string>, bufno: int, s: Selection): (r: Result<Span<Position>>)
    ensures r.Ok? <==> SetExtmarkOutcome(doc, s.beginLine, s.beginCol, 0).Ok?
                       && SetExtmarkOutcome(doc, s.endLine, s.endCol, 0).Ok?
    ensures r.Ok? ==> r.value == Span(Position(bufno, s.beginLine, ExtmarkCol(doc, s.beginLine, s.beginCol)),
                                      Position(bufno, s.endLine, ExtmarkCol(doc, s.endLine, s.endCol)))
  {
    match SetExtmarkOutcome(doc, s.beginLine, s.beginCol, 0)
    case Err(e) => Err(e)
    case Ok(_) =>
      match SetExtmarkOutcome(doc, s.endLine, s.endCol, 0)
      case Err(e) => Err(e)
      case Ok(_) =>
        Ok(Span(Position(bufno, s.beginLine, ExtmarkCol(doc, s.beginLine, s.beginCol)),
                Position(bufno, s.endLine, ExtmarkCol(doc, s.endLine, s.endCol))))
  }

  /** _do_evaluate's code: the text of the span placed for the selection. */
  function SelectedText(doc: seq<string>, bufno: int, s: Selection): Result<string>
  {
    match Placed(doc, bufno, s)
    case Err(e) => Err(e)
    case Ok(span) => GetText(span, doc)
  }

  /** A span from column 0 of line bl to the end of line el holds those lines, whole. */
  lemma {:induction false} WholeLines(doc: seq<string>, bufno: int, bl: int, el: int)
    requires 0 <= bl <= el < |doc|
    ensures SelectedText(doc, bufno, Selection(bl, 0, el, -1)) == Ok(PyStr.Join("\n", doc[bl..el + 1]))
  {
    var span := Span(Position(bufno, bl, 0), Position(bufno, el, |doc[el]|));
    assert Placed(doc, bufno, Selection(bl, 0, el, -1)) == Ok(span);
    var lines := doc[bl..el + 1];
    assert BufGetLines(doc, bl, el + 1) == Ok(lines);
    if bl == el {
      assert PyStr.Slice(lines[0], 0, |doc[el]|) == doc[el][0..|doc[el]|] == doc[el];
    } else {
      assert PyStr.SliceFrom(lines[0], 0) == doc[bl][0..|doc[bl]|] == doc[bl];
      assert PyStr.SliceTo(lines[|lines| - 1], |doc[el]|) == doc[el][0..|doc[el]|] == doc[el];
      assert [doc[bl]] + lines[1..|lines| - 1] + [doc[el]] == lines;
    }
  }

  /** MagmaEvaluateLine runs the cursor line itself. */
  lemma LineRunsCursorLine(doc: seq<string>, bufno: int, cursorLine: int)
    requires 1 <= cursorLine <= |doc|
    ensures SelectedText(doc, bufno, LineSpan(cursorLine)) == Ok(doc[cursorLine - 1])
  {
    WholeLines(doc, bufno, cursorLine - 1, cursorLine - 1);
  }

  /** A cell defined over lines start..end (1-based, inclusive) spans those lines, whole. */
  lemma DefinedCellText(doc: seq<string>, bufno: int, start: int, end: int)
    requires 1 <= start <= end <= |doc|
    ensures SelectedText(doc, bufno, DefineCellSpan(start, end)) == Ok(PyStr.Join("\n", doc[start - 1..end]))
  {
    WholeLines(doc, bufno, start - 1, end - 1);
  }

  /** A linewise operator over lines l1..l2 runs those lines, whole, whatever the
      columns of its marks (an empty first line included). */
  lemma LinewiseOperatorRunsLines(args: seq<string>, doc: seq<string>, bufno: int, b: Mark, e: Mark)
    requires |args| > 0 && args[0] == "line"
    requires 1 <= b.lineno <= e.lineno <= |doc|
    ensures OperatorSpan(args, doc, b, e).Ok? && OperatorSpan(args, doc, b, e).value.Some?
    ensures SelectedText(doc, bufno, OperatorSpan(args, doc, b, e).value.value)
            == Ok(PyStr.Join("\n", doc[b.lineno - 1..e.lineno]))
  {
    var s := VisualSpan(doc, Mark(b.lineno, 1), Mark(e.lineno, -1));
    var bl, el := b.lineno - 1, e.lineno - 1;
    assert s.endCol == -1;
    assert Placed(doc, bufno, s) == Placed(doc, bufno, Selection(bl, 0, el, -1));
    WholeLines(doc, bufno, bl, el);
  }

  /** A visual selection within one line runs its characters from the begin
      column to the end column, both 1-based and inclusive, the end clipped to
      the line. */
  lemma VisualRunsSelectedChars(doc: seq<string>, bufno: int, b: Mark, e: Mark)
    requires 1 <= b.lineno == e.lineno <= |doc|
    requires 1 <= b.colno <= |doc[b.lineno - 1]| && b.colno <= e.colno
    ensures SelectedText(doc, bufno, VisualSpan(doc, b, e))
            == Ok(doc[b.lineno - 1][b.colno - 1..PyStr.Min(e.colno, |doc[b.lineno - 1]|)])
  {
    var l := b.lineno - 1;
    var s := VisualSpan(doc, b, e);
    var span := Span(Position(bufno, l, b.colno - 1), Position(bufno, l, PyStr.Min(e.colno, |doc[l]|)));
    assert Placed(doc, bufno, s) == Ok(span);
    GetTextOneLine(span, doc);
  }

  /** A visual selection over several lines runs the first line from the begin
      column, the lines between, and the last line up to the end column. */
  lemma VisualRunsSelectedLines(doc: seq<string>, bufno: int, b: Mark, e: Mark)
    requires 1 <= b.lineno < e.lineno <= |doc|
    requires 1 <= b.colno && 1 <= e.colno
    requires forall k, i :: 0 <= k < |doc| && 0 <= i < |doc[k]| ==> doc[k][i] != '\n'
    ensures SelectedText(doc, bufno, VisualSpan(doc, b, e)).Ok?
    ensures PyStr.Split(SelectedText(doc, bufno, VisualSpan(doc, b, e)).value, '\n')
            == SpanPieces(doc, b.lineno - 1, PyStr.Min(b.colno, |doc[b.lineno - 1]|) - 1,
                          e.lineno - 1, PyStr.Min(e.colno, |doc[e.lineno - 1]|))
  {
    var bl, el := b.lineno - 1, e.lineno - 1;
    var s := VisualSpan(doc, b, e);
    var span := Span(Position(bufno, bl, ExtmarkCol(doc, bl, s.beginCol)), Position(bufno, el, s.endCol));
    assert Placed(doc, bufno, s) == Ok(span);
    GetTextLines(span, doc);
    if |doc[bl]| == 0 {
      assert PyStr.SliceFrom(doc[bl], s.beginCol) == PyStr.SliceFrom(doc[bl], 0) == "";
    }
    assert SpanPieces(doc, bl, s.beginCol, el, s.endCol) == SpanPieces(doc, bl, span.begin.colno, el, s.endCol);
  }

  // ---------------------------------------------------------------------------
  // command_load's checks

  /** f"{version}" for an int instance: a bool prints as True or False. */
  function VersionText(v: Json): string
    requires IsInstance(v, IntType)
  {
    if v.JBool? then (if v.b then "True" else "False") else PyStr.IntToString(v.i)
  }

  /** The version and kernel checks of command_load: "version" must be an int
      equal to 1 and "kernel" a str, whose value is the kernel to start. */
  function LoadHeader(data: Json): (r: Result<string>)
    ensures r.Ok? <==> SaveIO.AssertHasKey(data, "version", Some(IntType)).Ok?
                       && IntValue(SaveIO.AssertHasKey(data, "version", Some(IntType)).value) == 1
                       && SaveIO.AssertHasKey(data, "kernel", Some(StrType)).Ok?
    ensures r.Ok? ==> r.value == SaveIO.AssertHasKey(data, "kernel", Some(StrType)).value.s
    ensures SaveIO.AssertHasKey(data, "version", Some(IntType)).Err?
            ==> r == Err(SaveIO.AssertHasKey(data, "version", Some(IntType)).error)
    ensures SaveIO.AssertHasKey(data, "version", Some(IntType)).Ok?
            && IntValue(SaveIO.AssertHasKey(data, "version", Some(IntType)).value) != 1
            ==> r == Err(MagmaIOError("Bad version: " + VersionText(SaveIO.AssertHasKey(data, "version", Some(IntType)).value)))
    ensures SaveIO.AssertHasKey(data, "version", Some(IntType)).Ok?
            && IntValue(SaveIO.AssertHasKey(data, "version", Some(IntType)).value) == 1
            && SaveIO.AssertHasKey(data, "kernel", Some(StrType)).Err?
            ==> r == Err(SaveIO.AssertHasKey(data, "kernel", Some(StrType)).error)
  {
    match SaveIO.AssertHasKey(data, "version", Some(IntType))
    case Err(e) => Err(e)
    case Ok(v) =>
      if IntValue(v) != 1 then Err(MagmaIOError("Bad version: " + VersionText(v)))
      else
        match SaveIO.AssertHasKey(data, "kernel", Some(StrType))
        case Err(e) => Err(e)
        case Ok(k) => Ok(k.s)
  }

  /** What save writes passes the checks, with the kernel it was saved from. */
  lemma SavedHeaderLoads(kernel: string, checksum: string, views: seq<(Span<Position>, OutputChunks.OutputRecord)>)
    ensures LoadHeader(SaveIO.SaveJson(kernel, checksum, views)) == Ok(kernel)
  {
    SaveIO.SaveFields(kernel, checksum, views);
  }

  /** Any other int version is refused with its value in the message; True passes
      for 1, since a bool is an int equal to 0 or 1. */
  lemma VersionOutcomes(n: int, kernel: string)
    ensures n != 1 ==> LoadHeader(JObject([("version", JInt(n)), ("kernel", JStr(kernel))]))
                       == Err(MagmaIOError("Bad version: " + PyStr.IntToString(n)))
    ensures LoadHeader(JObject([("version", JBool(true)), ("kernel", JStr(kernel))])) == Ok(kernel)
    ensures LoadHeader(JObject([("version", JBool(false)), ("kernel", JStr(kernel))]))
            == Err(MagmaIOError("Bad version: False"))
  {
    SaveIO.AssertHasKeyFound([("version", JInt(n)), ("kernel", JStr(kernel))], "version", IntType, JInt(n));
    SaveIO.AssertHasKeyFound([("version", JBool(true)), ("kernel", JStr(kernel))], "version", IntType, JBool(true));
    SaveIO.AssertHasKeyFound([("version", JBool(true)), ("kernel", JStr(kernel))], "kernel", StrType, JStr(kernel));
    var f := JObject([("version", JBool(false)), ("kernel", JStr(kernel))]);
    SaveIO.AssertHasKeyFound(f.entries, "version", IntType, JBool(false));
    assert VersionText(JBool(false)) == "False";
    assert "Bad version: " + "False" == "Bad version: False";
  }

  /** The exception command_load raises for one raised inside its try block: a
      MagmaIOError becomes a MagmaException, anything else passes through. */
  function Caught(e: PyError): (c: PyError)
    ensures c.MagmaException? <==> e.MagmaIOError? || e.MagmaException?
    ensures e.MagmaIOError? ==> c.message == "Error while doing Magma IO: " + e.message
    ensures !e.MagmaIOError? ==> c == e
  {
    if e.MagmaIOError? then MagmaException("Error while doing Magma IO: " + e.message) else e
  }

  const AlreadyInitialized: PyError := MagmaException("Magma is already initialized; MagmaLoad initializes Magma.")

  /** The file MagmaLoad reads: its argument, or the buffer's default save file. */
  function LoadPath(args: seq<string>, o: MagmaOptions, buftype: string, name: string): (r: Result<string>)
    ensures |args| > 0 ==> r == Ok(args[0])
    ensures |args| == 0 ==> r == SaveIO.GetDefaultSaveFile(o, buftype, name)
  {
    if |args| > 0 then Ok(args[0]) else SaveIO.GetDefaultSaveFile(o, buftype, name)
  }

  const KernelPromptText: string := "Select the kernel to launch:"

  /** The vim.ui.select call MagmaInit makes without an argument: the kernels as
      a Lua list of Python reprs, and the prompt. */
  datatype KernelSelect = KernelSelect(items: string, prompt: string)

  // ---------------------------------------------------------------------------
  // The plugin object

  /** What _initialize reads from the editor: the options from its globals, the
      process id the canvas runs under, and the ids nvim_create_namespace gives
      "magma-highlights" and "magma-extmarks". */
  datatype Setup = Setup(options: MagmaOptions, pid: int, highlightNs: int, extmarkNs: int)

  /** _get_magma's message for a buffer without an instance; the line
      continuation inside the literal keeps the next line's indentation. */
  const NotInitialized: PyError :=
    MagmaException("Magma is not initialized; run `:MagmaInit <kernel_name>` to " + "                " + "initialize.")

  class Magma {
    var initialized: bool
    var canvas: Option<Images.Canvas>
    /** The registry: editor buffer number to its MagmaBuffer. */
    var buffers: map<int, Ledger.MagmaBuffer>
    /** Unset until _initialize runs. */
    var options: Option<MagmaOptions>
    var highlightNamespace: int
    var extmarkNamespace: int

    function CanvasRepr(): set<object>
      reads this
    {
      if canvas.Some? then canvas.value.Repr() else {}
    }

    /** The runtimes of the registered instances. */
    function Runtimes(): set<object>
      reads this
    {
      set mb | mb in buffers.Values :: mb.runtime
    }

    /** Only an initialized plugin has a canvas, only a plugin with a canvas has
        instances, and each instance is valid, draws on that canvas and is
        registered under its own buffer's number. */
    ghost predicate Valid()
      reads this, buffers.Values, CanvasRepr()
    {
      (initialized <==> canvas.Some?) && (initialized ==> options.Some?)
      && (canvas.None? ==> buffers == map[])
      && (canvas.Some? ==> canvas.value.Valid())
      && forall b :: b in buffers ==>
           canvas.Some? && buffers[b].canvas == canvas.value && buffers[b].bufferNumber == b && buffers[b].Valid()
    }

    /** Magma.__init__ */
    constructor ()
      ensures Valid() && !initialized && canvas == None && buffers == map[] && options == None
    {
      initialized := false;
      canvas := None;
      buffers := map[];
      options := None;
    }

    /** _initialize: refuses a second run; otherwise reads the options, then the
        canvas for the configured image provider (an unknown provider raises and
        leaves the plugin uninitialized), then the namespaces. */
    method Initialize(setup: Setup) returns (r: Result<()>)
      requires Valid()
      modifies this
      ensures Valid() && buffers == old(buffers)
      ensures old(initialized) ==> r == Err(AssertionError) && unchanged(this)
      ensures !old(initialized) ==> options == Some(setup.options)
      ensures !old(initialized) ==> (r.Ok? <==> Images.ProviderOutcome(setup.options.imageProvider).Ok?)
      ensures !old(initialized) && r.Err? ==> r.error == Images.ProviderOutcome(setup.options.imageProvider).error
                                              && !initialized
      ensures !old(initialized) && r.Ok? ==>
                initialized && fresh(CanvasRepr())
                && canvas.value.State() == Images.ProviderOutcome(setup.options.imageProvider).value
                && highlightNamespace == setup.highlightNs && extmarkNamespace == setup.extmarkNs
    {
      if initialized {
        r := Err(AssertionError);
        return;
      }
      options := Some(setup.options);
      var c := Images.GetCanvasGivenProvider(setup.options.imageProvider, setup.pid);
      if c.Err? {
        r := Err(c.error);
        return;
      }
      canvas := Some(c.value);
      highlightNamespace := setup.highlightNs;
      extmarkNamespace := setup.extmarkNs;
      initialized := true;
      r := Ok(());
    }

    /** _initialize_if_necessary: _initialize runs only while the plugin is not
        initialized, so it never raises its assertion. */
    method InitializeIfNecessary(setup: Setup) returns (r: Result<()>)
      requires Valid()
      modifies this
      ensures Valid() && buffers == old(buffers)
      ensures old(initialized) ==> r.Ok? && unchanged(this)
      ensures !old(initialized) ==> options == Some(setup.options)
      ensures !old(initialized) ==> (r.Ok? <==> initialized) && (r.Ok? <==> Images.ProviderOutcome(setup.options.imageProvider).Ok?)
      ensures !old(initialized) && r.Err? ==> r.error == Images.ProviderOutcome(setup.options.imageProvider).error
      ensures !old(initialized) && r.Ok? ==>
                fresh(CanvasRepr()) && canvas.value.State() == Images.ProviderOutcome(setup.options.imageProvider).value
                && highlightNamespace == setup.highlightNs && extmarkNamespace == setup.extmarkNs
    {
      if initialized {
        r := Ok(());
      } else {
        r := Initialize(setup);
      }
    }

    /** _get_magma for the current buffer: the registered instance, if any; when
        one is required its absence raises. */
    function GetMagma(bufno: int, requiresInstance: bool): (r: Result<Option<Ledger.MagmaBuffer>>)
      reads this
      ensures r.Err? <==> requiresInstance && bufno !in buffers
      ensures r.Err? ==> r.error == NotInitialized
      ensures r.Ok? ==> (r.value.Some? <==> bufno in buffers)
      ensures r.Ok? && r.value.Some? ==> r.value.value == buffers[bufno]
    {
      if bufno in buffers then Ok(Some(buffers[bufno]))
      else if requiresInstance then Err(NotInitialized)
      else Ok(None)
    }

    /** _initialize_buffer for the current buffer: a new instance for the kernel
        on the plugin's canvas, registered under the buffer's number in place of
        any earlier one. The assertion on the canvas raises before initialisation. */
    method InitializeBuffer(kernelName: string, bufno: int, displayBuffer: int) returns (r: Result<Ledger.MagmaBuffer>)
      requires Valid()
      modifies this
      ensures Valid()
      ensures r.Ok? <==> old(canvas).Some?
      ensures r.Err? ==> r.error == AssertionError && unchanged(this)
      ensures r.Ok? ==> fresh(r.value) && fresh(r.value.runtime) && buffers == old(buffers)[bufno := r.value]
      ensures r.Ok? ==> r.value.runtime.kernelName == kernelName && r.value.runtime.state == Runtime.Starting
                        && r.value.runtime.files == [] && r.value.outputs == []
                        && r.value.bufferNumber == bufno && r.value.displayBuffer == displayBuffer
                        && r.value.extmarkNamespace == extmarkNamespace && Some(r.value.options) == options
      ensures r.Ok? ==> r.value.autocmds == ["MagmaInitPre", "MagmaInitPost"] && r.value.runtime.requests == []
      ensures (initialized, canvas, options, highlightNamespace, extmarkNamespace)
              == old((initialized, canvas, options, highlightNamespace, extmarkNamespace))
    {
      if canvas.None? {
        r := Err(AssertionError);
        return;
      }
      var mb := new Ledger.MagmaBuffer(canvas.value, extmarkNamespace, options.value, bufno, displayBuffer, kernelName);
      buffers := buffers[bufno := mb];
      r := Ok(mb);
    }

    /** _deinit_buffer: the instance is deinitialised, then its buffer's entry is
        deleted (KeyError when it is not registered). */
    method DeinitBuffer(mb: Ledger.MagmaBuffer, existing: set<string>) returns (r: Result<()>, remaining: set<string>)
      requires Valid()
      modifies this, mb, mb.runtime
      ensures Valid()
      ensures remaining == existing - (set f | f in mb.runtime.files)
      ensures mb.autocmds == old(mb.autocmds) + ["MagmaDeinitPre", "MagmaDeinitPost"]
      ensures mb.runtime.requests == old(mb.runtime.requests) + (if mb.runtime.externalKernel then [] else [Runtime.ShutdownKernel])
      ensures mb.runtime.files == old(mb.runtime.files)
      ensures r.Ok? <==> mb.bufferNumber in old(buffers)
      ensures r.Ok? ==> buffers == old(buffers) - {mb.bufferNumber}
      ensures r.Err? ==> r.error == KeyError(PyStr.IntToString(mb.bufferNumber)) && buffers == old(buffers)
      ensures mb.outputs == old(mb.outputs)
      ensures (initialized, canvas, options, highlightNamespace, extmarkNamespace)
              == old((initialized, canvas, options, highlightNamespace, extmarkNamespace))
    {
      remaining := mb.Deinit(existing);
      forall b' | b' in buffers
        ensures buffers[b'].Valid()
      {
        if buffers[b'] != mb {
          assert buffers[b'].outputs == old(buffers[b'].outputs);
        }
      }
      if mb.bufferNumber in buffers {
        ghost var before := buffers;
        buffers := buffers - {mb.bufferNumber};
        assert forall b' | b' in buffers :: b' in before && buffers[b'] == before[b'];
        r := Ok(());
      } else {
        r := Err(KeyError(PyStr.IntToString(mb.bufferNumber)));
      }
    }
  
    /** The state _initialize leaves from a setup: the options read, and the
        plugin initialized exactly when the image provider is known. */
    ghost predicate InitializedFrom(setup: Setup)
      reads this, CanvasRepr()
    {
      options == Some(setup.options)
      && (initialized <==> Images.ProviderOutcome(setup.options.imageProvider).Ok?)
      && (initialized ==> canvas.Some? && canvas.value.State() == Images.ProviderOutcome(setup.options.imageProvider).value
                          && highlightNamespace == setup.highlightNs && extmarkNamespace == setup.extmarkNs)
    }

    /** The opening of every command that needs an instance: _initialize_if_necessary,
        then _get_magma(True). A plugin initialized only now has no instance yet. */
    method Prepare(setup: Setup, bufno: int) returns (r: Result<Ledger.MagmaBuffer>)
      requires Valid()
      modifies this
      ensures Valid() && buffers == old(buffers)
      ensures old(initialized) ==> unchanged(this)
      ensures !old(initialized) ==> InitializedFrom(setup) && fresh(CanvasRepr())
      ensures r.Ok? <==> old(initialized) && bufno in old(buffers)
      ensures r.Ok? ==> r.value == buffers[bufno]
      ensures r.Err? ==> r.error == if !old(initialized) && Images.ProviderOutcome(setup.options.imageProvider).Err?
                                    then Images.ProviderOutcome(setup.options.imageProvider).error
                                    else NotInitialized
    {
      var i := InitializeIfNecessary(setup);
      if i.Err? {
        r := Err(i.error);
        return;
      }
      var m := GetMagma(bufno, true);
      if m.Err? {
        r := Err(m.error);
        return;
      }
      r := Ok(m.value.value);
    }

    /** _do_evaluate on the current buffer: the selection's two marks are set and
        the text between them is run by the buffer's instance under their span. */
    method DoEvaluate(setup: Setup, sel: Selection, table: AnchorTable, ed: Ledger.Editor, close: CallOutcome,
                      newWindow: int)
      returns (r: Result<()>, span: Option<Ledger.CellSpan>, newOutput: OutputChunks.Output?)
      requires Valid() && table.Valid()
      modifies this, table, buffers.Values, Runtimes(), CanvasRepr()
      ensures Valid() && table.Valid() && buffers == old(buffers) && SaveIO.Extends(old(table.marks), table.marks)
      ensures newOutput != null <==> span.Some?
      ensures !old(initialized) ==> r.Err? && InitializedFrom(setup) && span.None?
      ensures old(initialized) && ed.currentBuffer !in old(buffers) ==> r == Err(NotInitialized) && span.None?
      ensures old(initialized) && ed.currentBuffer in old(buffers) ==>
                var mb := old(buffers)[ed.currentBuffer];
                var code := SelectedText(ed.doc, ed.currentBuffer, sel);
                (code.Err? ==> r == Err(code.error) && span.None?
                               && mb.runtime.requests == old(mb.runtime.requests) && mb.outputs == old(mb.outputs))
                && (code.Ok? ==> span.Some? && fresh(newOutput) && newOutput.Record() == OutputChunks.FreshRecord(None)
                                 && ResolveSpan(table.marks, span.value) == Placed(ed.doc, ed.currentBuffer, sel)
                                 && mb.runtime.requests == old(mb.runtime.requests) + [Runtime.Execute(code.value)]
                                 && mb.outputs == Ledger.Replace(old(mb.outputs), span.value, Ledger.OutputEntry(newOutput)))
    {
      span, newOutput := None, null;
      var m := Prepare(setup, ed.currentBuffer);
      if m.Err? {
        r := Err(m.error);
        return;
      }
      var mb := m.value;
      var placed := Place(table, ed.doc, extmarkNamespace, ed.currentBuffer, sel);
      if placed.Err? {
        r := Err(placed.error);
        return;
      }
      var code := GetTextDynamic(table.marks, placed.value, ed.doc);
      if code.Err? {
        r := Err(code.error);
        return;
      }
      var o;
      o, r := Run(mb, ed.currentBuffer, code.value, placed.value, ed.(marks := table.marks), close, newWindow);
      span, newOutput := Some(placed.value), o;
    }

    /** MagmaEvaluateArgument: exactly one argument, run as code under the empty
        span at the top of the current buffer. */
    method EvaluateArgument(setup: Setup, args: seq<string>, table: AnchorTable, ed: Ledger.Editor, close: CallOutcome,
                            newWindow: int)
      returns (r: Result<()>, span: Option<Ledger.CellSpan>, newOutput: OutputChunks.Output?)
      requires Valid() && table.Valid()
      modifies this, table, buffers.Values, Runtimes(), CanvasRepr()
      ensures Valid() && table.Valid() && buffers == old(buffers) && SaveIO.Extends(old(table.marks), table.marks)
      ensures newOutput != null <==> span.Some?
      ensures |args| != 1 ==> r == Err(AssertionError) && span.None? && unchanged(this) && unchanged(table)
      ensures !old(initialized) ==> r.Err? && span.None?
      ensures old(initialized) && ed.currentBuffer !in old(buffers) ==> r.Err? && span.None?
      ensures |args| == 1 && old(initialized) && ed.currentBuffer in old(buffers) ==>
                var mb := old(buffers)[ed.currentBuffer];
                span.Some? && fresh(newOutput) && newOutput.Record() == OutputChunks.FreshRecord(None)
                && ResolveSpan(table.marks, span.value) == Ok(Span(Position(ed.currentBuffer, 0, 0), Position(ed.currentBuffer, 0, 0)))
                && mb.runtime.requests == old(mb.runtime.requests) + [Runtime.Execute(args[0])]
                && mb.outputs == Ledger.Replace(old(mb.outputs), span.value, Ledger.OutputEntry(newOutput))
    {
      span, newOutput := None, null;
      if |args| != 1 {
        r := Err(AssertionError);
        return;
      }
      var m := Prepare(setup, ed.currentBuffer);
      if m.Err? {
        r := Err(m.error);
        return;
      }
      var mb := m.value;
      var placed := Place(table, ed.doc, extmarkNamespace, ed.currentBuffer, ArgumentSpan);
      match placed
      case Err(e) =>
        r := Err(e);
      case Ok(s) =>
        var o;
        o, r := Run(mb, ed.currentBuffer, args[0], s, ed.(marks := table.marks), close, newWindow);
        span, newOutput := Some(s), o;
    }

    /** MagmaDefineCell start end: no arguments does nothing; otherwise lines
        start..end of the current buffer become a cell holding a new, empty
        OutputBuffer of the buffer's instance. */
    method DefineCell(setup: Setup, args: seq<int>, table: AnchorTable, ed: Ledger.Editor, displayBuffer: int)
      returns (r: Result<()>, span: Option<Ledger.CellSpan>, ob: OutputLayout.OutputBuffer?)
      requires Valid() && table.Valid()
      modifies this, table, buffers.Values
      ensures Valid() && table.Valid() && buffers == old(buffers) && SaveIO.Extends(old(table.marks), table.marks)
      ensures ob != null <==> span.Some?
      ensures |args| == 0 ==> r.Ok? && span.None? && unchanged(this) && unchanged(table)
      ensures |args| > 0 && !old(initialized) ==> r.Err? && span.None?
      ensures |args| > 0 && old(initialized) && ed.currentBuffer !in old(buffers) ==> r == Err(NotInitialized) && span.None?
      ensures 0 < |args| < 2 && old(initialized) && ed.currentBuffer in old(buffers)
              ==> r == Err(IndexError("list index out of range")) && span.None?
      ensures |args| >= 2 && old(initialized) && ed.currentBuffer in old(buffers) ==>
                var mb := old(buffers)[ed.currentBuffer];
                var placed := Placed(ed.doc, ed.currentBuffer, DefineCellSpan(args[0], args[1]));
                (placed.Err? ==> r == Err(placed.error) && span.None? && mb.outputs == old(mb.outputs))
                && (placed.Ok? ==> r.Ok? && span.Some? && ResolveSpan(table.marks, span.value) == placed
                                   && fresh(ob) && fresh(ob.output) && ob.output.Record() == OutputChunks.FreshRecord(None)
                                   && ob.displayWindow == None && ob.displayBuffer == displayBuffer
                                   && mb.outputs == Ledger.Assign(old(mb.outputs), span.value, Ledger.BufferEntry(ob)))
    {
      span, ob := None, null;
      if |args| == 0 {
        r := Ok(());
        return;
      }
      var m := Prepare(setup, ed.currentBuffer);
      if m.Err? {
        r := Err(m.error);
        return;
      }
      var mb := m.value;
      if |args| < 2 {
        r := Err(IndexError("list index out of range"));
        return;
      }
      var placed := Place(table, ed.doc, extmarkNamespace, ed.currentBuffer, DefineCellSpan(args[0], args[1]));
      if placed.Err? {
        r := Err(placed.error);
        return;
      }
      var o := StoreCell(mb, ed.currentBuffer, placed.value, displayBuffer);
      r, span, ob := Ok(()), Some(placed.value), o;
    }

    /** `magma.outputs[span] = OutputBuffer(...)` on a registered instance. */
    method StoreCell(mb: Ledger.MagmaBuffer, bufno: int, span: Ledger.CellSpan, displayBuffer: int)
      returns (ob: OutputLayout.OutputBuffer)
      requires Valid() && bufno in buffers && buffers[bufno] == mb
      modifies mb
      ensures Valid()
      ensures fresh(ob) && fresh(ob.output) && ob.output.Record() == OutputChunks.FreshRecord(None)
      ensures ob.displayWindow == None && ob.displayBuffer == displayBuffer
      ensures mb.outputs == Ledger.Assign(old(mb.outputs), span, Ledger.BufferEntry(ob))
    {
      ob := new OutputLayout.OutputBuffer(mb.canvas, options.value, displayBuffer);
      Ledger.AssignDistinct(mb.outputs, span, Ledger.BufferEntry(ob));
      mb.outputs := Ledger.Assign(mb.outputs, span, Ledger.BufferEntry(ob));
      forall b' | b' in buffers
        ensures buffers[b'].Valid()
      {
        if buffers[b'] != mb {
          assert buffers[b'].outputs == old(buffers[b'].outputs);
        }
      }
    }

    /** MagmaInit: with an argument, an instance for that kernel; without one, the
        kernels are offered through vim.ui.select when the editor has it (which
        runs MagmaInit again on a choice), or else through the numbered prompt. */
    method CommandInit(setup: Setup, args: seq<string>, kernels: seq<string>, hasUiSelect: bool, choice: int,
                       bufno: int, displayBuffer: int)
      returns (r: Result<()>, select: Option<KernelSelect>)
      requires Valid()
      modifies this
      ensures Valid()
      ensures !old(initialized) && Images.ProviderOutcome(setup.options.imageProvider).Err?
              ==> r == Err(Images.ProviderOutcome(setup.options.imageProvider).error) && buffers == old(buffers)
      ensures old(initialized) || Images.ProviderOutcome(setup.options.imageProvider).Ok? ==>
                r.Ok? &&
                var kernel := if |args| > 0 then Some(args[0])
                              else if hasUiSelect then None
                              else AskForChoice(kernels, choice).value;
                (kernel.None? ==> buffers == old(buffers))
                && (kernel.Some? ==> bufno in buffers && fresh(buffers[bufno]) && buffers == old(buffers)[bufno := buffers[bufno]]
                                     && buffers[bufno].runtime.kernelName == kernel.value)
      ensures select.Some? <==> r.Ok? && |args| == 0 && hasUiSelect
      ensures select.Some? ==> select.value == KernelSelect(PyStr.Join(", ", PyStr.ReprStrs(kernels)), KernelPromptText)
    {
      select := None;
      r := InitializeIfNecessary(setup);
      if r.Err? {
        return;
      }
      var kernel: Option<string>;
      if |args| > 0 {
        kernel := Some(args[0]);
      } else if hasUiSelect {
        select := Some(KernelSelect(PyStr.Join(", ", PyStr.ReprStrs(kernels)), KernelPromptText));
        kernel := None;
      } else {
        kernel := AskForChoice(kernels, choice).value;
      }
      if kernel.Some? {
        var mb := InitializeBuffer(kernel.value, bufno, displayBuffer);
        match mb
        case Ok(_) =>
        case Err(_) =>
          assert false;
      }
    }

    /** The try block of command_load, once the file is read: the version and kernel
        checks, a new instance for the kernel, load into it with its outputs
        attached, and the interface update. A MagmaIOError raised on the way
        deinitialises and unregisters the instance, if one was made, and becomes a
        MagmaException; any other exception passes through and leaves it
        registered. `spec` is the load of `data` on values. */
    method LoadFrom(data: Json, bufno: int, digest: SaveIO.Digest, table: AnchorTable, ed: Ledger.Editor,
                    render: OutputChunks.Renderer, displayBuffer: int, displayBuffers: nat -> int, close: CallOutcome, newWindow: int,
                    existing: set<string>)
      returns (r: Result<()>, remaining: set<string>, mb: Ledger.MagmaBuffer?, ghost ioError: Option<PyError>,
               ghost spec: SaveIO.Loading, ghost added: seq<Ledger.Cell>)
      requires Valid() && table.Valid() && initialized && bufno !in buffers
      modifies this, table, CanvasRepr()
      ensures Valid() && table.Valid() && initialized
      ensures ioError.Some? ==> ioError.value.MagmaIOError? && r == Err(Caught(ioError.value)) && buffers == old(buffers)
      ensures ioError.None? && mb != null ==> buffers == old(buffers)[bufno := mb]
      ensures ioError.None? && r.Err? ==> !r.error.MagmaIOError?
      ensures mb != null <==> LoadHeader(data).Ok?
      ensures LoadHeader(data).Err? ==> r == Err(Caught(LoadHeader(data).error)) && unchanged(table)
                                        && (ioError.Some? <==> LoadHeader(data).error.MagmaIOError?)
                                        && buffers == old(buffers) && remaining == existing
      ensures mb != null ==> fresh(mb) && mb.runtime.kernelName == LoadHeader(data).value && mb.bufferNumber == bufno
      ensures (initialized, canvas, options) == old((initialized, canvas, options))
      ensures mb != null ==> spec == SaveIO.LoadSpec(data, SaveIO.Checksum(digest, ed.doc), ed.doc, render)
      ensures mb != null && spec.error.Some? && spec.error.value.MagmaIOError? ==> ioError == spec.error
      ensures mb != null && spec.error.Some? && !spec.error.value.MagmaIOError? ==> r == Err(spec.error.value) && ioError.None?
      ensures mb != null && r.Ok? ==> spec.error.None?
      ensures mb != null ==> mb.outputs == SaveIO.AssignAll([], added)
                             && SaveIO.Anchors(added, spec.cells, table.marks, bufno, ed.doc)
                             && mb.runtime.files == spec.files
      ensures mb != null && ioError.Some? ==> mb.autocmds == ["MagmaInitPre", "MagmaInitPost", "MagmaDeinitPre", "MagmaDeinitPost"]
                                              && mb.runtime.requests == (if mb.runtime.externalKernel then [] else [Runtime.ShutdownKernel])
                                              && remaining == existing - (set f | f in mb.runtime.files)
      ensures mb != null && ioError.None? ==> mb.autocmds == ["MagmaInitPre", "MagmaInitPost"] && mb.runtime.requests == []
                                              && remaining == existing
    {
      ioError, spec, mb, added, remaining := None, SaveIO.Loading([], [], None), null, [], existing;
      var header := LoadHeader(data);
      if header.Err? {
        r := Err(Caught(header.error));
        if header.error.MagmaIOError? {
          ioError := Some(header.error);
        }
        return;
      }
      var instance;
      r, remaining, instance, ioError, spec, added := Launch(header.value, bufno, data, digest, table, ed, render, displayBuffer,
                                                             displayBuffers, close, newWindow, existing);
      mb := instance;
    }

    /** From the new instance on, in command_load's try block: _initialize_buffer
        for the kernel, load and the interface update (Settle). */
    method Launch(kernel: string, bufno: int, data: Json, digest: SaveIO.Digest, table: AnchorTable, ed: Ledger.Editor,
                  render: OutputChunks.Renderer, displayBuffer: int, displayBuffers: nat -> int, close: CallOutcome,
                  newWindow: int, existing: set<string>)
      returns (r: Result<()>, remaining: set<string>, mb: Ledger.MagmaBuffer, ghost ioError: Option<PyError>,
               ghost spec: SaveIO.Loading, ghost added: seq<Ledger.Cell>)
      requires Valid() && table.Valid() && initialized && bufno !in buffers
      modifies this, table, CanvasRepr()
      ensures Valid() && table.Valid() && initialized
      ensures (initialized, canvas, options) == old((initialized, canvas, options))
      ensures fresh(mb) && mb.runtime.kernelName == kernel && mb.bufferNumber == bufno
      ensures ioError.Some? ==> ioError.value.MagmaIOError? && r == Err(Caught(ioError.value)) && buffers == old(buffers)
      ensures ioError.None? ==> buffers == old(buffers)[bufno := mb]
      ensures ioError.None? && r.Err? ==> !r.error.MagmaIOError?
      ensures spec == SaveIO.LoadSpec(data, SaveIO.Checksum(digest, ed.doc), ed.doc, render)
      ensures spec.error.Some? && spec.error.value.MagmaIOError? ==> ioError == spec.error
      ensures spec.error.Some? && !spec.error.value.MagmaIOError? ==> r == Err(spec.error.value) && ioError.None?
      ensures r.Ok? ==> spec.error.None?
      ensures mb.outputs == SaveIO.AssignAll([], added) && SaveIO.Anchors(added, spec.cells, table.marks, bufno, ed.doc)
              && mb.runtime.files == spec.files
      ensures ioError.Some? ==> mb.autocmds == ["MagmaInitPre", "MagmaInitPost", "MagmaDeinitPre", "MagmaDeinitPost"]
                                && mb.runtime.requests == (if mb.runtime.externalKernel then [] else [Runtime.ShutdownKernel])
                                && remaining == existing - (set f | f in mb.runtime.files)
      ensures ioError.None? ==> mb.autocmds == ["MagmaInitPre", "MagmaInitPost"] && mb.runtime.requests == []
                                && remaining == existing
    {
      var m := InitializeBuffer(kernel, bufno, displayBuffer);
      match m
      case Err(_) =>
        assert false;
      case Ok(instance) =>
        mb := instance;
        Unregistered(old(buffers), bufno, mb);
        r, remaining, ioError, spec, added := Settle(mb, bufno, data, digest, table, ed, render, displayBuffers, close, newWindow, existing);
    }

    /** What follows the new instance in command_load: the load with its outputs
        attached, the interface update when it succeeds, and on a MagmaIOError the
        instance deinitialised (its two autocommands, the kernel shutdown and the
        removal of its files from `existing`) and unregistered. */
    method Settle(mb: Ledger.MagmaBuffer, bufno: int, data: Json, digest: SaveIO.Digest, table: AnchorTable,
                  ed: Ledger.Editor, render: OutputChunks.Renderer, displayBuffers: nat -> int, close: CallOutcome,
                  newWindow: int, existing: set<string>)
      returns (r: Result<()>, remaining: set<string>, ghost ioError: Option<PyError>, ghost spec: SaveIO.Loading,
               ghost added: seq<Ledger.Cell>)
      requires Valid() && table.Valid() && bufno in buffers && buffers[bufno] == mb && mb.outputs == []
      modifies this, mb, mb.runtime, table, CanvasRepr()
      ensures Valid() && table.Valid()
      ensures (initialized, canvas, options) == old((initialized, canvas, options))
      ensures ioError.Some? ==> ioError.value.MagmaIOError? && r == Err(Caught(ioError.value))
                                && buffers == old(buffers) - {bufno}
      ensures ioError.None? ==> buffers == old(buffers)
      ensures ioError.None? && r.Err? ==> !r.error.MagmaIOError?
      ensures spec == SaveIO.LoadSpec(data, SaveIO.Checksum(digest, ed.doc), ed.doc, render)
      ensures mb.outputs == SaveIO.AssignAll([], added)
      ensures SaveIO.Anchors(added, spec.cells, table.marks, bufno, ed.doc)
      ensures spec.error.Some? && spec.error.value.MagmaIOError? ==> ioError == spec.error
      ensures spec.error.Some? && !spec.error.value.MagmaIOError? ==> r == Err(spec.error.value) && ioError.None?
      ensures r.Ok? ==> spec.error.None?
      ensures mb.runtime.files == old(mb.runtime.files) + spec.files
      ensures ioError.Some? ==> mb.autocmds == old(mb.autocmds) + ["MagmaDeinitPre", "MagmaDeinitPost"]
                                && mb.runtime.requests == old(mb.runtime.requests)
                                                          + (if mb.runtime.externalKernel then [] else [Runtime.ShutdownKernel])
                                && remaining == existing - (set f | f in mb.runtime.files)
      ensures ioError.None? ==> mb.autocmds == old(mb.autocmds) && mb.runtime.requests == old(mb.runtime.requests)
                                && remaining == existing
    {
      ioError, remaining := None, existing;
      assert mb.bufferNumber == bufno;
      var l;
      l, spec, added := Attach(mb, bufno, data, digest, table, ed.doc, render, displayBuffers);
      if l.Ok? {
        l := UpdateInstance(mb, bufno, ed.(marks := table.marks), close, newWindow);
      }
      if l.Err? && l.error.MagmaIOError? {
        ioError := Some(l.error);
        var deinit;
        deinit, remaining := DeinitBuffer(mb, existing);
        r := Err(Caught(l.error));
      } else {
        r := l;
      }
    }

    /** load(magma, data) on a registered instance, its outputs attached; the other
        instances keep their state. `spec` is the load on values. */
    method Attach(mb: Ledger.MagmaBuffer, bufno: int, data: Json, digest: SaveIO.Digest, table: AnchorTable,
                  doc: seq<string>, render: OutputChunks.Renderer, displayBuffers: nat -> int)
      returns (r: Result<()>, ghost spec: SaveIO.Loading, ghost added: seq<Ledger.Cell>)
      requires Valid() && table.Valid() && bufno in buffers && buffers[bufno] == mb
      modifies mb, mb.runtime, table
      ensures Valid() && table.Valid()
      ensures spec == SaveIO.LoadSpec(data, SaveIO.Checksum(digest, doc), doc, render)
      ensures r.Ok? <==> spec.error.None?
      ensures r.Err? ==> r.error == spec.error.value
      ensures mb.outputs == SaveIO.AssignAll(old(mb.outputs), added)
      ensures SaveIO.Anchors(added, spec.cells, table.marks, mb.bufferNumber, doc)
      ensures SaveIO.Outputs(added, spec.cells, true)
      ensures mb.autocmds == old(mb.autocmds) && mb.runtime.requests == old(mb.runtime.requests)
              && mb.runtime.files == old(mb.runtime.files) + spec.files
    {
      ghost var loaded;
      spec := SaveIO.LoadSpec(data, SaveIO.Checksum(digest, doc), doc, render);
      r, added, loaded := SaveIO.LoadAttached(mb, data, digest, table, doc, render, displayBuffers);
      forall b' | b' in buffers
        ensures buffers[b'].Valid()
      {
        if buffers[b'] != mb {
          assert buffers[b'].outputs == old(buffers[b'].outputs);
        }
      }
    }

    /** _update_interface once the current buffer's instance is known; the other
        instances keep their state. */
    method UpdateInstance(mb: Ledger.MagmaBuffer, bufno: int, ed: Ledger.Editor, close: CallOutcome, newWindow: int)
      returns (r: Result<()>)
      requires Valid() && bufno in buffers && buffers[bufno] == mb
      modifies mb, CanvasRepr()
      ensures Valid() && mb.outputs == old(mb.outputs)
      ensures mb.autocmds == old(mb.autocmds) && mb.runtime.requests == old(mb.runtime.requests)
              && mb.runtime.files == old(mb.runtime.files)
    {
      r := UpdateOne(mb, ed, close, newWindow);
      forall b' | b' in buffers
        ensures buffers[b'].Valid()
      {
        if buffers[b'] != mb {
          assert buffers[b'].outputs == old(buffers[b'].outputs);
        }
      }
    }

    /** MagmaLoad: _initialize_if_necessary, the file to read, the refusal of a
        buffer that already has an instance, the read, and then the checked load:
        a bad header raises before any instance is made, and a MagmaIOError from the
        load or the update deinitialises and unregisters the new instance. `spec` is
        the load of the data read on values. */
    method CommandLoad(setup: Setup, args: seq<string>, buftype: string, name: string, read: string -> Result<Json>,
                       digest: SaveIO.Digest, table: AnchorTable, ed: Ledger.Editor, render: OutputChunks.Renderer,
                       displayBuffer: int, displayBuffers: nat -> int, close: CallOutcome, newWindow: int,
                       existing: set<string>)
      returns (r: Result<()>, remaining: set<string>, data: Option<Json>, mb: Ledger.MagmaBuffer?,
               ghost ioError: Option<PyError>, ghost spec: SaveIO.Loading, ghost added: seq<Ledger.Cell>)
      requires Valid() && table.Valid()
      modifies this, table, CanvasRepr()
      ensures Valid() && table.Valid()
      ensures !old(initialized) && Images.ProviderOutcome(setup.options.imageProvider).Err?
              ==> r == Err(Images.ProviderOutcome(setup.options.imageProvider).error) && data.None?
      ensures data.None? ==> buffers == old(buffers) && mb == null && r.Err?
      ensures initialized && LoadPath(args, options.value, buftype, name).Err?
              ==> r == Err(LoadPath(args, options.value, buftype, name).error) && data.None?
      ensures initialized && LoadPath(args, options.value, buftype, name).Ok? && ed.currentBuffer in old(buffers)
              ==> r == Err(AlreadyInitialized) && data.None?
      ensures initialized && LoadPath(args, options.value, buftype, name).Ok? && ed.currentBuffer !in old(buffers)
              ==> data == (var d := read(LoadPath(args, options.value, buftype, name).value); if d.Ok? then Some(d.value) else None)
                  && (data.None? ==> r == Err(read(LoadPath(args, options.value, buftype, name).value).error))
      ensures data.Some? ==> initialized && ed.currentBuffer !in old(buffers)
      ensures mb != null <==> data.Some? && LoadHeader(data.value).Ok?
      ensures mb != null ==> fresh(mb) && mb.runtime.kernelName == LoadHeader(data.value).value
                             && mb.bufferNumber == ed.currentBuffer
      ensures ioError.Some? ==> ioError.value.MagmaIOError? && r == Err(Caught(ioError.value)) && buffers == old(buffers)
      ensures ioError.None? && mb != null ==> buffers == old(buffers)[ed.currentBuffer := mb]
      ensures data.Some? && ioError.None? && r.Err? ==> !r.error.MagmaIOError?
      ensures data.None? ==> remaining == existing
      ensures data.Some? && LoadHeader(data.value).Err?
              ==> r == Err(Caught(LoadHeader(data.value).error)) && remaining == existing
                  && (ioError.Some? <==> LoadHeader(data.value).error.MagmaIOError?)
      ensures mb != null ==> spec == SaveIO.LoadSpec(data.value, SaveIO.Checksum(digest, ed.doc), ed.doc, render)
      ensures mb != null && spec.error.Some? && spec.error.value.MagmaIOError? ==> ioError == spec.error
      ensures mb != null && spec.error.Some? && !spec.error.value.MagmaIOError? ==> r == Err(spec.error.value) && ioError.None?
      ensures mb != null && r.Ok? ==> spec.error.None?
      ensures mb != null ==> mb.outputs == SaveIO.AssignAll([], added)
                             && SaveIO.Anchors(added, spec.cells, table.marks, ed.currentBuffer, ed.doc)
                             && mb.runtime.files == spec.files
      ensures mb != null && ioError.Some? ==> mb.autocmds == ["MagmaInitPre", "MagmaInitPost", "MagmaDeinitPre", "MagmaDeinitPost"]
                                              && mb.runtime.requests == (if mb.runtime.externalKernel then [] else [Runtime.ShutdownKernel])
                                              && remaining == existing - (set f | f in mb.runtime.files)
      ensures mb != null && ioError.None? ==> mb.autocmds == ["MagmaInitPre", "MagmaInitPost"] && mb.runtime.requests == []
                                              && remaining == existing
    {
      data, mb, ioError, spec, added, remaining := None, null, None, SaveIO.Loading([], [], None), [], existing;
      r := InitializeIfNecessary(setup);
      if r.Err? {
        return;
      }
      var path := LoadPath(args, options.value, buftype, name);
      if path.Err? {
        r := Err(path.error);
        return;
      }
      if ed.currentBuffer in buffers {
        r := Err(AlreadyInitialized);
        return;
      }
      var d := read(path.value);
      if d.Err? {
        r := Err(d.error);
        return;
      }
      data := Some(d.value);
      r, remaining, mb, ioError, spec, added := LoadFrom(d.value, ed.currentBuffer, digest, table, ed, render, displayBuffer,
                                                displayBuffers, close, newWindow, existing);
    }

    /** MagmaOnBufferUnload: the instance of the unloaded buffer, if it has one, is
        deinitialised and unregistered. */
    method OnBufferUnload(abuf: Option<int>, existing: set<string>) returns (r: Result<()>, remaining: set<string>)
      requires Valid()
      modifies this, buffers.Values, Runtimes()
      ensures Valid() && r.Ok?
      ensures abuf.Some? && abuf.value in old(buffers) ==> buffers == old(buffers) - {abuf.value}
      ensures abuf.Some? && abuf.value in old(buffers) ==>
                var mb := old(buffers)[abuf.value];
                mb.autocmds == old(mb.autocmds) + ["MagmaDeinitPre", "MagmaDeinitPost"]
                && mb.runtime.requests == old(mb.runtime.requests) + (if mb.runtime.externalKernel then [] else [Runtime.ShutdownKernel])
                && remaining == existing - (set f | f in mb.runtime.files)
                && mb.runtime.files == old(mb.runtime.files) && mb.outputs == old(mb.outputs)
      ensures abuf.Some? && abuf.value in old(buffers) ==>
                forall b | b in old(buffers) && b != abuf.value :: unchanged(old(buffers)[b])
      ensures !(abuf.Some? && abuf.value in old(buffers)) ==>
                buffers == old(buffers) && remaining == existing && unchanged(this) && unchanged(old(buffers).Values)
                && unchanged(old(Runtimes()))
    {
      remaining := existing;
      if abuf.None? || abuf.value !in buffers {
        r := Ok(());
        return;
      }
      var mb := buffers[abuf.value];
      assert mb.bufferNumber == abuf.value;
      r, remaining := DeinitBuffer(mb, existing);
    }

    /** run_code on a registered instance (with the new Output it needs); the other
        instances keep their state, so the registry stays valid. */
    method Run(mb: Ledger.MagmaBuffer, bufno: int, code: string, span: Ledger.CellSpan, ed: Ledger.Editor,
               close: CallOutcome, newWindow: int)
      returns (newOutput: OutputChunks.Output, r: Result<()>)
      requires Valid() && bufno in buffers && buffers[bufno] == mb
      modifies mb, mb.runtime, CanvasRepr()
      ensures Valid() && fresh(newOutput) && newOutput.Record() == OutputChunks.FreshRecord(None)
      ensures mb.runtime.requests == old(mb.runtime.requests) + [Runtime.Execute(code)]
      ensures mb.outputs == Ledger.Replace(old(mb.outputs), span, Ledger.OutputEntry(newOutput))
    {
      newOutput, r := RunInstance(mb, code, span, ed, close, newWindow);
      forall b' | b' in buffers
        ensures buffers[b'].Valid()
      {
        if buffers[b'] != mb {
          assert buffers[b'].outputs == old(buffers[b'].outputs);
        }
      }
    }
  }

  /** Registering an instance under a new buffer number and unregistering it again
      gives back the registry. */
  lemma Unregistered<V>(m: map<int, V>, k: int, v: V)
    requires k !in m
    ensures (m[k := v]) - {k} == m
  {
  }

  /** The two DynamicPositions of a selection, in the editor's extmarks: a mark the
      editor refuses raises, and the span of the marks resolves to Placed. */
  method Place(table: AnchorTable, doc: seq<string>, ns: int, bufno: int, s: Selection)
    returns (r: Result<Ledger.CellSpan>)
    requires table.Valid()
    modifies table
    ensures table.Valid() && SaveIO.Extends(old(table.marks), table.marks)
    ensures r.Ok? <==> Placed(doc, bufno, s).Ok?
    ensures r.Err? ==> r.error == Placed(doc, bufno, s).error
    ensures r.Ok? ==> ResolveSpan(table.marks, r.value) == Placed(doc, bufno, s)
                      && r.value.begin.namespace == ns && r.value.end.namespace == ns
    ensures r.Ok? ==> r.value.begin.Key() !in old(table.marks) && r.value.end.Key() !in old(table.marks)
  {
    var b := NewDynamicPosition(table, doc, ns, bufno, s.beginLine, s.beginCol);
    if b.Err? {
      r := Err(b.error);
      return;
    }
    var e := NewDynamicPosition(table, doc, ns, bufno, s.endLine, s.endCol);
    if e.Err? {
      r := Err(e.error);
      return;
    }
    r := Ok(Span(b.value, e.value));
  }

  /** run_code on one instance, with the facts about it the registry needs; the
      interface update it ends with is stated by Ledger.MagmaBuffer.RunCodeFixed. */
  method RunInstance(mb: Ledger.MagmaBuffer, code: string, span: Ledger.CellSpan, ed: Ledger.Editor, close: CallOutcome,
                     newWindow: int)
    returns (newOutput: OutputChunks.Output, r: Result<()>)
    requires mb.Valid()
    modifies mb, mb.runtime, mb.canvas.Repr()
    ensures mb.Valid() && fresh(newOutput) && newOutput.Record() == OutputChunks.FreshRecord(None)
    ensures mb.runtime.requests == old(mb.runtime.requests) + [Runtime.Execute(code)]
    ensures mb.outputs == Ledger.Replace(old(mb.outputs), span, Ledger.OutputEntry(newOutput))
  {
    newOutput, r := mb.RunCodeFixed(code, span, ed, close, newWindow);
  }

  /** update_interface on one instance; its effect is stated by
      Ledger.MagmaBuffer.UpdateInterface. */
  method UpdateOne(mb: Ledger.MagmaBuffer, ed: Ledger.Editor, close: CallOutcome, newWindow: int) returns (r: Result<()>)
    requires mb.Valid()
    modifies mb, mb.canvas.Repr()
    ensures mb.Valid() && mb.outputs == old(mb.outputs)
    ensures mb.queuedOutputs == old(mb.queuedOutputs) && mb.currentOutput == old(mb.currentOutput)
    ensures mb.autocmds == old(mb.autocmds) && mb.runtime.requests == old(mb.runtime.requests)
            && mb.runtime.files == old(mb.runtime.files)
  {
    r := mb.UpdateInterface(ed, close, newWindow);
  }
}
