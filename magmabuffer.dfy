/**
 * The execution ledger of one editor buffer (magma/magmabuffer.py): the cells
 * run so far, in the insertion order of a Python dict; the FIFO of outputs
 * waiting for the kernel and the single output being filled; the selected cell
 * and the flags that decide whether its output window is shown.
 *
 * The editor is seen through an Editor value per call: the current buffer and
 * the buffer of the current window, the cursor as getcurpos reports it, the
 * extmark table that dynamic positions are read from, the window's geometry,
 * and the document's lines.
 */
module Ledger {
  import opened Common
  import PyStr
  import opened Utils
  import opened Options
  import opened OutputChunks
  import Images
  import Runtime
  import opened OutputLayout

  /** Spans are built from dynamic positions, each with its own extmark. */
  type CellSpan = Span<DynamicPosition>

  /** What the outputs dict holds for a span. run_code stores what
      runtime.run_code returns (an Output, or None); io.load and the
      plugin's define-cell command store an OutputBuffer. */
  datatype CellEntry = OutputEntry(output: Output?) | BufferEntry(buffer: OutputBuffer)

  datatype Cell = Cell(span: CellSpan, entry: CellEntry)

  // ---------------------------------------------------------------------------
  // The outputs dict: keys in insertion order

  function Spans(d: seq<Cell>): (r: seq<CellSpan>)
    ensures |r| == |d| && forall i :: 0 <= i < |d| ==> r[i] == d[i].span
  {
    if |d| == 0 then [] else [d[0].span] + Spans(d[1..])
  }

  /** A dict has each key once. */
  predicate DistinctSpans(d: seq<Cell>)
  {
    forall i, j :: 0 <= i < j < |d| ==> d[i].span != d[j].span
  }

  /** d.get(k) */
  function Lookup(d: seq<Cell>, k: CellSpan): (r: Option<CellEntry>)
    ensures r.Some? <==> k in Spans(d)
    ensures r.Some? ==> Cell(k, r.value) in d
  {
    if |d| == 0 then None
    else if d[0].span == k then Some(d[0].entry)
    else
      Lookup(d[1..], k)
  }

  /** del d[k]: the cells with other keys, in their order. */
  function Remove(d: seq<Cell>, k: CellSpan): (r: seq<Cell>)
    ensures forall i :: 0 <= i < |r| ==> r[i] in d && r[i].span != k
    ensures forall i :: 0 <= i < |d| && d[i].span != k ==> d[i] in r
  {
    if |d| == 0 then []
    else if d[0].span == k then Remove(d[1..], k)
    else [d[0]] + Remove(d[1..], k)
  }

  /** d[k] = v: an existing key keeps its place, a new one is appended. */
  function Assign(d: seq<Cell>, k: CellSpan, v: CellEntry): seq<Cell>
  {
    if |d| == 0 then [Cell(k, v)]
    else if d[0].span == k then [Cell(k, v)] + d[1..]
    else [d[0]] + Assign(d[1..], k, v)
  }

  /** `if k in d: del d[k]`, then d[k] = v, as run_code does. */
  function Replace(d: seq<Cell>, k: CellSpan, v: CellEntry): seq<Cell>
  {
    Assign(Remove(d, k), k, v)
  }

  lemma {:induction false} SpansAppend(a: seq<Cell>, b: seq<Cell>)
    ensures Spans(a + b) == Spans(a) + Spans(b)
  {
  }

  /** Deleting a key forgets exactly that key. */
  lemma {:induction false} RemoveLookup(d: seq<Cell>, k: CellSpan, k': CellSpan)
    requires DistinctSpans(d)
    ensures DistinctSpans(Remove(d, k))
    ensures Lookup(Remove(d, k), k') == if k' == k then None else Lookup(d, k')
  {
    RemoveDistinct(d, k);
    if |d| > 0 {
      RemoveLookup(d[1..], k, k');
      var r := Remove(d[1..], k);
      if d[0].span != k {
        assert Remove(d, k) == [d[0]] + r;
        if d[0].span == k' {
          assert Lookup(Remove(d, k), k') == Some(d[0].entry);
        } else {
          assert ([d[0]] + r)[1..] == r;
        }
      }
    }
  }

  /** Deleting a key keeps the keys distinct. */
  lemma {:induction false} RemoveDistinct(d: seq<Cell>, k: CellSpan)
    requires DistinctSpans(d)
    ensures DistinctSpans(Remove(d, k))
  {
    if |d| > 0 {
      RemoveDistinct(d[1..], k);
      var r := Remove(d[1..], k);
      if d[0].span != k {
        assert Remove(d, k) == [d[0]] + r;
        forall j | 0 <= j < |r|
          ensures r[j].span != d[0].span
        {
          assert r[j] in d[1..];
        }
      }
    }
  }

  /** Deleting a key that is not there changes nothing. */
  lemma {:induction false} RemoveAbsent(d: seq<Cell>, k: CellSpan)
    requires k !in Spans(d)
    ensures Remove(d, k) == d
  {
    if |d| > 0 {
      assert Spans(d) == [d[0].span] + Spans(d[1..]);
      RemoveAbsent(d[1..], k);
      assert d == [d[0]] + d[1..];
    }
  }

  lemma {:induction false} RemoveConcat(a: seq<Cell>, b: seq<Cell>, k: CellSpan)
    ensures Remove(a + b, k) == Remove(a, k) + Remove(b, k)
  {
    if |a| == 0 {
      assert a + b == b;
    } else {
      assert (a + b)[0] == a[0];
      assert (a + b)[1..] == a[1..] + b;
      RemoveConcat(a[1..], b, k);
      if a[0].span != k {
        assert [a[0]] + (Remove(a[1..], k) + Remove(b, k)) == ([a[0]] + Remove(a[1..], k)) + Remove(b, k);
      }
    }
  }

  /** Deleting a key from the middle keeps the cells before and after it, in order. */
  lemma RemoveSplit(a: seq<Cell>, c: Cell, b: seq<Cell>)
    requires c.span !in Spans(a) && c.span !in Spans(b)
    ensures Remove(a + [c] + b, c.span) == a + b
  {
    var k := c.span;
    assert Remove([c], k) == [] by {
      assert [c][1..] == [];
    }
    calc {
      Remove(a + [c] + b, k);
      { RemoveConcat(a + [c], b, k); }
      Remove(a + [c], k) + Remove(b, k);
      { RemoveConcat(a, [c], k); }
      Remove(a, k) + Remove([c], k) + Remove(b, k);
      { RemoveAbsent(a, k); RemoveAbsent(b, k); }
      a + [] + b;
      { assert a + [] == a; }
      a + b;
    }
  }

  /** Setting a key that is not there appends it. */
  lemma {:induction false} AssignAbsent(d: seq<Cell>, k: CellSpan, v: CellEntry)
    requires k !in Spans(d)
    ensures Assign(d, k, v) == d + [Cell(k, v)]
  {
    if |d| > 0 {
      assert Spans(d) == [d[0].span] + Spans(d[1..]);
      AssignAbsent(d[1..], k, v);
      assert d + [Cell(k, v)] == [d[0]] + (d[1..] + [Cell(k, v)]);
    }
  }

  /** Setting a key that is there keeps every key in its place. */
  lemma {:induction false} AssignPresent(d: seq<Cell>, k: CellSpan, v: CellEntry)
    requires k in Spans(d)
    ensures Spans(Assign(d, k, v)) == Spans(d)
  {
    assert Spans(d) == [d[0].span] + Spans(d[1..]);
    if d[0].span != k {
      AssignPresent(d[1..], k, v);
      assert Spans([d[0]] + Assign(d[1..], k, v)) == [d[0].span] + Spans(Assign(d[1..], k, v));
    } else {
      assert Spans([Cell(k, v)] + d[1..]) == [k] + Spans(d[1..]);
    }
  }

  /** run_code's update: the span moves to the end of the insertion order with
      its new entry, and the other cells keep theirs, in order. */
  lemma ReplaceMovesLast(d: seq<Cell>, k: CellSpan, v: CellEntry)
    requires DistinctSpans(d)
    ensures Replace(d, k, v) == Remove(d, k) + [Cell(k, v)]
    ensures DistinctSpans(Replace(d, k, v))
    ensures forall k' :: Lookup(Replace(d, k, v), k') == if k' == k then Some(v) else Lookup(d, k')
  {
    var r := Remove(d, k);
    RemoveLookup(d, k, k);
    AssignAbsent(r, k, v);
    forall k' ensures Lookup(Replace(d, k, v), k') == if k' == k then Some(v) else Lookup(d, k')
    {
      RemoveLookup(d, k, k');
      LookupAppend(r, Cell(k, v), k');
    }
    forall i | 0 <= i < |r|
      ensures r[i].span != k
    {
      assert r[i] in r;
    }
  }

  /** Replacing keeps each span once. */
  lemma ReplaceDistinct(d: seq<Cell>, k: CellSpan, v: CellEntry)
    requires DistinctSpans(d)
    ensures DistinctSpans(Replace(d, k, v))
  {
    ReplaceMovesLast(d, k, v);
  }


  /** d[k] = v keeps each span once. */
  lemma AssignDistinct(d: seq<Cell>, k: CellSpan, v: CellEntry)
    requires DistinctSpans(d)
    ensures DistinctSpans(Assign(d, k, v))
  {
    var a := Assign(d, k, v);
    if k in Spans(d) {
      AssignPresent(d, k, v);
      forall i, j | 0 <= i < j < |a|
        ensures a[i].span != a[j].span
      {
        assert Spans(a)[i] == a[i].span && Spans(a)[j] == a[j].span;
        assert Spans(d)[i] == d[i].span && Spans(d)[j] == d[j].span;
      }
    } else {
      AssignAbsent(d, k, v);
      forall i | 0 <= i < |d|
        ensures d[i].span != k
      {
        assert Spans(d)[i] == d[i].span;
      }
    }
  }

  lemma {:induction false} LookupAppend(d: seq<Cell>, c: Cell, k: CellSpan)
    requires c.span !in Spans(d)
    ensures Lookup(d + [c], k) == if k in Spans(d) then Lookup(d, k) else if k == c.span then Some(c.entry) else None
  {
    assert Spans(d + [c]) == Spans(d) + [c.span];
    if |d| > 0 {
      assert Spans(d) == [d[0].span] + Spans(d[1..]);
      assert (d + [c])[1..] == d[1..] + [c];
      LookupAppend(d[1..], c, k);
    } else {
      assert d + [c] == [c];
    }
  }

  /** A cell with a span already present moves to the end when run again. */
  lemma ReplaceSplit(a: seq<Cell>, c: Cell, b: seq<Cell>, v: CellEntry)
    requires c.span !in Spans(a) && c.span !in Spans(b)
    ensures Replace(a + [c] + b, c.span, v) == a + b + [Cell(c.span, v)]
  {
    RemoveSplit(a, c, b);
    SpansAppend(a, b);
    AssignAbsent(a + b, c.span, v);
  }

  // ---------------------------------------------------------------------------
  // _get_selected_span

  /** _get_cursor_position: getcurpos is 1-based, positions are 0-based. */
  function CursorPosition(currentBuffer: int, line: int, col: int): (p: Position)
    ensures p.lineno + 1 == line && p.colno + 1 == col && p.bufno == currentBuffer
  {
    Position(currentBuffer, line - 1, col - 1)
  }

  /** The span found by scanning the keys from the most recent one: the first that
      contains the position, or None; reading an extmark that is gone raises. */
  function SelectFrom(d: seq<Cell>, marks: map<MarkKey, (int, int)>, pos: Position): Result<Option<CellSpan>>
  {
    if |d| == 0 then Ok(None)
    else
      var last := d[|d| - 1];
      var inside :- ContainsDynamic(marks, last.span, pos);
      if inside then Ok(Some(last.span)) else SelectFrom(d[..|d| - 1], marks, pos)
  }

  /** No cell after index `i` contains the position. */
  predicate MissesAfter(d: seq<Cell>, marks: map<MarkKey, (int, int)>, pos: Position, i: int)
  {
    forall j :: 0 <= j < |d| && i < j ==> ContainsDynamic(marks, d[j].span, pos) == Ok(false)
  }

  /** The selection is the most recently inserted span containing the position;
      None means that no span contains it; an error is the first one met. */
  lemma {:induction false} SelectMostRecent(d: seq<Cell>, marks: map<MarkKey, (int, int)>, pos: Position)
    ensures SelectFrom(d, marks, pos) == Ok(None) <==> MissesAfter(d, marks, pos, -1)
    ensures var r := SelectFrom(d, marks, pos);
            r.Ok? && r.value.Some? ==>
              exists i :: 0 <= i < |d| && d[i].span == r.value.value
                          && ContainsDynamic(marks, d[i].span, pos) == Ok(true) && MissesAfter(d, marks, pos, i)
    ensures var r := SelectFrom(d, marks, pos);
            r.Err? ==>
              exists i :: 0 <= i < |d| && ContainsDynamic(marks, d[i].span, pos) == Err(r.error)
                          && MissesAfter(d, marks, pos, i)
  {
    if |d| > 0 {
      var n := |d| - 1;
      var front := d[..n];
      SelectMostRecent(front, marks, pos);
      var c := ContainsDynamic(marks, d[n].span, pos);
      assert forall j :: 0 <= j < n ==> front[j] == d[j];
      if c == Ok(false) {
        assert MissesAfter(d, marks, pos, -1) <==> MissesAfter(front, marks, pos, -1);
        var r := SelectFrom(front, marks, pos);
        if r.Ok? && r.value.Some? {
          var i :| 0 <= i < |front| && front[i].span == r.value.value
                   && ContainsDynamic(marks, front[i].span, pos) == Ok(true) && MissesAfter(front, marks, pos, i);
          assert MissesAfter(d, marks, pos, i);
        }
        if r.Err? {
          var i :| 0 <= i < |front| && ContainsDynamic(marks, front[i].span, pos) == Err(r.error)
                   && MissesAfter(front, marks, pos, i);
          assert MissesAfter(d, marks, pos, i);
        }
      } else {
        assert !MissesAfter(d, marks, pos, -1);
        assert MissesAfter(d, marks, pos, n);
      }
    }
  }

  /** With every extmark live, the selection never raises, and it agrees with
      span membership on the marks' coordinates. */
  lemma {:induction false} SelectLive(d: seq<Cell>, marks: map<MarkKey, (int, int)>, pos: Position)
    requires forall i :: 0 <= i < |d| ==> ResolveSpan(marks, d[i].span).Ok?
    ensures SelectFrom(d, marks, pos).Ok?
    ensures var r := SelectFrom(d, marks, pos);
            r.Ok? && r.value.Some? ==>
              ResolveSpan(marks, r.value.value).Ok? && Contains(ResolveSpan(marks, r.value.value).value, pos)
  {
    if |d| > 0 {
      var n := |d| - 1;
      ContainsDynamicAgrees(marks, d[n].span, pos);
      assert forall i :: 0 <= i < n ==> d[..n][i] == d[i];
      SelectLive(d[..n], marks, pos);
    }
  }

  // ---------------------------------------------------------------------------
  // _check_if_done_running

  /** The promotion rule: when the current output is None or DONE, the head of the
      queue becomes current. */
  function Promote(current: Output?, idle: bool, queue: seq<Output?>): (r: (Output?, seq<Output?>))
    ensures idle && |queue| > 0 ==> r.0 == queue[0] && [r.0] + r.1 == queue
    ensures !(idle && |queue| > 0) ==> r == (current, queue)
  {
    if idle && |queue| > 0 then (queue[0], queue[1..]) else (current, queue)
  }

  /** The outputs made current by successive calls, the ith call seeing an idle
      current output iff idles[i], and the queue left. */
  function PromoteMany(current: Output?, idles: seq<bool>, queue: seq<Output?>): (seq<Output?>, seq<Output?>)
    decreases |idles|
  {
    if |idles| == 0 then ([], queue)
    else
      var (c, q) := Promote(current, idles[0], queue);
      var (served, rest) := PromoteMany(c, idles[1..], q);
      (if |q| < |queue| then [c] + served else served, rest)
  }

  /** Outputs are made current in queue order, at most one per call. */
  lemma {:induction false} PromotionIsFifo(current: Output?, idles: seq<bool>, queue: seq<Output?>)
    decreases |idles|
    ensures PromoteMany(current, idles, queue).0 + PromoteMany(current, idles, queue).1 == queue
    ensures |PromoteMany(current, idles, queue).0| <= |idles|
  {
    if |idles| > 0 {
      var (c, q) := Promote(current, idles[0], queue);
      PromotionIsFifo(c, idles[1..], q);
      var (served, rest) := PromoteMany(c, idles[1..], q);
      assert PromoteMany(current, idles, queue) == (if |q| < |queue| then [c] + served else served, rest);
      if |q| < |queue| {
        assert [c] + served + rest == [c] + (served + rest);
      }
    }
  }

  // ---------------------------------------------------------------------------
  // clear_interface and update_interface, on values

  /** The editor as one call sees it, with the text wrapper and the terminal size
      that placing output chunks reads. */
  datatype Editor = Editor(
    currentBuffer: int,
    windowBuffer: int,
    cursorLine: int,
    cursorCol: int,
    marks: map<MarkKey, (int, int)>,
    view: View,
    doc: seq<string>,
    wrap: TextWrapper,
    winSize: Option<WinSize>)

  /** The interface fields of a MagmaBuffer, with the lines of its display buffer. */
  datatype UiState = UiState(displayWindow: Option<int>, selectedCell: Option<CellSpan>,
                             shouldOpen: bool, updating: bool, displayLines: seq<string>)

  datatype UiStep = UiStep(ui: UiState, canvas: Images.CanvasState, result: Result<()>)

  /** The Output object an entry holds, if any. */
  function EntryOutput(entry: Option<CellEntry>): set<Output>
  {
    if entry.Some? && entry.value.OutputEntry? && entry.value.output != null then {entry.value.output} else {}
  }

  /** No Output object belongs to a canvas, so drawing leaves every record alone. */
  lemma OutputsOffCanvas(c: Images.Canvas, s: set<Output>)
    ensures s !! c.Repr()
  {
  }

  /** What _show_outputs finds under a span: no entry, an OutputBuffer, None, or
      an Output, given by its record. */
  datatype Shelf = NoEntry | BufferShelf | NoneShelf | RecordShelf(rec: OutputRecord)

  /** What an entry holds, read from its Output object. */
  function ShelfOf(entry: Option<CellEntry>): Shelf
    reads EntryOutput(entry)
  {
    if entry.None? then NoEntry
    else if entry.value.BufferEntry? then BufferShelf
    else if entry.value.output == null then NoneShelf
    else RecordShelf(entry.value.output.Record())
  }

  /** What the entry under the selected span holds. */
  function SelectedShelf(cells: seq<Cell>, sel: Option<CellSpan>): Shelf
    reads if sel.Some? then EntryOutput(Lookup(cells, sel.value)) else {}
  {
    if sel.Some? then ShelfOf(Lookup(cells, sel.value)) else NoEntry
  }

  /** The Output object under the span the cursor selects, if any. */
  function CursorReads(cells: seq<Cell>, ed: Editor): set<Output>
  {
    match SelectFrom(cells, ed.marks, CursorPosition(ed.currentBuffer, ed.cursorLine, ed.cursorCol))
    case Ok(Some(k)) => EntryOutput(Lookup(cells, k))
    case _ => {}
  }

  /** What the entry under the span the cursor selects holds: all update_interface
      reads of the outputs. */
  function CursorShelf(cells: seq<Cell>, ed: Editor): Shelf
    reads CursorReads(cells, ed)
  {
    match SelectFrom(cells, ed.marks, CursorPosition(ed.currentBuffer, ed.cursorLine, ed.cursorCol))
    case Ok(Some(k)) => ShelfOf(Lookup(cells, k))
    case _ => NoEntry
  }

  /** clear_interface, with `close` what closing the window does: nothing while an
      update is in progress; otherwise the window, if any, is closed and the
      canvas cleared. */
  function ClearSpec(ui: UiState, cs: Images.CanvasState, close: CallOutcome): UiStep
  {
    if ui.updating || ui.displayWindow.None? then UiStep(ui, cs, Ok(()))
    else if close.Raised? then UiStep(ui, cs, Err(close.error))
    else UiStep(ui.(displayWindow := None), Images.CanvasClear(cs), Ok(()))
  }

  /** What _show_outputs leaves: the display buffer's lines, the window, the images
      asked of the canvas, and the window opened or the exception raised. */
  datatype Shown = Shown(lines: seq<string>, window: Option<int>, requests: seq<ImageRequest>,
                         result: Result<Option<WindowConfig>>)

  /** The display buffer's body after the chunks are placed: the placed text with
      trailing whitespace removed, split at newlines, or one empty line. */
  function DisplayBody(chunkCount: nat, text: string): seq<string>
  {
    if chunkCount > 0 then PyStr.Split(PyStr.RStrip(text), '\n') else [""]
  }

  /** What _show_outputs writes once the chunks of `o` are placed: nothing more
      when placing raised; otherwise the header and the body over the emptied
      display buffer, and a window without borders opened below window row `row`
      when that is inside the window, as tall as the newlines placed allow. */
  function ShowPlaced(o: OutputRecord, window: Option<int>, placed: PlacedAll, row: int, view: View, newWindow: int): (r: Shown)
    ensures r.requests == placed.requests
    ensures r.result.Ok? ==> window.None? && |r.lines| >= 2 && r.lines[0] == HeaderText(o)
    ensures r.result.Ok? ==> (r.window.Some? <==> r.result.value.Some?)
    ensures r.window.Some? && r.window != window ==> r.window == Some(newWindow)
  {
    if placed.error.Some? then Shown([""], window, placed.requests, Err(placed.error.value))
    else
      var lines := [HeaderText(o)] + DisplayBody(|o.chunks|, placed.text);
      if window.Some? then Shown(lines, window, placed.requests, Err(AssertionError))
      else
        // lineno, counted up by the newlines of each chunk's text.
        var cfg := WindowGeometry(row, view.width, view.height, PyStr.Count(placed.text, "\n"), false);
        Shown(lines, if cfg.Some? then Some(newWindow) else None, placed.requests, Ok(cfg))
  }

  /** The part of _show_outputs after the checks, for the record `o` of the Output
      shown below window row `row`: every chunk placed in the current window's
      shape until one raises, then the display as ShowPlaced says. */
  function ShowRecord(o: OutputRecord, window: Option<int>, wrapOutput: bool, ed: Editor, row: int, newWindow: int): Shown
  {
    var place := PlacerFor(wrapOutput, ed.wrap, Shape(ed.view.col, row, ed.view.width, ed.view.height), ed.winSize);
    ShowPlaced(o, window, PlaceFrom(o.chunks, place, 0), row, ed.view, newWindow)
  }

  /** _show_outputs(entry, anchor), with `shelf` what the entry holds: the
      anchor's line is read from its extmark and the display buffer emptied
      before the chunks are read; neither None nor an OutputBuffer has `chunks`. */
  function ShowOutputsSpec(shelf: Shelf, lines: seq<string>, window: Option<int>, wrapOutput: bool,
                           ed: Editor, anchor: DynamicPosition, newWindow: int): (r: Shown)
    ensures r.result.Ok? ==> shelf.RecordShelf? && window.None?
                             && |r.lines| >= 1 && r.lines[0] == HeaderText(shelf.rec)
    ensures r.window.Some? && r.window != window ==> r.window == Some(newWindow)
    ensures r.requests != [] ==> shelf.RecordShelf?
  {
    if shelf.NoEntry? then Shown(lines, window, [], Err(KeyError("span")))
    else
      match Resolve(ed.marks, anchor)
      case Err(e) => Shown(lines, window, [], Err(e))
      case Ok(a) =>
        // deletebufline leaves the display buffer with one empty line.
        if shelf.BufferShelf? then Shown([""], window, [], Err(AttributeError("'OutputBuffer' object has no attribute 'chunks'")))
        else if shelf.NoneShelf? then Shown([""], window, [], Err(AttributeError("'NoneType' object has no attribute 'chunks'")))
        else ShowRecord(shelf.rec, window, wrapOutput, ed, BufferToWindowLineno(a.lineno + 1, ed.view.top), newWindow)
  }

  /** With the anchor resolved to window row `row`, an Output is shown as its record is. */
  lemma RecordShown(rec: OutputRecord, lines: seq<string>, window: Option<int>, wrapOutput: bool, ed: Editor,
                    anchor: DynamicPosition, row: int, newWindow: int)
    requires Resolve(ed.marks, anchor).Ok? && row == BufferToWindowLineno(Resolve(ed.marks, anchor).value.lineno + 1, ed.view.top)
    ensures ShowOutputsSpec(RecordShelf(rec), lines, window, wrapOutput, ed, anchor, newWindow)
            == ShowRecord(rec, window, wrapOutput, ed, row, newWindow)
  {
  }

  /** The end of update_interface, from the selected span on: the open flag is
      forced on (auto-open) or dropped when the selection moved, the output is
      shown when the flag is set, and the canvas is presented; `shelf` is what the
      entry under `sel` holds. */
  function ShowSelected(options: MagmaOptions, pid: int, shelf: Shelf, ui: UiState, cs: Images.CanvasState,
                        sel: Option<CellSpan>, ed: Editor, newWindow: int): UiStep
  {
    var open := if options.automaticallyOpenOutput then true else if ui.selectedCell != sel then false else ui.shouldOpen;
    ShowFlagged(options, pid, shelf, ui.(shouldOpen := open, selectedCell := sel), cs, ed, newWindow)
  }

  /** With the selection and the open flag set: the selected output is shown when
      the flag is set, its images going to the canvas, and the canvas is presented
      unless showing raised; `shelf` is what the entry under the selection holds. */
  function ShowFlagged(options: MagmaOptions, pid: int, shelf: Shelf, ui: UiState, cs: Images.CanvasState,
                       ed: Editor, newWindow: int): UiStep
  {
    var sel := ui.selectedCell;
    if sel.Some? && ui.shouldOpen then
      var s := ShowOutputsSpec(shelf, ui.displayLines, ui.displayWindow, options.wrapOutput, ed,
                               sel.value.end, newWindow);
      var ui' := ui.(displayWindow := s.window, displayLines := s.lines);
      var cs' := AddAll(cs, pid, s.requests);
      if s.result.Err? then UiStep(ui', cs', Err(s.result.error))
      else UiStep(ui'.(updating := false), Images.CanvasPresent(cs'), Ok(()))
    else UiStep(ui.(updating := false), Images.CanvasPresent(cs), Ok(()))
  }

  /** update_interface: only for the buffer shown in the current window; the
      interface is cleared, the updating flag set, and the selected span
      recomputed before the rest of the update; `shelf` is what the entry under the
      span the cursor selects holds (CursorShelf). */
  function UpdateSpec(options: MagmaOptions, pid: int, bufferNumber: int, cells: seq<Cell>, shelf: Shelf, ui: UiState,
                      cs: Images.CanvasState, ed: Editor, close: CallOutcome, newWindow: int): UiStep
  {
    if bufferNumber != ed.currentBuffer || bufferNumber != ed.windowBuffer then UiStep(ui, cs, Ok(()))
    else
      var c := ClearSpec(ui, cs, close);
      if c.result.Err? then c
      else SelectStep(options, pid, cells, shelf, c.ui.(updating := true), c.canvas, ed, newWindow)
  }

  /** update_interface once the interface is cleared and the updating flag set:
      the span under the cursor is looked up and the rest of the update done. */
  function SelectStep(options: MagmaOptions, pid: int, cells: seq<Cell>, shelf: Shelf, ui: UiState,
                      cs: Images.CanvasState, ed: Editor, newWindow: int): UiStep
  {
    var sel := SelectFrom(cells, ed.marks, CursorPosition(ed.currentBuffer, ed.cursorLine, ed.cursorCol));
    if sel.Err? then UiStep(ui, cs, Err(sel.error))
    else ShowSelected(options, pid, shelf, ui, cs, sel.value, ed, newWindow)
  }

  /** Nothing changes for a buffer that is not the one shown in the current window. */
  lemma UpdateElsewhere(options: MagmaOptions, pid: int, bufferNumber: int, cells: seq<Cell>, shelf: Shelf, ui: UiState,
                        cs: Images.CanvasState, ed: Editor, close: CallOutcome, newWindow: int)
    requires bufferNumber != ed.currentBuffer || bufferNumber != ed.windowBuffer
    ensures UpdateSpec(options, pid, bufferNumber, cells, shelf, ui, cs, ed, close, newWindow) == UiStep(ui, cs, Ok(()))
  {
  }

  /** A completed update leaves the updating flag off and the selection recomputed;
      the open flag is on under auto-open and otherwise stays on only while the
      selection stays the same. */
  lemma UpdateFlags(options: MagmaOptions, pid: int, bufferNumber: int, cells: seq<Cell>, shelf: Shelf, ui: UiState,
                    cs: Images.CanvasState, ed: Editor, close: CallOutcome, newWindow: int)
    requires bufferNumber == ed.currentBuffer && bufferNumber == ed.windowBuffer
    ensures var u := UpdateSpec(options, pid, bufferNumber, cells, shelf, ui, cs, ed, close, newWindow);
            var sel := SelectFrom(cells, ed.marks, CursorPosition(ed.currentBuffer, ed.cursorLine, ed.cursorCol));
            u.result.Ok? ==>
              !u.ui.updating && sel == Ok(u.ui.selectedCell)
              && (u.ui.shouldOpen <==> options.automaticallyOpenOutput || (ui.shouldOpen && ui.selectedCell == u.ui.selectedCell))
              && (!ui.updating && u.ui.displayWindow.Some? ==> u.ui.shouldOpen && u.ui.selectedCell.Some?)
  {
    var c := ClearSpec(ui, cs, close);
    var sel := SelectFrom(cells, ed.marks, CursorPosition(ed.currentBuffer, ed.cursorLine, ed.cursorCol));
    if c.result.Ok? && sel.Ok? {
      var open := if options.automaticallyOpenOutput then true else if ui.selectedCell != sel.value then false else ui.shouldOpen;
      var flagged := c.ui.(updating := true, shouldOpen := open, selectedCell := sel.value);
      UpdateUnfolds(options, pid, bufferNumber, cells, shelf, ui, cs, ed, close, newWindow);
      FlaggedKeepsFlags(options, pid, shelf, flagged, c.canvas, ed, newWindow);
    }
  }

  /** Once the buffer is the current one, clearing succeeded and a span (or none)
      is selected, update_interface is ShowFlagged with the new flags. */
  lemma UpdateUnfolds(options: MagmaOptions, pid: int, bufferNumber: int, cells: seq<Cell>, shelf: Shelf, ui: UiState,
                      cs: Images.CanvasState, ed: Editor, close: CallOutcome, newWindow: int)
    requires bufferNumber == ed.currentBuffer && bufferNumber == ed.windowBuffer
    requires ClearSpec(ui, cs, close).result.Ok?
    requires SelectFrom(cells, ed.marks, CursorPosition(ed.currentBuffer, ed.cursorLine, ed.cursorCol)).Ok?
    ensures var c := ClearSpec(ui, cs, close);
            var sel := SelectFrom(cells, ed.marks, CursorPosition(ed.currentBuffer, ed.cursorLine, ed.cursorCol)).value;
            var open := if options.automaticallyOpenOutput then true else if ui.selectedCell != sel then false else ui.shouldOpen;
            UpdateSpec(options, pid, bufferNumber, cells, shelf, ui, cs, ed, close, newWindow)
            == ShowFlagged(options, pid, shelf, c.ui.(updating := true, shouldOpen := open, selectedCell := sel), c.canvas,
                           ed, newWindow)
  {
  }

  /** Showing the selection keeps the selection and the open flag, clears the
      updating flag when it succeeds, and opens a window only for a selection
      whose flag is set. */
  lemma FlaggedKeepsFlags(options: MagmaOptions, pid: int, shelf: Shelf, ui: UiState, cs: Images.CanvasState,
                          ed: Editor, newWindow: int)
    ensures var t := ShowFlagged(options, pid, shelf, ui, cs, ed, newWindow);
            t.ui.selectedCell == ui.selectedCell && t.ui.shouldOpen == ui.shouldOpen
            && (t.result.Ok? ==> !t.ui.updating)
            && (t.ui.displayWindow != ui.displayWindow ==> ui.shouldOpen && ui.selectedCell.Some?)
  {
    if ui.selectedCell.Some? && ui.shouldOpen {
      var s := ShowOutputsSpec(shelf, ui.displayLines, ui.displayWindow, options.wrapOutput, ed,
                               ui.selectedCell.value.end, newWindow);
      var ui' := ui.(displayWindow := s.window, displayLines := s.lines);
      var cs' := AddAll(cs, pid, s.requests);
      if s.result.Err? {
        assert ShowFlagged(options, pid, shelf, ui, cs, ed, newWindow) == UiStep(ui', cs', Err(s.result.error));
      } else {
        assert ShowFlagged(options, pid, shelf, ui, cs, ed, newWindow)
               == UiStep(ui'.(updating := false), Images.CanvasPresent(cs'), Ok(()));
      }
    }
  }

  /** clear_interface does nothing while an update is in progress, and otherwise
      closes the window unless closing it raises. */
  lemma ClearSemantics(ui: UiState, cs: Images.CanvasState, close: CallOutcome)
    ensures ui.updating ==> ClearSpec(ui, cs, close) == UiStep(ui, cs, Ok(()))
    ensures !ui.updating && close.Completed? ==>
              ClearSpec(ui, cs, close).result.Ok? && ClearSpec(ui, cs, close).ui.displayWindow.None?
  {
  }

  /** An update that raises while selecting or showing leaves the updating flag
      set, so every later clear_interface does nothing. */
  lemma UpdateRaisingSticks(options: MagmaOptions, pid: int, bufferNumber: int, cells: seq<Cell>, shelf: Shelf, ui: UiState,
                            cs: Images.CanvasState, ed: Editor, close: CallOutcome, close': CallOutcome, newWindow: int)
    requires bufferNumber == ed.currentBuffer && bufferNumber == ed.windowBuffer
    requires ClearSpec(ui, cs, close).result.Ok?
    ensures var u := UpdateSpec(options, pid, bufferNumber, cells, shelf, ui, cs, ed, close, newWindow);
            u.result.Err? ==> u.ui.updating && ClearSpec(u.ui, u.canvas, close') == UiStep(u.ui, u.canvas, Ok(()))
  {
  }

  /** The ledger and the interface after delete_cell. */
  datatype Deletion = Deletion(cells: seq<Cell>, step: UiStep)

  /** delete_cell: the span under the cursor becomes the selection; outside every
      cell nothing else happens; otherwise its entry is deleted and the interface
      updated. The span was found among the keys, so the deletion cannot miss;
      `shelf` is what update_interface then finds (CursorShelf of the rest). */
  function DeleteSpec(options: MagmaOptions, pid: int, bufferNumber: int, cells: seq<Cell>, shelf: Shelf, ui: UiState,
                      cs: Images.CanvasState, ed: Editor, close: CallOutcome, newWindow: int): Deletion
  {
    var sel := SelectFrom(cells, ed.marks, CursorPosition(ed.currentBuffer, ed.cursorLine, ed.cursorCol));
    if sel.Err? then Deletion(cells, UiStep(ui, cs, Err(sel.error)))
    else if sel.value.None? then Deletion(cells, UiStep(ui.(selectedCell := None), cs, Ok(())))
    else
      var rest := Remove(cells, sel.value.value);
      Deletion(rest, UpdateSpec(options, pid, bufferNumber, rest, shelf, ui.(selectedCell := sel.value), cs, ed, close, newWindow))
  }

  /** After delete_cell the selected span has no entry, every other span keeps
      its entry, and the keys stay distinct. */
  lemma {:induction false} DeleteForgets(options: MagmaOptions, pid: int, bufferNumber: int, cells: seq<Cell>, shelf: Shelf, ui: UiState,
                                         cs: Images.CanvasState, ed: Editor, close: CallOutcome, newWindow: int,
                                         k: CellSpan)
    requires DistinctSpans(cells)
    ensures var d := DeleteSpec(options, pid, bufferNumber, cells, shelf, ui, cs, ed, close, newWindow);
            var sel := SelectFrom(cells, ed.marks, CursorPosition(ed.currentBuffer, ed.cursorLine, ed.cursorCol));
            DistinctSpans(d.cells)
            && Lookup(d.cells, k) == if sel == Ok(Some(k)) then None else Lookup(cells, k)
  {
    var sel := SelectFrom(cells, ed.marks, CursorPosition(ed.currentBuffer, ed.cursorLine, ed.cursorCol));
    if sel.Ok? && sel.value.Some? {
      RemoveLookup(cells, sel.value.value, k);
    }
  }

  /** The interface after tick, given what the runtime's tick did: an error is
      passed on, no work leaves the interface alone, and work updates it. */
  function TickInterface(options: MagmaOptions, pid: int, bufferNumber: int, cells: seq<Cell>, shelf: Shelf, ui: UiState,
                         cs: Images.CanvasState, ed: Editor, close: CallOutcome, newWindow: int,
                         did: Result<bool>): UiStep
  {
    if did.Err? then UiStep(ui, cs, Err(did.error))
    else if !did.value then UiStep(ui, cs, Ok(()))
    else UpdateSpec(options, pid, bufferNumber, cells, shelf, ui, cs, ed, close, newWindow)
  }

  /** As written, run_code stores and queues None: showing it raises, and once it
      is current the runtime's tick reads no message for it. */
  lemma StoredNoneStalls(lines: seq<string>, window: Option<int>, wrapOutput: bool, ed: Editor, anchor: DynamicPosition,
                         newWindow: int, current: Output?, external: bool, showDebug: bool,
                         s: Runtime.RuntimeState, files: seq<string>, iopub: seq<Runtime.Message>,
                         probe: bool, render: Renderer)
    requires anchor.Key() in ed.marks
    ensures ShelfOf(Some(OutputEntry(null))) == NoneShelf
    ensures ShowOutputsSpec(NoneShelf, lines, window, wrapOutput, ed, anchor, newWindow)
            == Shown([""], window, [], Err(AttributeError("'NoneType' object has no attribute 'chunks'")))
    ensures Promote(current, true, [null]) == (null, [])
    ensures Runtime.TickSpec(external, showDebug, s, None, files, iopub, probe, render).rest == iopub
  {
  }

  /** With a real Output stored, showing it raises exactly when placing a chunk
      raises, asks for the images its chunks place, and opens a window exactly
      when the anchor row is inside the current window; an output without chunks,
      as a new one is, shows its header over one empty line, one line tall. The
      output is promoted when the runtime is idle. */
  lemma StoredOutputShows(o: Output, lines: seq<string>, wrapOutput: bool, ed: Editor, anchor: DynamicPosition,
                          newWindow: int, current: Output?, queue: seq<Output?>)
    requires anchor.Key() in ed.marks
    ensures var row := BufferToWindowLineno(ed.marks[anchor.Key()].0 + 1, ed.view.top);
            var shape := Shape(ed.view.col, row, ed.view.width, ed.view.height);
            var placed := PlaceFrom(o.chunks, PlacerFor(wrapOutput, ed.wrap, shape, ed.winSize), 0);
            var s := ShowOutputsSpec(ShelfOf(Some(OutputEntry(o))), lines, None, wrapOutput, ed, anchor, newWindow);
            s.requests == placed.requests
            && (s.result.Ok? <==> placed.error.None?)
            && (s.result.Ok? ==> (s.window == Some(newWindow) <==> row < ed.view.height))
            && (o.chunks == [] ==> s.lines == [HeaderText(o.Record()), ""] && s.requests == [] && s.result.Ok?
                                   && (s.result.value.Some? ==> s.result.value.value.height == 1))
    ensures Promote(current, true, [o] + queue) == (o, queue)
  {
    var rec := o.Record();
    var row := BufferToWindowLineno(ed.marks[anchor.Key()].0 + 1, ed.view.top);
    var placed := PlaceFrom(rec.chunks, PlacerFor(wrapOutput, ed.wrap, Shape(ed.view.col, row, ed.view.width, ed.view.height),
                                                  ed.winSize), 0);
    assert ShelfOf(Some(OutputEntry(o))) == RecordShelf(rec);
    RecordShown(rec, lines, None, wrapOutput, ed, anchor, row, newWindow);
    assert ShowRecord(rec, None, wrapOutput, ed, row, newWindow) == ShowPlaced(rec, None, placed, row, ed.view, newWindow);
    assert ([o] + queue)[1..] == queue;
  }

  /** Once the chunks are placed, _show_outputs and OutputBuffer.show without
      borders raise the same exceptions and open a window in the same cases, at the
      same row and width. */
  lemma PlacedLikeLaidOut(o: OutputRecord, window: Option<int>, placed: PlacedAll, row: int, view: View, newWindow: int)
    ensures var s := ShowPlaced(o, window, placed, row, view, newWindow);
            var l := LaidOut(o, window, placed, row, view.height, view.width, false, newWindow);
            s.window == l.window && (s.result.Ok? <==> l.result.Ok?) && (s.result.Err? ==> s.result == l.result)
            && (s.result.Ok? ==> (s.result.value.Some? <==> l.result.value.Some?))
            && (s.result.Ok? && s.result.value.Some? ==>
                  s.result.value.value.row == l.result.value.value.row
                  && s.result.value.value.width == l.result.value.value.width)
  {
  }

  /** _show_outputs and OutputBuffer.show without borders ask the canvas for the
      same images, raise the same exceptions, and open a window in the same cases
      at the same row and width; they differ only in the lines written and so in
      the window's height. */
  lemma ShowOutputsLikeShow(o: Output, lines: seq<string>, window: Option<int>, options: MagmaOptions, ed: Editor,
                            anchor: DynamicPosition, cs: Images.CanvasState, pid: int, newWindow: int)
    requires anchor.Key() in ed.marks && !options.outputWindowBorders
    ensures var s := ShowOutputsSpec(ShelfOf(Some(OutputEntry(o))), lines, window, options.wrapOutput, ed, anchor, newWindow);
            var t := ShowSpec(o.Record(), window, cs, pid, options, ed.marks[anchor.Key()].0, ed.view, ed.wrap,
                              ed.winSize, newWindow);
            AddAll(cs, pid, s.requests) == t.canvas && s.window == t.window
            && (s.result.Ok? <==> t.result.Ok?)
            && (s.result.Err? ==> s.result == t.result)
            && (s.result.Ok? ==> (s.result.value.Some? <==> t.result.value.Some?))
            && (s.result.Ok? && s.result.value.Some? ==>
                  s.result.value.value.row == t.result.value.value.row
                  && s.result.value.value.width == t.result.value.value.width)
  {
    var rec := o.Record();
    var row := BufferToWindowLineno(ed.marks[anchor.Key()].0 + 1, ed.view.top);
    var place := PlacerFor(options.wrapOutput, ed.wrap, Shape(ed.view.col, row, ed.view.width, ed.view.height), ed.winSize);
    var placed := PlaceFrom(rec.chunks, place, 0);
    assert ShowOutputsSpec(ShelfOf(Some(OutputEntry(o))), lines, window, options.wrapOutput, ed, anchor, newWindow)
           == ShowPlaced(rec, window, placed, row, ed.view, newWindow);
    var l := LaidOut(rec, window, placed, row, ed.view.height, ed.view.width, false, newWindow);
    assert ShowSpec(rec, window, cs, pid, options, ed.marks[anchor.Key()].0, ed.view, ed.wrap, ed.winSize, newWindow)
           == ShowOutcome(l.lines, l.window, AddAll(cs, pid, placed.requests), l.result);
    PlacedLikeLaidOut(rec, window, placed, row, ed.view, newWindow);
  }

  /** The notification shown when the kernel becomes ready. */
  function ReadyMessage(kernelName: string): string
  {
    "Kernel '" + kernelName + "' is ready."
  }

  /** _get_selected_span over the ledger `cells`: the keys scanned from the most
      recent one, stopping at the first span containing the position. */
  method GetSelectedSpan(cells: seq<Cell>, marks: map<MarkKey, (int, int)>, pos: Position)
    returns (r: Result<Option<CellSpan>>)
    ensures r == SelectFrom(cells, marks, pos)
  {
    var i := |cells|;
    assert cells[..i] == cells;
    while i > 0
      invariant 0 <= i <= |cells|
      invariant SelectFrom(cells, marks, pos) == SelectFrom(cells[..i], marks, pos)
    {
      var span := cells[i - 1].span;
      assert cells[..i][i - 1] == cells[i - 1] && cells[..i][..i - 1] == cells[..i - 1];
      var inside := ContainsDynamic(marks, span, pos);
      if inside.Err? {
        return Err(inside.error);
      }
      if inside.value {
        return Ok(Some(span));
      }
      i := i - 1;
    }
    r := Ok(None);
  }

  // ---------------------------------------------------------------------------
  // MagmaBuffer

  class MagmaBuffer {
    const runtime: Runtime.JupyterRuntime
    const canvas: Images.Canvas
    const options: MagmaOptions
    /** The number of the editor buffer this ledger belongs to. */
    const bufferNumber: int
    /** The scratch buffer the outputs are shown in. */
    const displayBuffer: int
    /** The editor namespace the cells' extmarks are set in. */
    const extmarkNamespace: int
    var outputs: seq<Cell>
    var currentOutput: Output?
    var queuedOutputs: seq<Output?>
    var displayWindow: Option<int>
    var selectedCell: Option<CellSpan>
    var shouldOpenDisplayWindow: bool
    var updatingInterface: bool
    /** The lines of the display buffer. */
    var displayLines: seq<string>
    /** The User autocommands fired, in order. */
    var autocmds: seq<string>
    /** The notifications shown, in order. */
    var notifications: seq<string>

    /** The canvas is valid and separate from the ledger; the dict has each span once. */
    ghost predicate Valid()
      reads this, canvas.Repr()
    {
      canvas.Valid() && this !in canvas.Repr() && DistinctSpans(outputs)
    }

    function Ui(): UiState
      reads this
    {
      UiState(displayWindow, selectedCell, shouldOpenDisplayWindow, updatingInterface, displayLines)
    }

    /** The current output is None or DONE. */
    predicate Idle()
      reads this, currentOutput
    {
      currentOutput == null || currentOutput.status == Done
    }

    /** MagmaBuffer.__init__: a new runtime for the kernel, an empty ledger. */
    constructor (canvas: Images.Canvas, extmarkNamespace: int, options: MagmaOptions, bufferNumber: int, displayBuffer: int,
                 kernelName: string)
      requires canvas.Valid()
      ensures Valid() && fresh(runtime)
      ensures runtime.state == Runtime.Starting && runtime.kernelName == kernelName
      ensures runtime.requests == [] && runtime.iopub == [] && runtime.files == []
      ensures this.canvas == canvas && this.options == options
      ensures this.bufferNumber == bufferNumber && this.displayBuffer == displayBuffer
      ensures this.extmarkNamespace == extmarkNamespace
      ensures outputs == [] && currentOutput == null && queuedOutputs == []
      ensures Ui() == UiState(None, None, false, false, [""])
      ensures autocmds == ["MagmaInitPre", "MagmaInitPost"] && notifications == []
    {
      this.canvas := canvas;
      this.options := options;
      this.bufferNumber := bufferNumber;
      this.displayBuffer := displayBuffer;
      this.extmarkNamespace := extmarkNamespace;
      runtime := new Runtime.JupyterRuntime(kernelName, options.showMimetypeDebug);
      outputs := [];
      currentOutput := null;
      queuedOutputs := [];
      displayWindow := None;
      selectedCell := None;
      shouldOpenDisplayWindow := false;
      updatingInterface := false;
      displayLines := [""];
      autocmds := ["MagmaInitPre", "MagmaInitPost"];
      notifications := [];
    }

    /** deinit: the runtime's files that still exist are removed, between the two
        autocommands. */
    method Deinit(existing: set<string>) returns (remaining: set<string>)
      modifies this, runtime
      ensures autocmds == old(autocmds) + ["MagmaDeinitPre", "MagmaDeinitPost"]
      ensures remaining == existing - (set f | f in runtime.files)
      ensures runtime.requests == old(runtime.requests) + (if runtime.externalKernel then [] else [Runtime.ShutdownKernel])
      ensures runtime.state == old(runtime.state) && runtime.files == old(runtime.files)
      ensures outputs == old(outputs) && queuedOutputs == old(queuedOutputs) && currentOutput == old(currentOutput)
      ensures Ui() == old(Ui()) && notifications == old(notifications)
    {
      autocmds := autocmds + ["MagmaDeinitPre"];
      remaining := runtime.Deinit(existing);
      autocmds := autocmds + ["MagmaDeinitPost"];
    }

    method Interrupt()
      modifies runtime
      ensures runtime.requests == old(runtime.requests) + [Runtime.InterruptKernel]
      ensures runtime.state == old(runtime.state) && runtime.files == old(runtime.files)
    {
      runtime.Interrupt();
    }

    /** clear_interface */
    method ClearInterface(close: CallOutcome) returns (r: Result<()>)
      requires Valid()
      modifies this, canvas.Repr()
      ensures Valid()
      ensures UiStep(Ui(), canvas.State(), r) == ClearSpec(old(Ui()), old(canvas.State()), close)
      ensures outputs == old(outputs) && queuedOutputs == old(queuedOutputs) && currentOutput == old(currentOutput)
      ensures autocmds == old(autocmds) && notifications == old(notifications)
    {
      if updatingInterface || displayWindow.None? {
        return Ok(());
      }
      if close.Raised? {
        return Err(close.error);
      }
      Images.Clear(canvas);
      displayWindow := None;
      r := Ok(());
    }

    /** update_interface */
    method UpdateInterface(ed: Editor, close: CallOutcome, newWindow: int) returns (r: Result<()>)
      requires Valid()
      modifies this, canvas.Repr()
      ensures Valid()
      ensures UiStep(Ui(), canvas.State(), r)
              == old(UpdateSpec(options, CanvasPid(canvas), bufferNumber, outputs, CursorShelf(outputs, ed), Ui(),
                                canvas.State(), ed, close, newWindow))
      ensures outputs == old(outputs) && queuedOutputs == old(queuedOutputs) && currentOutput == old(currentOutput)
      ensures CursorShelf(outputs, ed) == old(CursorShelf(outputs, ed))
      ensures autocmds == old(autocmds) && notifications == old(notifications)
    {
      if bufferNumber != ed.currentBuffer || bufferNumber != ed.windowBuffer {
        return Ok(());
      }
      ghost var pid, ui, cs, sh := CanvasPid(canvas), Ui(), canvas.State(), CursorShelf(outputs, ed);
      ghost var c := ClearSpec(ui, cs, close);
      ghost var u := UpdateSpec(options, pid, bufferNumber, outputs, sh, ui, cs, ed, close, newWindow);
      assert u == if c.result.Err? then c else SelectStep(options, pid, outputs, sh, c.ui.(updating := true), c.canvas, ed, newWindow);
      // _get_selected_span reads only the ledger and the marks, which clearing the
      // interface leaves alone, so looking the span up first changes nothing.
      var sel := GetSelectedSpan(outputs, ed.marks, CursorPosition(ed.currentBuffer, ed.cursorLine, ed.cursorCol));
      assert ui == Ui();
      assert cs == canvas.State();
      assert sh == CursorShelf(outputs, ed);
      OutputsOffCanvas(canvas, CursorReads(outputs, ed));
      r := ClearInterface(close);
      assert c == UiStep(Ui(), canvas.State(), r);
      assert sh == CursorShelf(outputs, ed) && pid == CanvasPid(canvas);
      if r.Ok? {
        r := Reselect(sel, ed, newWindow);
      }
    }

    /** update_interface after clear_interface: the updating flag is set, the span
        `sel` under the cursor looked up, and the update finished. */
    method Reselect(sel: Result<Option<CellSpan>>, ed: Editor, newWindow: int) returns (r: Result<()>)
      requires Valid() && sel == SelectFrom(outputs, ed.marks, CursorPosition(ed.currentBuffer, ed.cursorLine, ed.cursorCol))
      modifies this, canvas.Repr()
      ensures Valid()
      ensures UiStep(Ui(), canvas.State(), r)
              == old(SelectStep(options, CanvasPid(canvas), outputs, CursorShelf(outputs, ed), Ui().(updating := true),
                                canvas.State(), ed, newWindow))
      ensures outputs == old(outputs) && queuedOutputs == old(queuedOutputs) && currentOutput == old(currentOutput)
      ensures CursorShelf(outputs, ed) == old(CursorShelf(outputs, ed))
      ensures autocmds == old(autocmds) && notifications == old(notifications)
    {
      ghost var pid, ui, cs := CanvasPid(canvas), Ui().(updating := true), canvas.State();
      ghost var sh := CursorShelf(outputs, ed);
      OutputsOffCanvas(canvas, CursorReads(outputs, ed));
      updatingInterface := true;
      assert ui == Ui();
      assert pid == CanvasPid(canvas) && cs == canvas.State();
      assert sh == CursorShelf(outputs, ed);
      if sel.Err? {
        r := Err(sel.error);
      } else {
        assert sh == SelectedShelf(outputs, sel.value);
        r := FinishUpdate(sel.value, ed, newWindow);
      }
    }

    /** The rest of update_interface once the selected span is known. */
    method FinishUpdate(sel: Option<CellSpan>, ed: Editor, newWindow: int) returns (r: Result<()>)
      requires Valid()
      modifies this, canvas.Repr()
      ensures Valid()
      ensures UiStep(Ui(), canvas.State(), r)
              == old(ShowSelected(options, CanvasPid(canvas), SelectedShelf(outputs, sel), Ui(), canvas.State(), sel,
                                  ed, newWindow))
      ensures outputs == old(outputs) && queuedOutputs == old(queuedOutputs) && currentOutput == old(currentOutput)
      ensures SelectedShelf(outputs, sel) == old(SelectedShelf(outputs, sel))
      ensures autocmds == old(autocmds) && notifications == old(notifications)
    {
      var open := if options.automaticallyOpenOutput then true else if selectedCell != sel then false else shouldOpenDisplayWindow;
      ghost var pid, cs, ui, sh := CanvasPid(canvas), canvas.State(), Ui().(shouldOpen := open, selectedCell := sel),
                                   SelectedShelf(outputs, sel);
      shouldOpenDisplayWindow, selectedCell := open, sel;
      assert pid == CanvasPid(canvas) && cs == canvas.State() && ui == Ui() && sh == SelectedShelf(outputs, selectedCell);
      r := OpenSelected(ed, newWindow);
    }

    /** The selected output shown when the open flag is set, then the canvas presented. */
    method OpenSelected(ed: Editor, newWindow: int) returns (r: Result<()>)
      requires Valid()
      modifies this, canvas.Repr()
      ensures Valid()
      ensures UiStep(Ui(), canvas.State(), r)
              == old(ShowFlagged(options, CanvasPid(canvas), SelectedShelf(outputs, selectedCell), Ui(), canvas.State(),
                                 ed, newWindow))
      ensures outputs == old(outputs) && queuedOutputs == old(queuedOutputs) && currentOutput == old(currentOutput)
      ensures SelectedShelf(outputs, old(selectedCell)) == old(SelectedShelf(outputs, selectedCell))
      ensures autocmds == old(autocmds) && notifications == old(notifications)
    {
      ghost var pid, ui, cs := CanvasPid(canvas), Ui(), canvas.State();
      ghost var sel, sh := selectedCell, SelectedShelf(outputs, selectedCell);
      OutputsOffCanvas(canvas, if sel.Some? then EntryOutput(Lookup(outputs, sel.value)) else {});
      if selectedCell.Some? && shouldOpenDisplayWindow {
        ghost var s := ShowOutputsSpec(sh, displayLines, displayWindow, options.wrapOutput, ed, sel.value.end, newWindow);
        var w := ShowOutputs(Lookup(outputs, selectedCell.value), selectedCell.value.end, ed, newWindow);
        assert Ui() == ui.(displayWindow := s.window, displayLines := s.lines);
        assert canvas.State() == AddAll(cs, pid, s.requests) && w == s.result;
        assert sh == SelectedShelf(outputs, sel);
        if w.Err? {
          return Err(w.error);
        }
      }
      // The flag is reset before the canvas is presented; presenting does not read it.
      updatingInterface := false;
      assert sh == SelectedShelf(outputs, sel);
      PresentCanvas();
      r := Ok(());
      assert sh == SelectedShelf(outputs, sel);
    }

    /** _show_outputs: the display buffer and the window as ShowOutputsSpec says,
        and the images the chunks place added to the canvas in order. */
    method ShowOutputs(entry: Option<CellEntry>, anchor: DynamicPosition, ed: Editor, newWindow: int)
      returns (r: Result<Option<WindowConfig>>)
      requires Valid()
      modifies this, canvas.Repr()
      ensures Valid()
      ensures var s := old(ShowOutputsSpec(ShelfOf(entry), displayLines, displayWindow, options.wrapOutput, ed, anchor,
                                           newWindow));
              displayLines == s.lines && displayWindow == s.window && r == s.result
              && canvas.State() == AddAll(old(canvas.State()), CanvasPid(canvas), s.requests)
      ensures outputs == old(outputs) && queuedOutputs == old(queuedOutputs) && currentOutput == old(currentOutput)
      ensures selectedCell == old(selectedCell) && shouldOpenDisplayWindow == old(shouldOpenDisplayWindow)
      ensures updatingInterface == old(updatingInterface)
      ensures autocmds == old(autocmds) && notifications == old(notifications)
    {
      ghost var sh := ShelfOf(entry);
      ghost var s := ShowOutputsSpec(sh, displayLines, displayWindow, options.wrapOutput, ed, anchor, newWindow);
      if entry.None? {
        return Err(KeyError("span"));
      }
      var a := Resolve(ed.marks, anchor);
      if a.Err? {
        return Err(a.error);
      }
      r := ShowEntry(entry.value, BufferToWindowLineno(a.value.lineno + 1, ed.view.top), ed, anchor, newWindow);
    }

    /** The rest of _show_outputs, once the anchor has resolved to the window row
        `row`: the display buffer is emptied, then an Output's chunks are shown. */
    method ShowEntry(e: CellEntry, row: int, ed: Editor, anchor: DynamicPosition, newWindow: int)
      returns (r: Result<Option<WindowConfig>>)
      requires Valid()
      requires Resolve(ed.marks, anchor).Ok? && row == BufferToWindowLineno(Resolve(ed.marks, anchor).value.lineno + 1, ed.view.top)
      modifies this, canvas.Repr()
      ensures Valid()
      ensures var s := old(ShowOutputsSpec(ShelfOf(Some(e)), displayLines, displayWindow, options.wrapOutput, ed, anchor,
                                           newWindow));
              displayLines == s.lines && displayWindow == s.window && r == s.result
              && canvas.State() == AddAll(old(canvas.State()), CanvasPid(canvas), s.requests)
      ensures outputs == old(outputs) && queuedOutputs == old(queuedOutputs) && currentOutput == old(currentOutput)
      ensures selectedCell == old(selectedCell) && shouldOpenDisplayWindow == old(shouldOpenDisplayWindow)
      ensures updatingInterface == old(updatingInterface)
      ensures autocmds == old(autocmds) && notifications == old(notifications)
    {
      ghost var sh := ShelfOf(Some(e));
      ghost var s := ShowOutputsSpec(sh, displayLines, displayWindow, options.wrapOutput, ed, anchor, newWindow);
      // deletebufline empties the display buffer before the entry is looked at.
      displayLines := [""];
      if e.BufferEntry? {
        return Err(AttributeError("'OutputBuffer' object has no attribute 'chunks'"));
      }
      if e.output == null {
        return Err(AttributeError("'NoneType' object has no attribute 'chunks'"));
      }
      var o := e.output.Record();
      assert sh == RecordShelf(o);
      RecordShown(o, old(displayLines), old(displayWindow), options.wrapOutput, ed, anchor, row, newWindow);
      r := ShowRecordInto(o, row, ed, newWindow);
    }

    /** The part of _show_outputs that places the chunks of `o`, once the display
        buffer has been emptied. */
    method ShowRecordInto(o: OutputRecord, row: int, ed: Editor, newWindow: int) returns (r: Result<Option<WindowConfig>>)
      requires Valid() && displayLines == [""]
      modifies this, canvas.Repr()
      ensures Valid()
      ensures var s := ShowRecord(o, old(displayWindow), options.wrapOutput, ed, row, newWindow);
              displayLines == s.lines && displayWindow == s.window && r == s.result
              && canvas.State() == AddAll(old(canvas.State()), CanvasPid(canvas), s.requests)
      ensures outputs == old(outputs) && queuedOutputs == old(queuedOutputs) && currentOutput == old(currentOutput)
      ensures selectedCell == old(selectedCell) && shouldOpenDisplayWindow == old(shouldOpenDisplayWindow)
      ensures updatingInterface == old(updatingInterface)
      ensures autocmds == old(autocmds) && notifications == old(notifications)
    {
      var place := PlacerFor(options.wrapOutput, ed.wrap, Shape(ed.view.col, row, ed.view.width, ed.view.height), ed.winSize);
      ghost var cs := canvas.State();
      var placed := PlaceChunks(o.chunks, place);
      assert canvas.State() == cs;
      ghost var s := ShowPlaced(o, displayWindow, placed, row, ed.view, newWindow);
      assert s == ShowRecord(o, displayWindow, options.wrapOutput, ed, row, newWindow);
      r := Display(o, placed, row, ed.view, newWindow);
    }

    /** Once the chunks are placed: the images go to the canvas, in the order the
        chunks asked for them (placing a chunk does not look at the canvas), and the
        text to the display buffer. */
    method Display(o: OutputRecord, placed: PlacedAll, row: int, view: View, newWindow: int)
      returns (r: Result<Option<WindowConfig>>)
      requires Valid() && displayLines == [""]
      modifies this, canvas.Repr()
      ensures Valid()
      ensures var s := ShowPlaced(o, old(displayWindow), placed, row, view, newWindow);
              displayLines == s.lines && displayWindow == s.window && r == s.result
              && canvas.State() == AddAll(old(canvas.State()), CanvasPid(canvas), placed.requests)
      ensures outputs == old(outputs) && queuedOutputs == old(queuedOutputs) && currentOutput == old(currentOutput)
      ensures selectedCell == old(selectedCell) && shouldOpenDisplayWindow == old(shouldOpenDisplayWindow)
      ensures updatingInterface == old(updatingInterface)
      ensures autocmds == old(autocmds) && notifications == old(notifications)
    {
      AddImages(canvas, placed.requests);
      if placed.error.Some? {
        return Err(placed.error.value);
      }
      displayLines := [HeaderText(o)] + DisplayBody(|o.chunks|, placed.text);
      if displayWindow.Some? {
        return Err(AssertionError);
      }
      var cfg := WindowGeometry(row, view.width, view.height, PyStr.Count(placed.text, "\n"), false);
      if cfg.Some? {
        displayWindow := Some(newWindow);
      }
      r := Ok(cfg);
    }

    /** Presenting the canvas, which holds none of the ledger's fields. */
    method PresentCanvas()
      requires Valid()
      modifies canvas.Repr()
      ensures Valid() && canvas.State() == Images.CanvasPresent(old(canvas.State()))
      ensures Ui() == old(Ui()) && outputs == old(outputs)
    {
      Images.Present(canvas);
    }

    /** restart(delete_outputs): the ledger is emptied and the interface cleared
        only when asked; the runtime is always restarted; the queue and the current
        output are kept. */
    method Restart(deleteOutputs: bool, close: CallOutcome) returns (r: Result<()>)
      requires Valid()
      modifies this, runtime, canvas.Repr()
      ensures Valid()
      ensures !deleteOutputs ==> r == Ok(()) && outputs == old(outputs) && Ui() == old(Ui())
                                 && canvas.State() == old(canvas.State())
      ensures deleteOutputs ==> outputs == []
                                && UiStep(Ui(), canvas.State(), r) == ClearSpec(old(Ui()), old(canvas.State()), close)
      ensures r.Ok? ==> runtime.state == Runtime.Starting && runtime.requests == old(runtime.requests) + [Runtime.RestartKernel]
      ensures r.Err? ==> runtime.state == old(runtime.state) && runtime.requests == old(runtime.requests)
      ensures runtime.files == old(runtime.files) && runtime.iopub == old(runtime.iopub)
      ensures queuedOutputs == old(queuedOutputs) && currentOutput == old(currentOutput)
      ensures autocmds == old(autocmds) && notifications == old(notifications)
    {
      ghost var rt := (runtime.state, runtime.requests, runtime.files, runtime.iopub);
      if deleteOutputs {
        assert runtime !in canvas.Repr();
        outputs := [];
        r := ClearInterface(close);
        assert rt == (runtime.state, runtime.requests, runtime.files, runtime.iopub);
        if r.Err? {
          return;
        }
      }
      ghost var ui, cs := Ui(), canvas.State();
      runtime.Restart();
      assert Ui() == ui && canvas.State() == cs;
      r := Ok(());
    }

    /** _check_if_done_running */
    method CheckIfDoneRunning()
      requires Valid()
      modifies this
      ensures Valid() && canvas.State() == old(canvas.State())
      ensures (currentOutput, queuedOutputs) == Promote(old(currentOutput), old(Idle()), old(queuedOutputs))
      ensures outputs == old(outputs) && Ui() == old(Ui())
      ensures autocmds == old(autocmds) && notifications == old(notifications)
    {
      var isIdle := currentOutput == null || currentOutput.status == Done;
      if isIdle && |queuedOutputs| > 0 {
        currentOutput := queuedOutputs[0];
        queuedOutputs := queuedOutputs[1..];
      }
    }

    /** The body of run_code once the Output for the execution is known: the kernel
        is asked to execute, the Output is stored under the span and queued, the
        span is selected with the window flag raised, and the interface is updated;
        only when that update succeeds is the queue advanced. */
    method Submit(code: string, span: CellSpan, newOutput: Output?, ed: Editor, close: CallOutcome, newWindow: int)
      returns (r: Result<()>)
      requires Valid()
      modifies this, runtime, canvas.Repr()
      ensures Valid()
      ensures runtime.requests == old(runtime.requests) + [Runtime.Execute(code)]
      ensures runtime.state == old(runtime.state) && runtime.files == old(runtime.files) && runtime.iopub == old(runtime.iopub)
      ensures outputs == Replace(old(outputs), span, OutputEntry(newOutput))
      ensures var u := UpdateSpec(options, CanvasPid(canvas), bufferNumber, outputs, CursorShelf(outputs, ed),
                                  old(Ui()).(selectedCell := Some(span), shouldOpen := true), old(canvas.State()),
                                  ed, close, newWindow);
              Ui() == u.ui && canvas.State() == u.canvas && r == u.result
      ensures r.Err? ==> currentOutput == old(currentOutput) && queuedOutputs == old(queuedOutputs) + [newOutput]
      ensures r.Ok? ==> (currentOutput, queuedOutputs) == Promote(old(currentOutput), old(Idle()), old(queuedOutputs) + [newOutput])
      ensures autocmds == old(autocmds) && notifications == old(notifications)
    {
      Enqueue(code, span, newOutput);
      r := UpdateAndAdvance(ed, close, newWindow);
    }

    /** The end of run_code: the interface is updated, and only when that succeeds
        is the queue advanced. */
    method UpdateAndAdvance(ed: Editor, close: CallOutcome, newWindow: int) returns (r: Result<()>)
      requires Valid()
      modifies this, canvas.Repr()
      ensures Valid()
      ensures var u := UpdateSpec(options, CanvasPid(canvas), bufferNumber, outputs, CursorShelf(outputs, ed),
                                  old(Ui()), old(canvas.State()), ed, close, newWindow);
              Ui() == u.ui && canvas.State() == u.canvas && r == u.result
      ensures runtime.requests == old(runtime.requests) && runtime.state == old(runtime.state)
      ensures runtime.files == old(runtime.files) && runtime.iopub == old(runtime.iopub)
      ensures r.Err? ==> currentOutput == old(currentOutput) && queuedOutputs == old(queuedOutputs)
      ensures r.Ok? ==> (currentOutput, queuedOutputs) == Promote(old(currentOutput), old(Idle()), old(queuedOutputs))
      ensures outputs == old(outputs) && autocmds == old(autocmds) && notifications == old(notifications)
    {
      ghost var rt := (runtime.requests, runtime.state, runtime.files, runtime.iopub);
      ghost var idle := Idle();
      ghost var pid, sh := CanvasPid(canvas), CursorShelf(outputs, ed);
      ghost var u := UpdateSpec(options, pid, bufferNumber, outputs, sh, Ui(), canvas.State(), ed, close, newWindow);
      assert runtime !in canvas.Repr() && (currentOutput == null || currentOutput !in canvas.Repr());
      r := UpdateInterface(ed, close, newWindow);
      assert rt == (runtime.requests, runtime.state, runtime.files, runtime.iopub);
      assert Idle() == idle;
      assert pid == CanvasPid(canvas);
      assert sh == CursorShelf(outputs, ed);
      assert UiStep(Ui(), canvas.State(), r) == u;
      if r.Ok? {
        ghost var ui, cs := Ui(), canvas.State();
        CheckIfDoneRunning();
        assert Ui() == ui && canvas.State() == cs;
        assert pid == CanvasPid(canvas);
        assert sh == CursorShelf(outputs, ed);
      }
    }

    /** The start of run_code: the kernel is asked to execute, the Output is stored
        under the span and queued, and the span is selected with the window flag
        raised. */
    method Enqueue(code: string, span: CellSpan, newOutput: Output?)
      requires Valid()
      modifies this, runtime
      ensures Valid() && canvas.State() == old(canvas.State()) && Idle() == old(Idle())
      ensures runtime.requests == old(runtime.requests) + [Runtime.Execute(code)]
      ensures runtime.state == old(runtime.state) && runtime.files == old(runtime.files) && runtime.iopub == old(runtime.iopub)
      ensures outputs == Replace(old(outputs), span, OutputEntry(newOutput))
      ensures Ui() == old(Ui()).(selectedCell := Some(span), shouldOpen := true)
      ensures currentOutput == old(currentOutput) && queuedOutputs == old(queuedOutputs) + [newOutput]
      ensures autocmds == old(autocmds) && notifications == old(notifications)
    {
      ghost var cs := canvas.State();
      assert runtime !in canvas.Repr();
      runtime.RunCode(code);
      assert canvas.State() == cs;
      ReplaceDistinct(outputs, span, OutputEntry(newOutput));
      outputs := Replace(outputs, span, OutputEntry(newOutput));
      queuedOutputs := queuedOutputs + [newOutput];
      selectedCell := Some(span);
      shouldOpenDisplayWindow := true;
    }

    /** run_code, as written: runtime.run_code returns None, and that None is what
        is stored under the span and queued. */
    method RunCode(code: string, span: CellSpan, ed: Editor, close: CallOutcome, newWindow: int) returns (r: Result<()>)
      requires Valid()
      modifies this, runtime, canvas.Repr()
      ensures Valid()
      ensures runtime.requests == old(runtime.requests) + [Runtime.Execute(code)]
      ensures runtime.state == old(runtime.state) && runtime.files == old(runtime.files) && runtime.iopub == old(runtime.iopub)
      ensures outputs == Replace(old(outputs), span, OutputEntry(null))
      ensures var u := UpdateSpec(options, CanvasPid(canvas), bufferNumber, outputs, CursorShelf(outputs, ed),
                                  old(Ui()).(selectedCell := Some(span), shouldOpen := true), old(canvas.State()),
                                  ed, close, newWindow);
              Ui() == u.ui && canvas.State() == u.canvas && r == u.result
      ensures r.Err? ==> currentOutput == old(currentOutput) && queuedOutputs == old(queuedOutputs) + [null]
      ensures r.Ok? ==> (currentOutput, queuedOutputs) == Promote(old(currentOutput), old(Idle()), old(queuedOutputs) + [null])
      ensures autocmds == old(autocmds) && notifications == old(notifications)
    {
      r := Submit(code, span, null, ed, close, newWindow);
    }

    /** run_code with a new Output(None) created for the execution, stored under
        the span and queued. */
    method RunCodeFixed(code: string, span: CellSpan, ed: Editor, close: CallOutcome, newWindow: int)
      returns (newOutput: Output, r: Result<()>)
      requires Valid()
      modifies this, runtime, canvas.Repr()
      ensures Valid() && fresh(newOutput) && newOutput.Record() == FreshRecord(None)
      ensures runtime.requests == old(runtime.requests) + [Runtime.Execute(code)]
      ensures runtime.state == old(runtime.state) && runtime.files == old(runtime.files) && runtime.iopub == old(runtime.iopub)
      ensures outputs == Replace(old(outputs), span, OutputEntry(newOutput))
      ensures var u := UpdateSpec(options, CanvasPid(canvas), bufferNumber, outputs, CursorShelf(outputs, ed),
                                  old(Ui()).(selectedCell := Some(span), shouldOpen := true), old(canvas.State()),
                                  ed, close, newWindow);
              Ui() == u.ui && canvas.State() == u.canvas && r == u.result
      ensures r.Err? ==> currentOutput == old(currentOutput) && queuedOutputs == old(queuedOutputs) + [newOutput]
      ensures r.Ok? ==> (currentOutput, queuedOutputs) == Promote(old(currentOutput), old(Idle()), old(queuedOutputs) + [newOutput])
      ensures autocmds == old(autocmds) && notifications == old(notifications)
    {
      ghost var st := (Ui(), canvas.State(), Idle(), runtime.requests, runtime.state, runtime.files, runtime.iopub);
      newOutput := new Output(None);
      assert st == (Ui(), canvas.State(), Idle(), runtime.requests, runtime.state, runtime.files, runtime.iopub);
      r := Submit(code, span, newOutput, ed, close, newWindow);
    }

    /** reevaluate_cell: the span under the cursor is selected; outside every cell
        this raises "Not in a cell"; otherwise the text of the span is run as a new
        execution of that cell. */
    method ReevaluateCell(ed: Editor, close: CallOutcome, newWindow: int) returns (newOutput: Output?, r: Result<()>)
      requires Valid()
      modifies this, runtime, canvas.Repr()
      ensures Valid()
      ensures var sel := SelectFrom(old(outputs), ed.marks, CursorPosition(ed.currentBuffer, ed.cursorLine, ed.cursorCol));
              sel.Err? ==> r == Err(sel.error) && newOutput == null && outputs == old(outputs)
                           && Ui() == old(Ui()) && runtime.requests == old(runtime.requests)
      ensures var sel := SelectFrom(old(outputs), ed.marks, CursorPosition(ed.currentBuffer, ed.cursorLine, ed.cursorCol));
              sel == Ok(None) ==> r == Err(MagmaException("Not in a cell")) && newOutput == null && outputs == old(outputs)
                                  && Ui() == old(Ui()).(selectedCell := None) && runtime.requests == old(runtime.requests)
      ensures var sel := SelectFrom(old(outputs), ed.marks, CursorPosition(ed.currentBuffer, ed.cursorLine, ed.cursorCol));
              sel.Ok? && sel.value.Some? && GetTextDynamic(ed.marks, sel.value.value, ed.doc).Err? ==>
                r == Err(GetTextDynamic(ed.marks, sel.value.value, ed.doc).error) && newOutput == null
                && outputs == old(outputs) && Ui() == old(Ui()).(selectedCell := sel.value)
                && runtime.requests == old(runtime.requests)
      ensures var sel := SelectFrom(old(outputs), ed.marks, CursorPosition(ed.currentBuffer, ed.cursorLine, ed.cursorCol));
              sel.Ok? && sel.value.Some? && GetTextDynamic(ed.marks, sel.value.value, ed.doc).Ok? ==>
                var span := sel.value.value;
                newOutput != null && fresh(newOutput) && newOutput.Record() == FreshRecord(None)
                && runtime.requests == old(runtime.requests) + [Runtime.Execute(GetTextDynamic(ed.marks, span, ed.doc).value)]
                && outputs == Replace(old(outputs), span, OutputEntry(newOutput))
                && var u := UpdateSpec(options, CanvasPid(canvas), bufferNumber, outputs, CursorShelf(outputs, ed),
                                       old(Ui()).(selectedCell := Some(span), shouldOpen := true), old(canvas.State()),
                                       ed, close, newWindow);
                   Ui() == u.ui && canvas.State() == u.canvas && r == u.result
      ensures newOutput == null ==> canvas.State() == old(canvas.State()) && currentOutput == old(currentOutput)
                                    && queuedOutputs == old(queuedOutputs)
      ensures runtime.state == old(runtime.state) && runtime.files == old(runtime.files) && runtime.iopub == old(runtime.iopub)
      ensures autocmds == old(autocmds) && notifications == old(notifications)
    {
      ghost var st := (Ui(), canvas.State());
      var sel := GetSelectedSpan(outputs, ed.marks, CursorPosition(ed.currentBuffer, ed.cursorLine, ed.cursorCol));
      assert st == (Ui(), canvas.State());
      if sel.Err? {
        newOutput, r := null, Err(sel.error);
      } else {
        selectedCell := sel.value;
        if sel.value.None? {
          newOutput, r := null, Err(MagmaException("Not in a cell"));
        } else {
          newOutput, r := RunSpan(sel.value.value, ed, close, newWindow);
        }
      }
    }

    /** The end of reevaluate_cell once the span is selected: its text, when the
        marks give one, is run as a new execution of the cell. */
    method RunSpan(span: CellSpan, ed: Editor, close: CallOutcome, newWindow: int) returns (newOutput: Output?, r: Result<()>)
      requires Valid()
      modifies this, runtime, canvas.Repr()
      ensures Valid()
      ensures GetTextDynamic(ed.marks, span, ed.doc).Err? ==>
                r == Err(GetTextDynamic(ed.marks, span, ed.doc).error) && newOutput == null
                && outputs == old(outputs) && Ui() == old(Ui()) && runtime.requests == old(runtime.requests)
      ensures GetTextDynamic(ed.marks, span, ed.doc).Ok? ==>
                newOutput != null && fresh(newOutput) && newOutput.Record() == FreshRecord(None)
                && runtime.requests == old(runtime.requests) + [Runtime.Execute(GetTextDynamic(ed.marks, span, ed.doc).value)]
                && outputs == Replace(old(outputs), span, OutputEntry(newOutput))
                && var u := UpdateSpec(options, CanvasPid(canvas), bufferNumber, outputs, CursorShelf(outputs, ed),
                                       old(Ui()).(selectedCell := Some(span), shouldOpen := true), old(canvas.State()),
                                       ed, close, newWindow);
                   Ui() == u.ui && canvas.State() == u.canvas && r == u.result
      ensures newOutput == null ==> canvas.State() == old(canvas.State()) && currentOutput == old(currentOutput)
                                    && queuedOutputs == old(queuedOutputs)
      ensures runtime.state == old(runtime.state) && runtime.files == old(runtime.files) && runtime.iopub == old(runtime.iopub)
      ensures autocmds == old(autocmds) && notifications == old(notifications)
    {
      var code := GetTextDynamic(ed.marks, span, ed.doc);
      if code.Err? {
        newOutput, r := null, Err(code.error);
      } else {
        var o;
        o, r := RunCodeFixed(code.value, span, ed, close, newWindow);
        newOutput := o;
      }
    }

    /** delete_cell: the span under the cursor is selected; outside every cell
        nothing else happens; otherwise its entry is removed and the interface
        updated. */
    method DeleteCell(ed: Editor, close: CallOutcome, newWindow: int) returns (r: Result<()>)
      requires Valid()
      modifies this, canvas.Repr()
      ensures Valid()
      ensures Deletion(outputs, UiStep(Ui(), canvas.State(), r))
              == DeleteSpec(options, CanvasPid(canvas), bufferNumber, old(outputs), CursorShelf(outputs, ed), old(Ui()),
                            old(canvas.State()),
                            ed, close, newWindow)
      ensures queuedOutputs == old(queuedOutputs) && currentOutput == old(currentOutput)
      ensures autocmds == old(autocmds) && notifications == old(notifications)
    {
      ghost var st := (Ui(), canvas.State());
      var sel := GetSelectedSpan(outputs, ed.marks, CursorPosition(ed.currentBuffer, ed.cursorLine, ed.cursorCol));
      assert st == (Ui(), canvas.State());
      if sel.Err? {
        r := Err(sel.error);
      } else {
        selectedCell := sel.value;
        if sel.value.None? {
          r := Ok(());
        } else {
          r := RemoveCell(sel.value.value, ed, close, newWindow);
        }
      }
    }

    /** The entry of the span is removed and the interface updated. */
    method RemoveCell(k: CellSpan, ed: Editor, close: CallOutcome, newWindow: int) returns (r: Result<()>)
      requires Valid()
      modifies this, canvas.Repr()
      ensures Valid() && outputs == Remove(old(outputs), k)
      ensures UiStep(Ui(), canvas.State(), r)
              == UpdateSpec(options, CanvasPid(canvas), bufferNumber, outputs, CursorShelf(outputs, ed), old(Ui()),
                            old(canvas.State()),
                            ed, close, newWindow)
      ensures queuedOutputs == old(queuedOutputs) && currentOutput == old(currentOutput)
      ensures autocmds == old(autocmds) && notifications == old(notifications)
    {
      RemoveLookup(outputs, k, k);
      outputs := Remove(outputs, k);
      r := UpdateInterface(ed, close, newWindow);
    }

    /** tick: the queue is advanced; the runtime is ticked on the current output;
        when that did something the interface is updated; and when the kernel has
        just become ready a notification is shown. */
    method Tick(ed: Editor, probe: bool, render: Renderer, close: CallOutcome, newWindow: int) returns (r: Result<()>)
      requires Valid()
      modifies this, runtime, canvas.Repr(), Promote(currentOutput, Idle(), queuedOutputs).0
      ensures Valid()
      ensures (currentOutput, queuedOutputs) == Promote(old(currentOutput), old(Idle()), old(queuedOutputs))
      ensures var cur := currentOutput;
              var t := Runtime.TickSpec(runtime.externalKernel, runtime.showMimetypeDebug, old(runtime.state),
                                        if cur == null then None else Some(old(cur.Record())),
                                        old(runtime.files), old(runtime.iopub), probe, render);
              t == Runtime.TickOutcome(runtime.state, if cur == null then None else Some(cur.Record()),
                                       runtime.files, runtime.iopub, t.outcome)
              && UiStep(Ui(), canvas.State(), r)
                 == TickInterface(options, CanvasPid(canvas), bufferNumber, outputs, CursorShelf(outputs, ed), old(Ui()),
                                  old(canvas.State()),
                                  ed, close, newWindow, t.outcome)
      ensures notifications == old(notifications)
                               + if r.Ok? && old(runtime.state) == Runtime.Starting && runtime.state != Runtime.Starting
                                 then [ReadyMessage(runtime.kernelName)] else []
      ensures runtime.requests == old(runtime.requests) && outputs == old(outputs) && autocmds == old(autocmds)
    {
      CheckIfDoneRunning();
      ghost var cur := currentOutput;
      ghost var rec := if cur == null then None else Some(cur.Record());
      assert rec == if cur == null then None else Some(old(cur.Record()));
      ghost var rt := (runtime.state, runtime.files, runtime.iopub, runtime.requests);
      assert rt == old((runtime.state, runtime.files, runtime.iopub, runtime.requests));
      ghost var ui, cs, ns := Ui(), canvas.State(), notifications;
      assert ui == old(Ui()) && cs == old(canvas.State()) && ns == old(notifications);
      r := TickCurrent(ed, probe, render, close, newWindow);
    }

    /** tick once the queue has been advanced. */
    method TickCurrent(ed: Editor, probe: bool, render: Renderer, close: CallOutcome, newWindow: int) returns (r: Result<()>)
      requires Valid()
      modifies this, runtime, canvas.Repr(), currentOutput
      ensures Valid()
      ensures currentOutput == old(currentOutput) && queuedOutputs == old(queuedOutputs)
      ensures var cur := currentOutput;
              var t := Runtime.TickSpec(runtime.externalKernel, runtime.showMimetypeDebug, old(runtime.state),
                                        if cur == null then None else Some(old(cur.Record())),
                                        old(runtime.files), old(runtime.iopub), probe, render);
              t == Runtime.TickOutcome(runtime.state, if cur == null then None else Some(cur.Record()),
                                       runtime.files, runtime.iopub, t.outcome)
              && UiStep(Ui(), canvas.State(), r)
                 == TickInterface(options, CanvasPid(canvas), bufferNumber, outputs, CursorShelf(outputs, ed), old(Ui()),
                                  old(canvas.State()),
                                  ed, close, newWindow, t.outcome)
      ensures notifications == old(notifications)
                               + if r.Ok? && old(runtime.state) == Runtime.Starting && runtime.state != Runtime.Starting
                                 then [ReadyMessage(runtime.kernelName)] else []
      ensures runtime.requests == old(runtime.requests) && outputs == old(outputs) && autocmds == old(autocmds)
    {
      var wasReady := runtime.IsReady();
      var did := TickRuntime(probe, render);
      assert runtime !in canvas.Repr() && (currentOutput == null || currentOutput !in canvas.Repr());
      ghost var cur := currentOutput;
      ghost var rt := (runtime.state, runtime.files, runtime.iopub, runtime.requests);
      ghost var rec := if cur == null then None else Some(cur.Record());
      r := AfterTick(did, wasReady, ed, close, newWindow);
      assert rt == (runtime.state, runtime.files, runtime.iopub, runtime.requests);
      assert rec == if cur == null then None else Some(cur.Record());
    }

    /** The rest of tick once the runtime has been ticked: the interface is updated
        when that did something, and the notification is shown when the kernel was
        not ready before and is now. */
    method AfterTick(did: Result<bool>, wasReady: bool, ed: Editor, close: CallOutcome, newWindow: int)
      returns (r: Result<()>)
      requires Valid()
      modifies this, canvas.Repr()
      ensures Valid()
      ensures UiStep(Ui(), canvas.State(), r)
              == TickInterface(options, CanvasPid(canvas), bufferNumber, outputs, CursorShelf(outputs, ed), old(Ui()),
                               old(canvas.State()), ed, close, newWindow, did)
      ensures notifications == old(notifications)
                               + if r.Ok? && !wasReady && runtime.IsReady() then [ReadyMessage(runtime.kernelName)] else []
      ensures outputs == old(outputs) && autocmds == old(autocmds)
      ensures currentOutput == old(currentOutput) && queuedOutputs == old(queuedOutputs)
    {
      r := UpdateOnWork(did, ed, close, newWindow);
      if r.Ok? && !wasReady && runtime.IsReady() {
        notifications := notifications + [ReadyMessage(runtime.kernelName)];
      }
    }

    /** The interface step of tick: an error is passed on, and the interface is
        updated only when the runtime did some work. */
    method UpdateOnWork(did: Result<bool>, ed: Editor, close: CallOutcome, newWindow: int) returns (r: Result<()>)
      requires Valid()
      modifies this, canvas.Repr()
      ensures Valid()
      ensures UiStep(Ui(), canvas.State(), r)
              == TickInterface(options, CanvasPid(canvas), bufferNumber, outputs, CursorShelf(outputs, ed), old(Ui()),
                               old(canvas.State()), ed, close, newWindow, did)
      ensures runtime.state == old(runtime.state) && notifications == old(notifications)
      ensures outputs == old(outputs) && autocmds == old(autocmds)
      ensures currentOutput == old(currentOutput) && queuedOutputs == old(queuedOutputs)
    {
      if did.Err? {
        r := Err(did.error);
      } else if did.value {
        ghost var rs := runtime.state;
        ghost var pid, sh := CanvasPid(canvas), CursorShelf(outputs, ed);
        ghost var u := UpdateSpec(options, pid, bufferNumber, outputs, sh, Ui(), canvas.State(), ed, close, newWindow);
        assert runtime !in canvas.Repr();
        r := UpdateInterface(ed, close, newWindow);
        assert rs == runtime.state;
        assert pid == CanvasPid(canvas);
        assert sh == CursorShelf(outputs, ed);
        assert UiStep(Ui(), canvas.State(), r) == u;
      } else {
        r := Ok(());
      }
    }

    /** runtime.tick(current_output): neither the ledger, the interface nor the
        canvas is touched. */
    method TickRuntime(probe: bool, render: Renderer) returns (did: Result<bool>)
      requires Valid()
      modifies runtime, currentOutput
      ensures Valid() && canvas.State() == old(canvas.State())
      ensures var cur := currentOutput;
              Runtime.TickSpec(runtime.externalKernel, runtime.showMimetypeDebug, old(runtime.state),
                               if cur == null then None else Some(old(cur.Record())),
                               old(runtime.files), old(runtime.iopub), probe, render)
              == Runtime.TickOutcome(runtime.state, if cur == null then None else Some(cur.Record()),
                                     runtime.files, runtime.iopub, did)
      ensures runtime.requests == old(runtime.requests)
    {
      assert runtime !in canvas.Repr();
      assert currentOutput == null || currentOutput !in canvas.Repr();
      ghost var cs := canvas.State();
      did := runtime.Tick(currentOutput, probe, render);
      assert canvas.State() == cs;
    }
  }
}
