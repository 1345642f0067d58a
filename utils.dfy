/**
 * Positions, spans and the extmark-backed positions of magma/utils.py, and the
 * nvimui wrapper that reports MagmaException to the user.
 *
 * The editor's extmark table and its line fetch are modelled here as well,
 * because a dynamic position reads its coordinates from the editor on every
 * access: AnchorTable holds the extmarks, and BufGetLines is the editor's
 * strict line fetch. Columns index characters (one byte per character).
 */
module Utils {
  import opened Common
  import opened PyStr

  // ---------------------------------------------------------------------------
  // Static positions and spans

  datatype Position = Position(bufno: int, lineno: int, colno: int)

  /** Position.__lt__: (lineno, colno) compared as a tuple; bufno takes no part. */
  predicate Lt(a: Position, b: Position)
  {
    if a.lineno != b.lineno then a.lineno < b.lineno else a.colno < b.colno
  }

  /** Position.__le__ */
  predicate Le(a: Position, b: Position)
  {
    if a.lineno != b.lineno then a.lineno < b.lineno else a.colno <= b.colno
  }

  /** The two comparisons form one lexicographic total order on (lineno, colno). */
  lemma PositionOrder(a: Position, b: Position, c: Position)
    ensures Le(a, b) <==> !Lt(b, a)
    ensures Lt(a, b) <==> Le(a, b) && (a.lineno != b.lineno || a.colno != b.colno)
    ensures Lt(a, b) && Lt(b, c) ==> Lt(a, c)
    ensures Le(a, b) && Le(b, c) ==> Le(a, c)
    ensures !Lt(a, a) && Le(a, a)
    ensures Lt(a, b) == Lt(a.(bufno := c.bufno), b)
  {
  }

  /** A span is half-open: it holds begin and excludes end. */
  datatype Span<P> = Span(begin: P, end: P)

  /** Span.__contains__ */
  predicate Contains(s: Span<Position>, pos: Position)
  {
    Le(s.begin, pos) && Lt(pos, s.end)
  }

  /** Membership by line: a position strictly inside the span's lines is held
      whatever its column; on the first or last line the column decides;
      outside those lines nothing is held. */
  lemma ContainsByLine(s: Span<Position>, pos: Position)
    ensures s.begin.lineno < pos.lineno < s.end.lineno ==> Contains(s, pos)
    ensures pos.lineno < s.begin.lineno || s.end.lineno < pos.lineno ==> !Contains(s, pos)
    ensures s.begin.lineno == pos.lineno == s.end.lineno ==>
              (Contains(s, pos) <==> s.begin.colno <= pos.colno < s.end.colno)
    ensures s.begin.lineno == pos.lineno < s.end.lineno ==> (Contains(s, pos) <==> s.begin.colno <= pos.colno)
    ensures s.begin.lineno < pos.lineno == s.end.lineno ==> (Contains(s, pos) <==> pos.colno < s.end.colno)
  {
  }

  /** A span whose end does not come after its begin holds no position. */
  lemma EmptySpanHoldsNothing(s: Span<Position>, pos: Position)
    requires Le(s.end, s.begin)
    ensures !Contains(s, pos)
  {
  }

  // ---------------------------------------------------------------------------
  // The editor's line fetch, nvim_buf_get_lines(buf, start, end, strict=True)

  /** An index as the editor normalises it: a negative index counts from one
      past the end; the flag reports an index outside 0..n. */
  function NormalizeLineIndex(n: nat, index: int): (r: (nat, bool))
    ensures r.0 <= n
    ensures !r.1 ==> r.0 == (if index < 0 then n + index + 1 else index)
  {
    var i := if index < 0 then n + index + 1 else index;
    if i > n then (n, true) else if i < 0 then (0, true) else (i, false)
  }

  /** The lines start..end (exclusive) of a document, refusing out-of-range indices. */
  function BufGetLines(doc: seq<string>, start: int, end: int): (r: Result<seq<string>>)
    ensures 0 <= start <= end <= |doc| ==> r == Ok(doc[start..end])
    ensures start > |doc| || end > |doc| || start < -(|doc| + 1) || end < -(|doc| + 1) ==> r.Err?
  {
    var (s, sOut) := NormalizeLineIndex(|doc|, start);
    var (e, eOut) := NormalizeLineIndex(|doc|, end);
    if sOut || eOut then Err(NvimError("Index out of bounds"))
    else if s >= e then assert doc[s..s] == []; Ok([])
    else Ok(doc[s..e])
  }

  // ---------------------------------------------------------------------------
  // Span.get_text

  /** Span.get_text, given the lines of the span's buffer. */
  function GetText(s: Span<Position>, doc: seq<string>): Result<string>
  {
    if s.begin.bufno != s.end.bufno then Err(AssertionError)
    else
      var lines :- BufGetLines(doc, s.begin.lineno, s.end.lineno + 1);
      if |lines| == 1 then Ok(Slice(lines[0], s.begin.colno, s.end.colno))
      else if |lines| == 0 then Err(IndexError("list index out of range"))
      else Ok(Join("\n", [SliceFrom(lines[0], s.begin.colno)] + lines[1..|lines| - 1]
                         + [SliceTo(lines[|lines| - 1], s.end.colno)]))
  }

  /** The pieces GetText joins for a span over lines bl..el of a document. */
  function SpanPieces(doc: seq<string>, bl: nat, bc: int, el: nat, ec: int): seq<string>
    requires bl < el < |doc|
  {
    [SliceFrom(doc[bl], bc)] + doc[bl + 1..el] + [SliceTo(doc[el], ec)]
  }

  /** A span on one line yields that line's slice between the two columns. */
  lemma GetTextOneLine(s: Span<Position>, doc: seq<string>)
    requires s.begin.bufno == s.end.bufno
    requires 0 <= s.begin.lineno == s.end.lineno < |doc|
    ensures GetText(s, doc) == Ok(Slice(doc[s.begin.lineno], s.begin.colno, s.end.colno))
  {
    assert BufGetLines(doc, s.begin.lineno, s.end.lineno + 1) == Ok(doc[s.begin.lineno..s.begin.lineno + 1]);
  }

  /** A span over several lines yields the tail of its first line, the whole lines
      between, and the head of its last line, one per line of the result. */
  lemma GetTextLines(s: Span<Position>, doc: seq<string>)
    requires s.begin.bufno == s.end.bufno
    requires 0 <= s.begin.lineno < s.end.lineno < |doc|
    requires forall k, i :: 0 <= k < |doc| && 0 <= i < |doc[k]| ==> doc[k][i] != '\n'
    ensures GetText(s, doc).Ok?
    ensures Split(GetText(s, doc).value, '\n')
            == SpanPieces(doc, s.begin.lineno, s.begin.colno, s.end.lineno, s.end.colno)
  {
    var bl, el := s.begin.lineno, s.end.lineno;
    var lines := doc[bl..el + 1];
    assert BufGetLines(doc, bl, el + 1) == Ok(lines);
    var pieces := SpanPieces(doc, bl, s.begin.colno, el, s.end.colno);
    assert |lines| == el + 1 - bl;
    assert lines[1..|lines| - 1] == doc[bl + 1..el] by {
      var inner, between := lines[1..|lines| - 1], doc[bl + 1..el];
      forall j | 0 <= j < |inner|
        ensures inner[j] == between[j]
      {
        assert inner[j] == lines[j + 1] == doc[bl + 1 + j];
      }
    }
    assert lines[0] == doc[bl] && lines[|lines| - 1] == doc[el];
    assert pieces == [SliceFrom(doc[bl], s.begin.colno)] + doc[bl + 1..el] + [SliceTo(doc[el], s.end.colno)];
    assert [SliceFrom(lines[0], s.begin.colno)] + lines[1..|lines| - 1]
           + [SliceTo(lines[|lines| - 1], s.end.colno)] == pieces;
    forall k, i | 0 <= k < |pieces| && 0 <= i < |pieces[k]|
      ensures pieces[k][i] != '\n'
    {
      if k == 0 {
        SliceChars(doc[bl], s.begin.colno, |doc[bl]|, i);
      } else if k == |pieces| - 1 {
        SliceChars(doc[el], 0, s.end.colno, i);
      } else {
        assert pieces[k] == doc[bl + k];
      }
    }
    SplitJoin(pieces, '\n');
  }

  /** Every element of a slice is an element of the sequence. */
  lemma SliceChars(line: string, start: int, stop: int, i: nat)
    requires i < |Slice(line, start, stop)|
    ensures exists j :: 0 <= j < |line| && Slice(line, start, stop)[i] == line[j]
  {
    var a := SliceBound(start, |line|);
    assert Slice(line, start, stop)[i] == line[a + i];
  }

  // ---------------------------------------------------------------------------
  // Extmarks and dynamic positions

  datatype MarkKey = MarkKey(bufno: int, namespace: int, id: nat)

  /** The editor's extmarks: each one is a (line, col) that the editor moves as
      the text around it is edited. */
  class AnchorTable {
    var marks: map<MarkKey, (int, int)>
    var nextId: nat

    ghost predicate Valid()
      reads this
    {
      forall k :: k in marks ==> k.id < nextId
    }

    constructor ()
      ensures Valid() && marks == map[]
    {
      marks := map[];
      nextId := 1;
    }

    /** nvim_buf_set_extmark(bufno, ns, line, col, {}) on a buffer with lines doc:
        the line must exist (or be one past the end), a col of -1 is the end of the
        line, and a col beyond the end is refused. */
    method SetExtmark(doc: seq<string>, bufno: int, ns: int, line: int, col: int) returns (r: Result<nat>)
      requires Valid()
      modifies this
      ensures Valid()
      ensures r == SetExtmarkOutcome(doc, line, col, old(nextId))
      ensures r.Ok? ==> MarkKey(bufno, ns, r.value) !in old(marks)
                        && marks == old(marks)[MarkKey(bufno, ns, r.value) := (line, ExtmarkCol(doc, line, col))]
      ensures r.Err? ==> marks == old(marks)
    {
      r := SetExtmarkOutcome(doc, line, col, nextId);
      if r.Ok? {
        marks := marks[MarkKey(bufno, ns, nextId) := (line, ExtmarkCol(doc, line, col))];
        nextId := nextId + 1;
      }
    }

    /** nvim_buf_del_extmark */
    method DelExtmark(key: MarkKey)
      requires Valid()
      modifies this
      ensures Valid() && marks == old(marks) - {key}
    {
      marks := marks - {key};
    }

    /** The editor moving a mark because the text before it changed. */
    method EditorMoves(key: MarkKey, line: int, col: int)
      requires Valid() && key in marks
      modifies this
      ensures Valid() && marks == old(marks)[key := (line, col)]
    {
      marks := marks[key := (line, col)];
    }
  }

  /** The length of line `line`; zero for the line one past the end. */
  function LineLength(doc: seq<string>, line: int): nat
  {
    if 0 <= line < |doc| then |doc[line]| else 0
  }

  /** The column an extmark is set at: -1 stands for the end of the line. */
  function ExtmarkCol(doc: seq<string>, line: int, col: int): int
  {
    if col == -1 then LineLength(doc, line) else col
  }

  /** The editor's answer to nvim_buf_set_extmark: the new mark's id, or its refusal. */
  function SetExtmarkOutcome(doc: seq<string>, line: int, col: int, id: nat): (r: Result<nat>)
    ensures r.Ok? <==> 0 <= line <= |doc| && -1 <= col <= LineLength(doc, line)
  {
    if line < 0 || line > |doc| then Err(NvimError("Invalid 'line': out of range"))
    else if col < -1 || col > LineLength(doc, line) then Err(NvimError("Invalid 'col': out of range"))
    else Ok(id)
  }

  /** A DynamicPosition: a buffer number and the extmark that carries its coordinates. */
  datatype DynamicPosition = DynamicPosition(bufno: int, namespace: int, extmarkId: nat)
  {
    function Key(): MarkKey
    {
      MarkKey(bufno, namespace, extmarkId)
    }
  }

  /** DynamicPosition.__init__: sets an extmark at (line, col) in buffer bufno. */
  method NewDynamicPosition(table: AnchorTable, doc: seq<string>, ns: int, bufno: int, line: int, col: int)
    returns (r: Result<DynamicPosition>)
    requires table.Valid()
    modifies table
    ensures table.Valid()
    ensures r.Ok? <==> 0 <= line <= |doc| && -1 <= col <= LineLength(doc, line)
    ensures r.Ok? ==> r.value.bufno == bufno && r.value.namespace == ns
                      && r.value.Key() !in old(table.marks)
                      && table.marks == old(table.marks)[r.value.Key() := (line, ExtmarkCol(doc, line, col))]
    ensures r.Err? ==> table.marks == old(table.marks) && r.error == SetExtmarkOutcome(doc, line, col, 0).error
  {
    var id := table.SetExtmark(doc, bufno, ns, line, col);
    match id
    case Ok(n) => r := Ok(DynamicPosition(bufno, ns, n));
    case Err(e) => r := Err(e);
  }

  /** DynamicPosition.__del__: removes its extmark. */
  method DropDynamicPosition(table: AnchorTable, p: DynamicPosition)
    requires table.Valid()
    modifies table
    ensures table.Valid() && table.marks == old(table.marks) - {p.Key()}
  {
    table.DelExtmark(p.Key());
  }

  /** _get_pos()[0] and _get_pos()[1]: the editor answers [] for an unknown mark,
      and indexing that raises IndexError. */
  function Resolve(marks: map<MarkKey, (int, int)>, p: DynamicPosition): (r: Result<Position>)
    ensures r.Ok? <==> p.Key() in marks
    ensures r.Ok? ==> r.value == Position(p.bufno, marks[p.Key()].0, marks[p.Key()].1)
  {
    if p.Key() in marks then Ok(Position(p.bufno, marks[p.Key()].0, marks[p.Key()].1))
    else Err(IndexError("list index out of range"))
  }

  /** A span of dynamic positions, read through the extmarks. */
  function ResolveSpan(marks: map<MarkKey, (int, int)>, s: Span<DynamicPosition>): Result<Span<Position>>
  {
    var b :- Resolve(marks, s.begin);
    var e :- Resolve(marks, s.end);
    Ok(Span(b, e))
  }

  /** `pos in span` for a span of dynamic positions: begin <= pos is read first and
      the end is read only when it holds. */
  function ContainsDynamic(marks: map<MarkKey, (int, int)>, s: Span<DynamicPosition>, pos: Position): Result<bool>
  {
    var b :- Resolve(marks, s.begin);
    if !Le(b, pos) then Ok(false)
    else
      var e :- Resolve(marks, s.end);
      Ok(Lt(pos, e))
  }

  /** Read through live extmarks, membership is Contains on the marks' coordinates;
      a missing begin mark always fails, a missing end mark only when begin <= pos. */
  lemma ContainsDynamicAgrees(marks: map<MarkKey, (int, int)>, s: Span<DynamicPosition>, pos: Position)
    ensures ResolveSpan(marks, s).Ok? ==> ContainsDynamic(marks, s, pos) == Ok(Contains(ResolveSpan(marks, s).value, pos))
    ensures s.begin.Key() !in marks ==> ContainsDynamic(marks, s, pos).Err?
    ensures ContainsDynamic(marks, s, pos).Err? ==> ResolveSpan(marks, s).Err?
  {
  }

  /** Span.get_text for a span of dynamic positions. */
  function GetTextDynamic(marks: map<MarkKey, (int, int)>, s: Span<DynamicPosition>, doc: seq<string>): Result<string>
  {
    var resolved :- ResolveSpan(marks, s);
    GetText(resolved, doc)
  }

  // ---------------------------------------------------------------------------
  // nvimui

  datatype CallOutcome = Completed | Raised(error: PyError)

  /** What the user sees from a wrapped call: the error messages written, and the
      exception that escapes the wrapper, if any. */
  datatype UiOutcome = UiOutcome(errWrites: seq<string>, propagated: Option<PyError>)

  /** nvimui: a MagmaException becomes one "[Magma] ..." error line; any other
      exception escapes unchanged; a call that returns shows nothing. */
  function NvimUi(o: CallOutcome): (r: UiOutcome)
    ensures |r.errWrites| <= 1
    ensures |r.errWrites| == 1 <==> o.Raised? && o.error.MagmaException?
    ensures |r.errWrites| == 1 ==> |r.errWrites[0]| == |o.error.message| + 9
    ensures |r.errWrites| == 1 ==> r.errWrites[0][..8] == "[Magma] "
                                   && r.errWrites[0][8..|r.errWrites[0]| - 1] == o.error.message
                                   && r.errWrites[0][|r.errWrites[0]| - 1] == '\n'
    ensures r.propagated.Some? <==> o.Raised? && !o.error.MagmaException?
    ensures r.propagated.Some? ==> r.propagated.value == o.error
  {
    match o
    case Completed => UiOutcome([], None)
    case Raised(e) =>
      if e.MagmaException? then UiOutcome(["[Magma] " + e.message + "\n"], None)
      else UiOutcome([], Some(e))
  }
}
