/**
 * Saving a buffer's outputs to a JSON file and loading them back (magma/io.py).
 *
 * A save file records the kernel, a checksum of the buffer's text and, for each
 * cell of the ledger, its span, execution count, status, success flag and the
 * Jupyter bundles of its chunks. Loading checks the file cell by cell; the
 * checksum (md5 of the lines joined by newlines) is an opaque digest function,
 * and the conversion of a bundle back to a chunk goes through the renderers of
 * OutputChunks, which may allocate files in the runtime.
 */
module SaveIO {
  import opened Common
  import opened Json
  import PyStr
  import opened Utils
  import opened Options
  import opened OutputChunks
  import Runtime
  import OutputLayout
  import Ledger
  import Images

  // ---------------------------------------------------------------------------
  // MagmaIOError.assert_has_key

  /** type_.__name__ */
  function TypeName(t: PyType): string
  {
    match t
    case DictType => "dict"
    case ListType => "list"
    case IntType => "int"
    case BoolType => "bool"
    case StrType => "str"
  }

  /** type(value).__name__ */
  function ValueTypeName(j: Json): string
  {
    match j
    case JNull => "NoneType"
    case JBool(_) => "bool"
    case JInt(_) => "int"
    case JFloat(_) => "float"
    case JStr(_) => "str"
    case JList(_) => "list"
    case JObject(_) => "dict"
  }

  /** The message of a type mismatch; the line continuation inside the literal
      keeps the next line's indentation. */
  function TypeMismatch(key: string, t: PyType, value: Json): PyError
  {
    MagmaIOError("Incorrect type for key '" + key + "': expected " + TypeName(t) + ", "
                 + "                " + "got " + ValueTypeName(value))
  }

  /** assert_has_key(data, key, type_): `key in data`, then data[key], then the
      isinstance check when a type is given. */
  function AssertHasKey(data: Json, key: string, t: Option<PyType>): (r: Result<Json>)
    ensures r.Ok? ==> data.JObject? && Lookup(data.entries, key) == Some(r.value)
    ensures r.Ok? && t.Some? ==> IsInstance(r.value, t.value)
    ensures data.JObject? && Lookup(data.entries, key).None? ==> r == Err(MagmaIOError("Missing key: " + key))
    ensures data.JObject? && Lookup(data.entries, key).Some? && t.Some? && !IsInstance(Lookup(data.entries, key).value, t.value)
            ==> r == Err(TypeMismatch(key, t.value, Lookup(data.entries, key).value))
  {
    var present :- HasKey(data, key);
    if !present then Err(MagmaIOError("Missing key: " + key))
    else
      var value :- Index(data, key);
      if t.Some? && !IsInstance(value, t.value) then Err(TypeMismatch(key, t.value, value))
      else Ok(value)
  }

  /** A dict holding the key with a value of the type gives that value. */
  lemma AssertHasKeyFound(entries: seq<(string, Json)>, key: string, t: PyType, value: Json)
    requires Lookup(entries, key) == Some(value) && IsInstance(value, t)
    ensures AssertHasKey(JObject(entries), key, Some(t)) == Ok(value)
  {
  }

  /** A dict holding the key with a value of another type gives the mismatch error. */
  lemma AssertHasKeyMismatch(entries: seq<(string, Json)>, key: string, t: PyType, value: Json)
    requires Lookup(entries, key) == Some(value) && !IsInstance(value, t)
    ensures AssertHasKey(JObject(entries), key, Some(t)) == Err(TypeMismatch(key, t, value))
  {
  }

  /** The isinstance check lets a bool through where an int is asked for, but not
      an int where a bool is. */
  lemma BoolPassesAsInt(entries: seq<(string, Json)>, key: string, b: bool, i: int)
    ensures Lookup(entries, key) == Some(JBool(b)) ==> AssertHasKey(JObject(entries), key, Some(IntType)) == Ok(JBool(b))
    ensures Lookup(entries, key) == Some(JInt(i)) ==> AssertHasKey(JObject(entries), key, Some(BoolType)).Err?
  {
  }

  // ---------------------------------------------------------------------------
  // get_default_save_file

  /** The buffer name with "%" doubled, then every "/" turned into "%". */
  function Mangle(name: string): string
  {
    PyStr.Replace(PyStr.Replace(name, "%", "%%"), "/", "%")
  }

  /** A mangled name holds no "/", so it names a file directly in the save directory. */
  lemma MangleNoSlash(name: string)
    ensures forall i :: 0 <= i < |Mangle(name)| ==> Mangle(name)[i] != '/'
  {
    PyStr.ReplaceRemoves(PyStr.Replace(name, "%", "%%"), '/', "%");
  }

  /** Mangling adds one character per "%" of the name. */
  lemma MangleLength(name: string)
    ensures |Mangle(name)| == |name| + PyStr.Count(name, "%")
  {
    var doubled := PyStr.Replace(name, "%", "%%");
    PyStr.ReplaceLength(name, "%", "%%");
    PyStr.ReplaceLength(doubled, "/", "%");
  }

  /** Mangling is not injective: two names can share a save file. */
  lemma MangleCollides()
    ensures "a/%" != "a%/" && Mangle("a/%") == Mangle("a%/")
  {
    assert "a/%"[1] != "a%/"[1];
    DoublePercentFirst();
    SlashAfterDoubled();
    DoublePercentLast();
    SlashBeforeDoubled();
  }

  lemma DoublePercentFirst()
    ensures PyStr.Replace("a/%", "%", "%%") == "a/%%"
  {
    assert ['%'] + "" == "%";
    PyStr.ReplaceCharStep('%', "", '%', "%%");
    assert ['/'] + "%" == "/%";
    PyStr.ReplaceCharStep('/', "%", '%', "%%");
    assert ['a'] + "/%" == "a/%";
    PyStr.ReplaceCharStep('a', "/%", '%', "%%");
  }

  lemma SlashAfterDoubled()
    ensures PyStr.Replace("a/%%", "/", "%") == "a%%%"
  {
    assert ['%'] + "" == "%";
    PyStr.ReplaceCharStep('%', "", '/', "%");
    assert ['%'] + "%" == "%%";
    PyStr.ReplaceCharStep('%', "%", '/', "%");
    assert ['/'] + "%%" == "/%%";
    PyStr.ReplaceCharStep('/', "%%", '/', "%");
    assert ['a'] + "/%%" == "a/%%";
    PyStr.ReplaceCharStep('a', "/%%", '/', "%");
  }

  lemma DoublePercentLast()
    ensures PyStr.Replace("a%/", "%", "%%") == "a%%/"
  {
    assert ['/'] + "" == "/";
    PyStr.ReplaceCharStep('/', "", '%', "%%");
    assert ['%'] + "/" == "%/";
    PyStr.ReplaceCharStep('%', "/", '%', "%%");
    assert ['a'] + "%/" == "a%/";
    PyStr.ReplaceCharStep('a', "%/", '%', "%%");
  }

  lemma SlashBeforeDoubled()
    ensures PyStr.Replace("a%%/", "/", "%") == "a%%%"
  {
    assert ['/'] + "" == "/";
    PyStr.ReplaceCharStep('/', "", '/', "%");
    assert ['%'] + "/" == "%/";
    PyStr.ReplaceCharStep('%', "/", '/', "%");
    assert ['%'] + "%/" == "%%/";
    PyStr.ReplaceCharStep('%', "%/", '/', "%");
    assert ['a'] + "%%/" == "a%%/";
    PyStr.ReplaceCharStep('a', "%%/", '/', "%");
  }

  /** getattr(options, name) for the str-valued options: the attributes the
      options object has, and AttributeError for any other name. */
  function StrAttribute(o: MagmaOptions, name: string): Result<string>
  {
    if name == "cell_highlight_group" then Ok(o.cellHighlightGroup)
    else if name == "save_cell" then Ok(o.saveCell)
    else if name == "image_provider" then Ok(o.imageProvider)
    else if name == "enter_output_behavior" then Ok(o.enterOutputBehavior)
    else Err(AttributeError("'MagmaOptions' object has no attribute '" + name + "'"))
  }

  /** os.path.join(a, b) for a relative b. */
  function PathJoin(a: string, b: string): string
  {
    if |b| > 0 && b[0] == '/' then b
    else if |a| == 0 || a[|a| - 1] == '/' then a + b
    else a + "/" + b
  }

  /** os.path.basename: what follows the last "/". */
  function Basename(p: string): string
  {
    if |p| == 0 || p[|p| - 1] == '/' then "" else Basename(p[..|p| - 1]) + [p[|p| - 1]]
  }

  /** get_default_save_file as written: the directory is read from the options
      attribute save_path, which the options object does not have. */
  function GetDefaultSaveFileAsWritten(o: MagmaOptions, buftype: string, name: string): (r: Result<string>)
    ensures PyStr.IsSubstring("nofile", buftype) ==> r == Err(MagmaException("Buffer does not correspond to a file"))
    ensures r.Err?
  {
    if PyStr.IsSubstring("nofile", buftype) then Err(MagmaException("Buffer does not correspond to a file"))
    else
      match StrAttribute(o, "save_path")
      case Err(e) => Err(e)
      case Ok(dir) => Ok(PathJoin(dir, Mangle(name) + ".json"))
  }

  /** The default save file can never be computed: a buffer with a file fails
      for want of the save_path attribute. */
  lemma DefaultSaveFileUnreachable(o: MagmaOptions, buftype: string, name: string)
    ensures !PyStr.IsSubstring("nofile", buftype)
            ==> GetDefaultSaveFileAsWritten(o, buftype, name) == Err(AttributeError("'MagmaOptions' object has no attribute 'save_path'"))
  {
    var n := "save_path";
    assert n[0] != "cell_highlight_group"[0] && n[0] != "image_provider"[0] && n[0] != "enter_output_behavior"[0];
    assert n[5] != "save_cell"[5];
    assert StrAttribute(o, n) == Err(AttributeError("'MagmaOptions' object has no attribute '" + n + "'"));
    assert "'MagmaOptions' object has no attribute '" + n + "'" == "'MagmaOptions' object has no attribute 'save_path'";
  }

  /** get_default_save_file with the directory the options do hold (save_cell). */
  function GetDefaultSaveFile(o: MagmaOptions, buftype: string, name: string): (r: Result<string>)
    ensures r.Ok? <==> !PyStr.IsSubstring("nofile", buftype)
    ensures r.Err? ==> r.error == MagmaException("Buffer does not correspond to a file")
  {
    if PyStr.IsSubstring("nofile", buftype) then Err(MagmaException("Buffer does not correspond to a file"))
    else
      match StrAttribute(o, "save_cell")
      case Err(e) => Err(e)
      case Ok(dir) => Ok(PathJoin(dir, Mangle(name) + ".json"))
  }

  /** The basename of a path that ends in a "/"-free name after a "/" (or with
      nothing before it) is that name. */
  lemma {:induction false} BasenameAfterSlash(d: string, m: string)
    requires |d| == 0 || d[|d| - 1] == '/'
    requires forall i :: 0 <= i < |m| ==> m[i] != '/'
    ensures Basename(d + m) == m
    decreases |m|
  {
    if |m| == 0 {
      assert d + m == d;
    } else {
      var p := d + m;
      assert p[|p| - 1] == m[|m| - 1];
      assert p[..|p| - 1] == d + m[..|m| - 1];
      assert Basename(p) == Basename(d + m[..|m| - 1]) + [m[|m| - 1]];
      BasenameAfterSlash(d, m[..|m| - 1]);
      assert m[..|m| - 1] + [m[|m| - 1]] == m;
    }
  }

  /** The save file of a file buffer lies in the save directory and is named after
      the mangled buffer name. */
  lemma SaveFileInDirectory(o: MagmaOptions, buftype: string, name: string)
    requires !PyStr.IsSubstring("nofile", buftype)
    ensures o.saveCell <= GetDefaultSaveFile(o, buftype, name).value
    ensures Basename(GetDefaultSaveFile(o, buftype, name).value) == Mangle(name) + ".json"
  {
    var m := Mangle(name) + ".json";
    MangleNoSlash(name);
    assert forall i :: 0 <= i < |m| ==> m[i] != '/' by {
      forall i | 0 <= i < |m| ensures m[i] != '/' {
        if i < |Mangle(name)| {
          assert m[i] == Mangle(name)[i];
        } else {
          assert m[i] == ".json"[i - |Mangle(name)|];
        }
      }
    }
    var dir := o.saveCell;
    if |dir| == 0 || dir[|dir| - 1] == '/' {
      BasenameAfterSlash(dir, m);
    } else {
      BasenameAfterSlash(dir + "/", m);
      assert dir + "/" + m == (dir + "/") + m;
    }
  }

  // ---------------------------------------------------------------------------
  // save

  /** _get_content_checksum: the digest of the buffer's lines joined by newlines. */
  type Digest = string -> string

  function Checksum(digest: Digest, doc: seq<string>): string
  {
    digest(PyStr.Join("\n", doc))
  }

  function CountJson(c: Option<int>): Json
  {
    if c.Some? then JInt(c.value) else JNull
  }

  function PositionJson(p: Position): Json
  {
    JObject([("lineno", JInt(p.lineno)), ("colno", JInt(p.colno))])
  }

  /** The chunks save keeps: those that carry both their data and metadata, in order. */
  function KeptChunks(cs: seq<OutputChunk>): (k: seq<OutputChunk>)
    ensures |k| <= |cs|
    ensures forall i :: 0 <= i < |k| ==> k[i] in cs && k[i].jupyterData.Some? && k[i].jupyterMetadata.Some?
    ensures forall i :: 0 <= i < |cs| && cs[i].jupyterData.Some? && cs[i].jupyterMetadata.Some? ==> cs[i] in k
  {
    if |cs| == 0 then []
    else
      var rest := KeptChunks(cs[1..]);
      assert forall i :: 1 <= i < |cs| ==> cs[i] == cs[1..][i - 1];
      if cs[0].jupyterData.Some? && cs[0].jupyterMetadata.Some? then [cs[0]] + rest else rest
  }

  function ChunkJson(data: Json, metadata: Json): Json
  {
    JObject([("data", data), ("metadata", metadata)])
  }

  /** The chunk list save writes: the bundle of each kept chunk, in order. */
  function SavedChunks(cs: seq<OutputChunk>): (r: seq<Json>)
    ensures |r| == |KeptChunks(cs)|
  {
    if |cs| == 0 then []
    else
      var c := cs[0];
      if c.jupyterData.Some? && c.jupyterMetadata.Some? then
        [ChunkJson(c.jupyterData.value, c.jupyterMetadata.value)] + SavedChunks(cs[1..])
      else SavedChunks(cs[1..])
  }

  function SpanJson(s: Span<Position>): Json
  {
    JObject([("begin", PositionJson(s.begin)), ("end", PositionJson(s.end))])
  }

  /** The entry of one cell: its span (read through the extmarks) and its output. */
  function CellEntries(s: Span<Position>, o: OutputRecord): seq<(string, Json)>
  {
    [("span", SpanJson(s)),
     ("execution_count", CountJson(o.executionCount)),
     ("status", JInt(o.status.Value())),
     ("success", JBool(o.success)),
     ("chunks", JList(SavedChunks(o.chunks)))]
  }

  function CellJson(s: Span<Position>, o: OutputRecord): Json
  {
    JObject(CellEntries(s, o))
  }

  /** The document save writes, for the cells as save reads them. */
  function SaveJson(kernel: string, checksum: string, views: seq<(Span<Position>, OutputRecord)>): Json
  {
    JObject([("version", JInt(1)), ("kernel", JStr(kernel)), ("content_checksum", JStr(checksum)),
             ("cells", JList(CellsJson(views)))])
  }

  function CellsJson(views: seq<(Span<Position>, OutputRecord)>): (r: seq<Json>)
    ensures |r| == |views|
    ensures forall i :: 0 <= i < |views| ==> r[i] == CellJson(views[i].0, views[i].1)
  {
    if |views| == 0 then []
    else
      assert forall i :: 1 <= i < |views| ==> views[i] == views[1..][i - 1];
      [CellJson(views[0].0, views[0].1)] + CellsJson(views[1..])
  }

  /** The objects save reads through the ledger's entries. */
  function Footprint(cells: seq<Ledger.Cell>): set<object>
    reads set i | 0 <= i < |cells| && cells[i].entry.BufferEntry? :: cells[i].entry.buffer
  {
    (set i | 0 <= i < |cells| && cells[i].entry.BufferEntry? :: cells[i].entry.buffer)
    + (set i | 0 <= i < |cells| && cells[i].entry.BufferEntry? :: cells[i].entry.buffer.output)
  }

  /** output.output: only an OutputBuffer has the attribute. */
  function EntryRecord(e: Ledger.CellEntry): (r: Result<OutputRecord>)
    reads if e.BufferEntry? then {e.buffer, e.buffer.output} else {}
    ensures r.Ok? <==> e.BufferEntry?
  {
    if e.BufferEntry? then Ok(e.buffer.output.Record())
    else if e.output == null then Err(AttributeError("'NoneType' object has no attribute 'output'"))
    else Err(AttributeError("'Output' object has no attribute 'output'"))
  }

  /** What save reads from the cells, in the ledger's order. */
  function CellViews(cells: seq<Ledger.Cell>, marks: map<MarkKey, (int, int)>): (r: Result<seq<(Span<Position>, OutputRecord)>>)
    reads Footprint(cells)
    ensures r.Ok? ==> |r.value| == |cells|
    ensures r.Ok? ==> forall i :: 0 <= i < |cells| ==>
              (cells[i].entry.BufferEntry?
               && ResolveSpan(marks, cells[i].span) == Ok(r.value[i].0)
               && r.value[i].1 == cells[i].entry.buffer.output.Record())
  {
    if |cells| == 0 then Ok([])
    else
      assert Footprint(cells[1..]) <= Footprint(cells) by {
        forall i | 0 <= i < |cells[1..]| ensures cells[1..][i] == cells[i + 1] { }
      }
      var s :- ResolveSpan(marks, cells[0].span);
      var o :- EntryRecord(cells[0].entry);
      var rest :- CellViews(cells[1..], marks);
      assert forall i :: 1 <= i < |cells| ==> cells[i] == cells[1..][i - 1];
      Ok([(s, o)] + rest)
  }

  /** save(magmabuffer): the runtime's kernel, the buffer's checksum and every cell. */
  function Save(mb: Ledger.MagmaBuffer, digest: Digest, doc: seq<string>, marks: map<MarkKey, (int, int)>): (r: Result<Json>)
    reads mb, Footprint(mb.outputs)
    ensures r.Ok? ==> forall i :: 0 <= i < |mb.outputs| ==> mb.outputs[i].entry.BufferEntry?
  {
    var views :- CellViews(mb.outputs, marks);
    Ok(SaveJson(mb.runtime.kernelName, Checksum(digest, doc), views))
  }

  /** A ledger holding an Output (as run_code stores it) cannot be saved. */
  lemma SaveRefusesOutputs(mb: Ledger.MagmaBuffer, digest: Digest, doc: seq<string>, marks: map<MarkKey, (int, int)>, i: int)
    requires 0 <= i < |mb.outputs| && mb.outputs[i].entry.OutputEntry?
    ensures Save(mb, digest, doc, marks).Err?
  {
  }

  // ---------------------------------------------------------------------------
  // load, on values

  /** A cell as load reads it: the span's coordinates and the output it builds. */
  datatype LoadedCell = LoadedCell(beginLine: int, beginCol: int, endLine: int, endCol: int, record: OutputRecord)

  /** The chunks converted so far, the files the renderers allocated, and the
      exception that stopped the conversion, if any. */
  datatype ChunkLoad = ChunkLoad(chunks: seq<OutputChunk>, files: seq<string>, error: Option<PyError>)

  datatype CellLoad = CellLoad(cell: Result<LoadedCell>, files: seq<string>)

  /** The cells read before load stopped, the files allocated, and the exception. */
  datatype Loading = Loading(cells: seq<LoadedCell>, files: seq<string>, error: Option<PyError>)

  /** One chunk entry: a dict data and a dict metadata, converted by to_outputchunk. */
  function LoadChunk(chunk: Json, render: Renderer): Conversion
  {
    match AssertHasKey(chunk, "data", Some(DictType))
    case Err(e) => Conversion(Err(e), [])
    case Ok(data) =>
      match AssertHasKey(chunk, "metadata", Some(DictType))
      case Err(e) => Conversion(Err(e), [])
      case Ok(metadata) => ResolveChunk(data, metadata, render)
  }

  /** The chunk loop: the chunks before the first failing entry, and its exception. */
  function LoadChunks(items: seq<Json>, render: Renderer): ChunkLoad
  {
    if |items| == 0 then ChunkLoad([], [], None)
    else
      var c := LoadChunk(items[0], render);
      if c.chunk.Err? then ChunkLoad([], c.files, Some(c.chunk.error))
      else
        var rest := LoadChunks(items[1..], render);
        ChunkLoad([c.chunk.value] + rest.chunks, c.files + rest.files, rest.error)
  }

  /** The chunk loop converts a prefix of the entries, and fails exactly when it
      stops short, with the exception of the entry it stopped at. */
  lemma LoadChunksStops(items: seq<Json>, render: Renderer)
    ensures |LoadChunks(items, render).chunks| <= |items|
    ensures forall i :: 0 <= i < |LoadChunks(items, render).chunks| ==> LoadChunk(items[i], render).chunk == Ok(LoadChunks(items, render).chunks[i])
    ensures LoadChunks(items, render).error.None? <==> |LoadChunks(items, render).chunks| == |items|
    ensures LoadChunks(items, render).error.Some? ==> LoadChunk(items[|LoadChunks(items, render).chunks|], render).chunk == Err(LoadChunks(items, render).error.value)
  {
    var cs := Conversions(items, render);
    LoadChunksCollect(items, render);
    CollectStops(cs);
  }

  /** The conversions of the entries, in order. */
  function Conversions(items: seq<Json>, render: Renderer): (r: seq<Conversion>)
    ensures |r| == |items| && forall i :: 0 <= i < |items| ==> r[i] == LoadChunk(items[i], render)
  {
    seq(|items|, i requires 0 <= i < |items| => LoadChunk(items[i], render))
  }

  /** The chunk loop over conversions already made: the chunks before the first
      failure, and its exception. */
  function Collect(cs: seq<Conversion>): ChunkLoad
  {
    if |cs| == 0 then ChunkLoad([], [], None)
    else if cs[0].chunk.Err? then ChunkLoad([], cs[0].files, Some(cs[0].chunk.error))
    else
      var rest := Collect(cs[1..]);
      ChunkLoad([cs[0].chunk.value] + rest.chunks, cs[0].files + rest.files, rest.error)
  }

  /** The chunk loop is Collect over the entries' conversions. */
  lemma {:induction false} LoadChunksCollect(items: seq<Json>, render: Renderer)
    ensures LoadChunks(items, render) == Collect(Conversions(items, render))
    decreases |items|
  {
    if |items| > 0 {
      LoadChunksCollect(items[1..], render);
      assert Conversions(items, render)[1..] == Conversions(items[1..], render);
    }
  }

  /** Collect keeps a prefix of the conversions' chunks, and fails exactly when it
      stops short, with the exception of the conversion it stopped at. */
  lemma {:induction false} CollectStops(cs: seq<Conversion>)
    ensures |Collect(cs).chunks| <= |cs|
    ensures forall i :: 0 <= i < |Collect(cs).chunks| ==> cs[i].chunk == Ok(Collect(cs).chunks[i])
    ensures Collect(cs).error.None? <==> |Collect(cs).chunks| == |cs|
    ensures Collect(cs).error.Some? ==> |Collect(cs).chunks| < |cs| && cs[|Collect(cs).chunks|].chunk == Err(Collect(cs).error.value)
    decreases |cs|
  {
    if |cs| > 0 && cs[0].chunk.Ok? {
      CollectStops(cs[1..]);
      var rest := Collect(cs[1..]);
      assert forall i :: 1 <= i < |cs| ==> cs[i] == cs[1..][i - 1];
      assert Collect(cs).chunks == [cs[0].chunk.value] + rest.chunks;
    }
  }

  /** The line and column of a position dict. */
  function PositionCoordinates(p: Json): Result<(int, int)>
  {
    var line :- AssertHasKey(p, "lineno", Some(IntType));
    var col :- AssertHasKey(p, "colno", Some(IntType));
    Ok((IntValue(line), IntValue(col)))
  }

  /** The coordinates of a span dict, checked in load's order. */
  function SpanCoordinates(span: Json): Result<(int, int, int, int)>
  {
    var begin :- AssertHasKey(span, "begin", Some(DictType));
    var b :- PositionCoordinates(begin);
    var end :- AssertHasKey(span, "end", Some(DictType));
    var e :- PositionCoordinates(end);
    Ok((b.0, b.1, e.0, e.1))
  }

  /** The span's four coordinates. */
  function SpanFields(cell: Json): Result<(int, int, int, int)>
  {
    var span :- AssertHasKey(cell, "span", Some(DictType));
    SpanCoordinates(span)
  }

  /** The output fields, checked in load's order: the count, the status (which
      must be a member of OutputStatus), the success flag and the chunk list. */
  function OutputFields(cell: Json): Result<(int, OutputStatus, bool, seq<Json>)>
  {
    var count :- AssertHasKey(cell, "execution_count", Some(IntType));
    var status :- AssertHasKey(cell, "status", Some(IntType));
    var st :- StatusFromValue(IntValue(status));
    var success :- AssertHasKey(cell, "success", Some(BoolType));
    var chunks :- AssertHasKey(cell, "chunks", Some(ListType));
    Ok((IntValue(count), st, success.b, chunks.items))
  }

  /** The output a cell entry builds, and the files its chunks allocated. */
  datatype OutputLoad = OutputLoad(record: Result<OutputRecord>, files: seq<string>)

  /** The output part of load's cell loop: the fields in order, then the chunks;
      the output is marked old and no clear is pending. */
  function OutputOf(cell: Json, render: Renderer): (o: OutputLoad)
    ensures o.record.Ok? ==> o.record.value.isOld && o.record.value.executionCount.Some? && !o.record.value.shouldClear
  {
    match OutputFields(cell)
    case Err(e) => OutputLoad(Err(e), [])
    case Ok(h) =>
      var l := LoadChunks(h.3, render);
      if l.error.Some? then OutputLoad(Err(l.error.value), l.files)
      else OutputLoad(Ok(OutputRecord(Some(h.0), l.chunks, h.1, h.2, true, false)), l.files)
  }

  /** One iteration of load's cell loop: the span, its two extmarks (which the
      editor refuses outside the document), then the output. */
  function LoadCell(cell: Json, doc: seq<string>, render: Renderer): (l: CellLoad)
    ensures l.cell.Ok? ==> l.cell.value.record.isOld && l.cell.value.record.executionCount.Some?
  {
    match SpanFields(cell)
    case Err(e) => CellLoad(Err(e), [])
    case Ok(f) =>
      var bm := SetExtmarkOutcome(doc, f.0, f.1, 0);
      var em := SetExtmarkOutcome(doc, f.2, f.3, 0);
      if bm.Err? then CellLoad(Err(bm.error), [])
      else if em.Err? then CellLoad(Err(em.error), [])
      else
        var o := OutputOf(cell, render);
        if o.record.Err? then CellLoad(Err(o.record.error), o.files)
        else CellLoad(Ok(LoadedCell(f.0, f.1, f.2, f.3, o.record.value)), o.files)
  }

  /** The cell loop, for any reader of one cell: the cells before the first one
      that fails, and its exception. */
  function Gather(items: seq<Json>, load: Json -> CellLoad): Loading
  {
    if |items| == 0 then Loading([], [], None)
    else
      var c := load(items[0]);
      if c.cell.Err? then Loading([], c.files, Some(c.cell.error))
      else
        var rest := Gather(items[1..], load);
        Loading([c.cell.value] + rest.cells, c.files + rest.files, rest.error)
  }

  /** The cell loop reads a prefix of the cells, and fails exactly when it stops
      short, with the exception of the cell it stopped at. */
  lemma {:induction false} GatherStops(items: seq<Json>, load: Json -> CellLoad)
    ensures |Gather(items, load).cells| <= |items|
    ensures forall i :: 0 <= i < |Gather(items, load).cells| ==> load(items[i]).cell == Ok(Gather(items, load).cells[i])
    ensures Gather(items, load).error.None? <==> |Gather(items, load).cells| == |items|
    ensures Gather(items, load).error.Some? ==>
              load(items[|Gather(items, load).cells|]).cell == Err(Gather(items, load).error.value)
    decreases |items|
  {
    if |items| > 0 && load(items[0]).cell.Ok? {
      GatherStops(items[1..], load);
      assert forall i :: 1 <= i < |items| ==> items[i] == items[1..][i - 1];
    }
  }

  /** The reader of one cell of load's loop. */
  function Loader(doc: seq<string>, render: Renderer): (load: Json -> CellLoad)
    ensures forall c :: load(c) == LoadCell(c, doc, render)
  {
    c => LoadCell(c, doc, render)
  }

  /** load's cell loop. */
  function LoadCells(items: seq<Json>, doc: seq<string>, render: Renderer): Loading
  {
    Gather(items, Loader(doc, render))
  }

  /** LoadCells reads a prefix of the cells, and fails exactly when it stops
      short, with the exception of the cell it stopped at. */
  lemma LoadCellsStops(items: seq<Json>, doc: seq<string>, render: Renderer)
    ensures |LoadCells(items, doc, render).cells| <= |items|
    ensures forall i :: 0 <= i < |LoadCells(items, doc, render).cells| ==>
              LoadCell(items[i], doc, render).cell == Ok(LoadCells(items, doc, render).cells[i])
    ensures LoadCells(items, doc, render).error.None? <==> |LoadCells(items, doc, render).cells| == |items|
    ensures LoadCells(items, doc, render).error.Some? ==>
              LoadCell(items[|LoadCells(items, doc, render).cells|], doc, render).cell == Err(LoadCells(items, doc, render).error.value)
  {
    GatherStops(items, Loader(doc, render));
  }

  const ChecksumMismatch: PyError := MagmaIOError("Buffer contents' checksum does not match!")

  /** load(magmabuffer, data) on values, for a buffer whose checksum is `checksum`. */
  function LoadSpec(data: Json, checksum: string, doc: seq<string>, render: Renderer): Loading
  {
    match AssertHasKey(data, "content_checksum", Some(StrType))
    case Err(e) => Loading([], [], Some(e))
    case Ok(cs) =>
      if checksum != cs.s then Loading([], [], Some(ChecksumMismatch))
      else
        match AssertHasKey(data, "cells", Some(ListType))
        case Err(e) => Loading([], [], Some(e))
        case Ok(cells) => LoadCells(cells.items, doc, render)
  }

  /** The checksum is compared before any cell is read: a file for other contents
      loads nothing and allocates nothing. */
  lemma ChecksumGuard(data: Json, checksum: string, saved: string, doc: seq<string>, render: Renderer)
    requires AssertHasKey(data, "content_checksum", Some(StrType)) == Ok(JStr(saved)) && saved != checksum
    ensures LoadSpec(data, checksum, doc, render) == Loading([], [], Some(ChecksumMismatch))
  {
  }

  /** The span a loaded cell's extmarks hold: col -1 stands for the end of its line. */
  function Anchored(c: LoadedCell, bufno: int, doc: seq<string>): Span<Position>
  {
    Span(Position(bufno, c.beginLine, ExtmarkCol(doc, c.beginLine, c.beginCol)),
         Position(bufno, c.endLine, ExtmarkCol(doc, c.endLine, c.endCol)))
  }

  // ---------------------------------------------------------------------------
  // Round trip

  /** What loading gives back for a saved cell: its chunks are the kept ones, it
      is marked old, and no clear is pending. */
  function Reloaded(s: Span<Position>, o: OutputRecord): LoadedCell
  {
    LoadedCell(s.begin.lineno, s.begin.colno, s.end.lineno, s.end.colno,
               o.(chunks := KeptChunks(o.chunks), isOld := true, shouldClear := false))
  }

  /** A chunk save keeps comes back as itself: its bundle is a pair of dicts and
      the renderers convert it to the same chunk again. */
  predicate Reproducible(c: OutputChunk, render: Renderer)
  {
    c.jupyterData.Some? && c.jupyterMetadata.Some? && c.jupyterData.value.JObject? && c.jupyterMetadata.value.JObject?
    && ResolveChunk(c.jupyterData.value, c.jupyterMetadata.value, render).chunk == Ok(c)
  }

  /** A position the editor accepts an extmark at. */
  predicate Markable(p: Position, doc: seq<string>)
  {
    0 <= p.lineno <= |doc| && -1 <= p.colno <= LineLength(doc, p.lineno)
  }

  /** A cell save writes can be loaded back. */
  predicate Restorable(s: Span<Position>, o: OutputRecord, doc: seq<string>, render: Renderer)
  {
    o.executionCount.Some? && Markable(s.begin, doc) && Markable(s.end, doc)
    && forall i :: 0 <= i < |o.chunks| && o.chunks[i].jupyterData.Some? && o.chunks[i].jupyterMetadata.Some?
                   ==> Reproducible(o.chunks[i], render)
  }

  /** dict lookup finds the first item with the key. */
  lemma {:induction false} LookupIndex(entries: seq<(string, Json)>, i: nat)
    requires i < |entries| && forall j :: 0 <= j < i ==> entries[j].0 != entries[i].0
    ensures Lookup(entries, entries[i].0) == Some(entries[i].1)
    decreases i
  {
    if i > 0 {
      assert entries[1..][i - 1] == entries[i];
      assert forall j :: 0 <= j < i - 1 ==> entries[1..][j] == entries[j + 1];
      LookupIndex(entries[1..], i - 1);
    }
  }

  /** A chunk save keeps reads back as itself. */
  lemma ChunkRoundTrip(c: OutputChunk, render: Renderer)
    requires Reproducible(c, render)
    ensures LoadChunk(ChunkJson(c.jupyterData.value, c.jupyterMetadata.value), render).chunk == Ok(c)
  {
    var entries := ChunkJson(c.jupyterData.value, c.jupyterMetadata.value).entries;
    FieldAt(entries, 0, DictType);
    assert entries[0].0 != entries[1].0;
    FieldAt(entries, 1, DictType);
  }

  /** The chunk loop past an entry that converts. */
  lemma LoadChunksCons(x: Json, rest: seq<Json>, render: Renderer)
    requires LoadChunk(x, render).chunk.Ok?
    ensures LoadChunks([x] + rest, render).chunks == [LoadChunk(x, render).chunk.value] + LoadChunks(rest, render).chunks
    ensures LoadChunks([x] + rest, render).error == LoadChunks(rest, render).error
  {
    assert ([x] + rest)[1..] == rest;
  }

  /** The saved chunks, read back, are the kept chunks. */
  lemma {:induction false} ChunksRoundTrip(cs: seq<OutputChunk>, render: Renderer)
    requires forall i :: 0 <= i < |cs| && cs[i].jupyterData.Some? && cs[i].jupyterMetadata.Some? ==> Reproducible(cs[i], render)
    ensures LoadChunks(SavedChunks(cs), render).chunks == KeptChunks(cs)
    ensures LoadChunks(SavedChunks(cs), render).error.None?
    decreases |cs|
  {
    LoadChunksStops(SavedChunks(cs), render);
    if |cs| > 0 {
      assert forall i :: 1 <= i < |cs| ==> cs[1..][i - 1] == cs[i];
      ChunksRoundTrip(cs[1..], render);
      var c := cs[0];
      if c.jupyterData.Some? && c.jupyterMetadata.Some? {
        ChunkRoundTrip(c, render);
        LoadChunksCons(ChunkJson(c.jupyterData.value, c.jupyterMetadata.value), SavedChunks(cs[1..]), render);
      }
    }
  }

  /** The coordinates of a saved position. */
  lemma PositionRoundTrip(p: Position)
    ensures PositionCoordinates(PositionJson(p)) == Ok((p.lineno, p.colno))
  {
    var entries := PositionJson(p).entries;
    FieldAt(entries, 0, IntType);
    assert entries[0].0 != entries[1].0;
    FieldAt(entries, 1, IntType);
  }

  /** A saved span reads back as its coordinates. */
  lemma SpanRoundTrip(s: Span<Position>)
    ensures SpanCoordinates(SpanJson(s)) == Ok((s.begin.lineno, s.begin.colno, s.end.lineno, s.end.colno))
  {
    var entries := SpanJson(s).entries;
    FieldAt(entries, 0, DictType);
    assert entries[0].0 != entries[1].0;
    FieldAt(entries, 1, DictType);
    PositionRoundTrip(s.begin);
    PositionRoundTrip(s.end);
  }

  /** A dict field whose key no earlier item has, and whose value has the type
      asked for, is accepted by AssertHasKey. */
  lemma FieldAt(entries: seq<(string, Json)>, i: nat, t: PyType)
    requires i < |entries| && forall j :: 0 <= j < i ==> entries[j].0 != entries[i].0
    requires IsInstance(entries[i].1, t)
    ensures AssertHasKey(JObject(entries), entries[i].0, Some(t)) == Ok(entries[i].1)
  {
    LookupIndex(entries, i);
  }

  /** The span of a saved cell. */
  lemma CellSpanField(s: Span<Position>, o: OutputRecord)
    ensures AssertHasKey(CellJson(s, o), "span", Some(DictType)) == Ok(SpanJson(s))
  {
    FieldAt(CellEntries(s, o), 0, DictType);
  }

  /** The execution count of a saved cell, null when it has none. */
  lemma CellCountField(s: Span<Position>, o: OutputRecord)
    ensures Lookup(CellEntries(s, o), "execution_count") == Some(CountJson(o.executionCount))
  {
    var e := CellEntries(s, o);
    assert e[0].0 != e[1].0;
    LookupIndex(e, 1);
  }

  /** The status and success flag of a saved cell. */
  lemma CellStatusFields(s: Span<Position>, o: OutputRecord)
    ensures AssertHasKey(CellJson(s, o), "status", Some(IntType)) == Ok(JInt(o.status.Value()))
    ensures AssertHasKey(CellJson(s, o), "success", Some(BoolType)) == Ok(JBool(o.success))
  {
    var e := CellEntries(s, o);
    assert e[0].0 != e[2].0 && e[1].0 != e[2].0;
    FieldAt(e, 2, IntType);
    assert e[0].0 != e[3].0 && e[1].0 != e[3].0 && e[2].0 != e[3].0;
    FieldAt(e, 3, BoolType);
  }

  /** The chunk list of a saved cell. */
  lemma CellChunksField(s: Span<Position>, o: OutputRecord)
    ensures AssertHasKey(CellJson(s, o), "chunks", Some(ListType)) == Ok(JList(SavedChunks(o.chunks)))
  {
    var e := CellEntries(s, o);
    assert e[0].0 != e[4].0 && e[1].0 != e[4].0 && e[2].0 != e[4].0 && e[3].0 != e[4].0;
    FieldAt(e, 4, ListType);
  }

  /** load's cell loop body, when every check passes. */
  lemma LoadCellOk(cell: Json, doc: seq<string>, render: Renderer, f: (int, int, int, int), h: (int, OutputStatus, bool, seq<Json>))
    requires SpanFields(cell) == Ok(f) && OutputFields(cell) == Ok(h)
    requires SetExtmarkOutcome(doc, f.0, f.1, 0).Ok? && SetExtmarkOutcome(doc, f.2, f.3, 0).Ok?
    requires LoadChunks(h.3, render).error.None?
    ensures LoadCell(cell, doc, render).cell
            == Ok(LoadedCell(f.0, f.1, f.2, f.3, OutputRecord(Some(h.0), LoadChunks(h.3, render).chunks, h.1, h.2, true, false)))
  {
  }

  /** The span of a saved cell reads back as its coordinates. */
  lemma SpanFieldsOf(s: Span<Position>, o: OutputRecord)
    ensures SpanFields(CellJson(s, o)) == Ok((s.begin.lineno, s.begin.colno, s.end.lineno, s.end.colno))
  {
    CellSpanField(s, o);
    SpanRoundTrip(s);
  }

  /** The output fields of a saved cell with a count. */
  lemma OutputFieldsOf(s: Span<Position>, o: OutputRecord)
    requires o.executionCount.Some?
    ensures OutputFields(CellJson(s, o)) == Ok((o.executionCount.value, o.status, o.success, SavedChunks(o.chunks)))
  {
    CellCountField(s, o);
    AssertHasKeyFound(CellEntries(s, o), "execution_count", IntType, JInt(o.executionCount.value));
    CellStatusFields(s, o);
    StatusValueRoundTrip(o.status);
    CellChunksField(s, o);
  }

  /** A cell written by save and read by load keeps its span, count, status,
      success flag and kept chunks. */
  lemma CellRoundTrip(s: Span<Position>, o: OutputRecord, doc: seq<string>, render: Renderer)
    requires Restorable(s, o, doc, render)
    ensures LoadCell(CellJson(s, o), doc, render).cell == Ok(Reloaded(s, o))
  {
    SpanFieldsOf(s, o);
    OutputFieldsOf(s, o);
    ChunksRoundTrip(o.chunks, render);
    LoadCellOk(CellJson(s, o), doc, render, (s.begin.lineno, s.begin.colno, s.end.lineno, s.end.colno),
               (o.executionCount.value, o.status, o.success, SavedChunks(o.chunks)));
  }

  /** The top-level fields load reads from a saved document. */
  lemma SaveFields(kernel: string, checksum: string, views: seq<(Span<Position>, OutputRecord)>)
    ensures AssertHasKey(SaveJson(kernel, checksum, views), "version", Some(IntType)) == Ok(JInt(1))
    ensures AssertHasKey(SaveJson(kernel, checksum, views), "kernel", Some(StrType)) == Ok(JStr(kernel))
    ensures AssertHasKey(SaveJson(kernel, checksum, views), "content_checksum", Some(StrType)) == Ok(JStr(checksum))
    ensures AssertHasKey(SaveJson(kernel, checksum, views), "cells", Some(ListType)) == Ok(JList(CellsJson(views)))
  {
    DocumentFields(kernel, checksum, CellsJson(views));
  }

  /** The four top-level fields of a document with the cell list `cells`. */
  lemma DocumentFields(kernel: string, checksum: string, cells: seq<Json>)
    ensures var d := JObject([("version", JInt(1)), ("kernel", JStr(kernel)), ("content_checksum", JStr(checksum)),
                              ("cells", JList(cells))]);
            AssertHasKey(d, "version", Some(IntType)) == Ok(JInt(1))
            && AssertHasKey(d, "kernel", Some(StrType)) == Ok(JStr(kernel))
            && AssertHasKey(d, "content_checksum", Some(StrType)) == Ok(JStr(checksum))
            && AssertHasKey(d, "cells", Some(ListType)) == Ok(JList(cells))
  {
    var e := [("version", JInt(1)), ("kernel", JStr(kernel)), ("content_checksum", JStr(checksum)), ("cells", JList(cells))];
    FieldAt(e, 0, IntType);
    assert |e[0].0| != |e[1].0|;
    FieldAt(e, 1, StrType);
    assert |e[0].0| != |e[2].0| && |e[1].0| != |e[2].0|;
    FieldAt(e, 2, StrType);
    assert |e[0].0| != |e[3].0| && |e[1].0| != |e[3].0| && |e[2].0| != |e[3].0|;
    FieldAt(e, 3, ListType);
  }

  /** Loading what save wrote, in a buffer with the same contents, gives back
      every cell in the ledger's order. */
  lemma SaveLoadRoundTrip(kernel: string, checksum: string, views: seq<(Span<Position>, OutputRecord)>,
                          doc: seq<string>, render: Renderer)
    requires forall i :: 0 <= i < |views| ==> Restorable(views[i].0, views[i].1, doc, render)
    ensures LoadSpec(SaveJson(kernel, checksum, views), checksum, doc, render).error.None?
    ensures |LoadSpec(SaveJson(kernel, checksum, views), checksum, doc, render).cells| == |views|
    ensures forall i :: 0 <= i < |views| ==>
              LoadSpec(SaveJson(kernel, checksum, views), checksum, doc, render).cells[i] == Reloaded(views[i].0, views[i].1)
  {
    SaveFields(kernel, checksum, views);
    LoadSpecCells(SaveJson(kernel, checksum, views), checksum, CellsJson(views), doc, render);
    CellsRoundTrip(views, doc, render);
  }

  /** The saved cell list, loaded, is the list of reloaded cells. */
  lemma CellsRoundTrip(views: seq<(Span<Position>, OutputRecord)>, doc: seq<string>, render: Renderer)
    requires forall i :: 0 <= i < |views| ==> Restorable(views[i].0, views[i].1, doc, render)
    ensures LoadCells(CellsJson(views), doc, render).error.None?
    ensures |LoadCells(CellsJson(views), doc, render).cells| == |views|
    ensures forall i :: 0 <= i < |views| ==> LoadCells(CellsJson(views), doc, render).cells[i] == Reloaded(views[i].0, views[i].1)
  {
    var items := CellsJson(views);
    var cells := seq(|views|, i requires 0 <= i < |views| => Reloaded(views[i].0, views[i].1));
    forall i | 0 <= i < |views| ensures LoadCell(items[i], doc, render).cell == Ok(cells[i]) {
      CellRoundTrip(views[i].0, views[i].1, doc, render);
    }
    LoadCellsAll(items, doc, render, cells);
  }

  /** A document whose checksum matches loads its cell list. */
  lemma LoadSpecCells(data: Json, checksum: string, items: seq<Json>, doc: seq<string>, render: Renderer)
    requires AssertHasKey(data, "content_checksum", Some(StrType)) == Ok(JStr(checksum))
    requires AssertHasKey(data, "cells", Some(ListType)) == Ok(JList(items))
    ensures LoadSpec(data, checksum, doc, render) == LoadCells(items, doc, render)
  {
  }

  /** When every cell loads, the loop loads them all. */
  lemma LoadCellsAll(items: seq<Json>, doc: seq<string>, render: Renderer, cells: seq<LoadedCell>)
    requires |cells| == |items| && forall i :: 0 <= i < |items| ==> LoadCell(items[i], doc, render).cell == Ok(cells[i])
    ensures LoadCells(items, doc, render).error.None? && LoadCells(items, doc, render).cells == cells
  {
    LoadCellsStops(items, doc, render);
  }

  /** load's cell loop body, when the span passes and an output field does not. */
  lemma LoadCellOutputFails(cell: Json, doc: seq<string>, render: Renderer, f: (int, int, int, int), e: PyError)
    requires SpanFields(cell) == Ok(f) && OutputFields(cell) == Err(e)
    requires SetExtmarkOutcome(doc, f.0, f.1, 0).Ok? && SetExtmarkOutcome(doc, f.2, f.3, 0).Ok?
    ensures LoadCell(cell, doc, render).cell == Err(e)
  {
  }

  /** A saved cell with no count fails the count's type check. */
  lemma OutputFieldsUncounted(s: Span<Position>, o: OutputRecord)
    requires o.executionCount.None?
    ensures OutputFields(CellJson(s, o)) == Err(TypeMismatch("execution_count", IntType, JNull))
  {
    CellCountField(s, o);
    AssertHasKeyMismatch(CellEntries(s, o), "execution_count", IntType, JNull);
  }

  /** A cell saved with no execution count cannot be loaded: the count must be an int. */
  lemma UncountedCellRejected(s: Span<Position>, o: OutputRecord, doc: seq<string>, render: Renderer)
    requires o.executionCount.None? && Markable(s.begin, doc) && Markable(s.end, doc)
    ensures LoadCell(CellJson(s, o), doc, render).cell == Err(TypeMismatch("execution_count", IntType, JNull))
  {
    SpanFieldsOf(s, o);
    OutputFieldsUncounted(s, o);
    LoadCellOutputFails(CellJson(s, o), doc, render, (s.begin.lineno, s.begin.colno, s.end.lineno, s.end.colno),
                        TypeMismatch("execution_count", IntType, JNull));
  }

  // ---------------------------------------------------------------------------
  // load, in place

  /** One chunk entry converted: the two dict checks, then to_outputchunk. */
  method ConvertChunk(chunk: Json, render: Renderer) returns (c: Conversion)
    ensures c == LoadChunk(chunk, render)
  {
    var data := AssertHasKey(chunk, "data", Some(DictType));
    if data.Err? {
      return Conversion(Err(data.error), []);
    }
    var metadata := AssertHasKey(chunk, "metadata", Some(DictType));
    if metadata.Err? {
      return Conversion(Err(metadata.error), []);
    }
    c := ToOutputChunk(data.value, metadata.value, render);
  }

  /** The chunk loop of load: each converted chunk is appended to the output and
      the files its renderers allocated to the runtime's; the first failing entry
      stops the loop with its exception. */
  method ConvertChunks(rt: Runtime.JupyterRuntime, output: Output, items: seq<Json>, render: Renderer)
    returns (err: Option<PyError>)
    modifies rt, output
    ensures output.Record() == old(output.Record()).(chunks := old(output.chunks) + LoadChunks(items, render).chunks)
    ensures rt.files == old(rt.files) + LoadChunks(items, render).files
    ensures err == LoadChunks(items, render).error
    ensures rt.state == old(rt.state) && rt.iopub == old(rt.iopub) && rt.requests == old(rt.requests)
  {
    var rest := items;
    while |rest| > 0
      invariant output.Record() == old(output.Record()).(chunks := output.chunks)
      invariant output.chunks + LoadChunks(rest, render).chunks == old(output.chunks) + LoadChunks(items, render).chunks
      invariant rt.files + LoadChunks(rest, render).files == old(rt.files) + LoadChunks(items, render).files
      invariant LoadChunks(rest, render).error == LoadChunks(items, render).error
      invariant rt.state == old(rt.state) && rt.iopub == old(rt.iopub) && rt.requests == old(rt.requests)
      decreases |rest|
    {
      ghost var before := (output.chunks, rt.files);
      var c := ConvertChunk(rest[0], render);
      rt.files := rt.files + c.files;
      if c.chunk.Err? {
        return Some(c.chunk.error);
      }
      output.chunks := output.chunks + [c.chunk.value];
      ghost var tail := LoadChunks(rest[1..], render);
      assert LoadChunks(rest, render) == ChunkLoad([c.chunk.value] + tail.chunks, c.files + tail.files, tail.error);
      PyStr.AppendAssoc(before.0, [c.chunk.value], tail.chunks);
      PyStr.AppendAssoc(before.1, c.files, tail.files);
      rest := rest[1..];
    }
    return None;
  }

  /** Every mark of the first table is in the second, at the same place. */
  ghost predicate Extends(m0: map<MarkKey, (int, int)>, m1: map<MarkKey, (int, int)>)
  {
    forall k :: k in m0 ==> k in m1 && m1[k] == m0[k]
  }

  /** A table that keeps the marks resolves a span that resolved before the same way. */
  lemma ResolveSpanExtends(m0: map<MarkKey, (int, int)>, m1: map<MarkKey, (int, int)>, s: Ledger.CellSpan)
    requires Extends(m0, m1) && ResolveSpan(m0, s).Ok?
    ensures ResolveSpan(m1, s) == ResolveSpan(m0, s)
  {
  }

  /** One iteration of load's cell loop: the span's two extmarks, then a new
      Output built field by field in load's order and marked old. */
  method LoadCellInto(mb: Ledger.MagmaBuffer, cell: Json, table: AnchorTable, doc: seq<string>, render: Renderer)
    returns (r: Result<(Ledger.CellSpan, Output)>)
    requires table.Valid()
    modifies table, mb.runtime
    ensures table.Valid() && Extends(old(table.marks), table.marks)
    ensures mb.runtime.files == old(mb.runtime.files) + LoadCell(cell, doc, render).files
    ensures mb.runtime.state == old(mb.runtime.state) && mb.runtime.iopub == old(mb.runtime.iopub)
            && mb.runtime.requests == old(mb.runtime.requests)
    ensures r.Ok? <==> LoadCell(cell, doc, render).cell.Ok?
    ensures r.Err? ==> r.error == LoadCell(cell, doc, render).cell.error
    ensures r.Ok? ==> fresh(r.value.1) && r.value.1.Record() == LoadCell(cell, doc, render).cell.value.record
    ensures r.Ok? ==> ResolveSpan(table.marks, r.value.0) == Ok(Anchored(LoadCell(cell, doc, render).cell.value, mb.bufferNumber, doc))
  {
    var f := SpanFields(cell);
    if f.Err? {
      return Err(f.error);
    }
    var (bl, bc, el, ec) := f.value;
    ghost var marks0 := table.marks;
    var begin := NewDynamicPosition(table, doc, mb.extmarkNamespace, mb.bufferNumber, bl, bc);
    if begin.Err? {
      return Err(begin.error);
    }
    ghost var marks1 := table.marks;
    var end := NewDynamicPosition(table, doc, mb.extmarkNamespace, mb.bufferNumber, el, ec);
    if end.Err? {
      return Err(end.error);
    }
    assert Extends(marks0, table.marks);
    assert ResolveSpan(table.marks, Span(begin.value, end.value))
           == Ok(Span(Position(mb.bufferNumber, bl, ExtmarkCol(doc, bl, bc)), Position(mb.bufferNumber, el, ExtmarkCol(doc, el, ec))));
    assert SetExtmarkOutcome(doc, bl, bc, 0).Ok? && SetExtmarkOutcome(doc, el, ec, 0).Ok?;
    var output := LoadOutput(mb.runtime, cell, render);
    if output.Err? {
      return Err(output.error);
    }
    return Ok((Span(begin.value, end.value), output.value));
  }

  /** The output part of one iteration: Output(execution_count), then its status,
      success flag and chunks, then `old`. */
  method LoadOutput(rt: Runtime.JupyterRuntime, cell: Json, render: Renderer) returns (r: Result<Output>)
    modifies rt
    ensures rt.files == old(rt.files) + OutputOf(cell, render).files
    ensures rt.state == old(rt.state) && rt.iopub == old(rt.iopub) && rt.requests == old(rt.requests)
    ensures r.Ok? <==> OutputOf(cell, render).record.Ok?
    ensures r.Err? ==> r.error == OutputOf(cell, render).record.error
    ensures r.Ok? ==> fresh(r.value) && r.value.Record() == OutputOf(cell, render).record.value
  {
    var count := AssertHasKey(cell, "execution_count", Some(IntType));
    if count.Err? {
      return Err(count.error);
    }
    var output := new Output(Some(IntValue(count.value)));
    var status := AssertHasKey(cell, "status", Some(IntType));
    if status.Err? {
      return Err(status.error);
    }
    var st := StatusFromValue(IntValue(status.value));
    if st.Err? {
      return Err(st.error);
    }
    output.status := st.value;
    var success := AssertHasKey(cell, "success", Some(BoolType));
    if success.Err? {
      return Err(success.error);
    }
    output.success := success.value.b;
    var chunks := AssertHasKey(cell, "chunks", Some(ListType));
    if chunks.Err? {
      return Err(chunks.error);
    }
    var err := ConvertChunks(rt, output, chunks.value.items, render);
    if err.Some? {
      return Err(err.value);
    }
    output.isOld := true;
    return Ok(output);
  }

  /** d[k] = v for each cell in turn, the first one first. */
  function AssignAll(d: seq<Ledger.Cell>, cs: seq<Ledger.Cell>): seq<Ledger.Cell>
    decreases |cs|
  {
    if |cs| == 0 then d else Ledger.Assign(AssignAll(d, cs[..|cs| - 1]), cs[|cs| - 1].span, cs[|cs| - 1].entry)
  }

  lemma AssignAllSnoc(d: seq<Ledger.Cell>, cs: seq<Ledger.Cell>, c: Ledger.Cell)
    ensures AssignAll(d, cs + [c]) == Ledger.Assign(AssignAll(d, cs), c.span, c.entry)
  {
    assert (cs + [c])[..|cs|] == cs;
  }

  /** A ledger cell as load leaves it for a loaded cell: an OutputBuffer whose
      output holds the loaded record or, when the loaded output is not kept, a
      new empty one. */
  ghost predicate Holds(c: Ledger.Cell, l: LoadedCell, attach: bool)
    reads if c.entry.BufferEntry? then {c.entry.buffer, c.entry.buffer.output} else {}
  {
    c.entry.BufferEntry? && c.entry.buffer.output.Record() == (if attach then l.record else FreshRecord(None))
  }

  /** Cell by cell, the ledger cells hold the loaded cells' outputs (see OutputsAt). */
  ghost predicate Outputs(cs: seq<Ledger.Cell>, ls: seq<LoadedCell>, attach: bool)
    reads set j | 0 <= j < |cs| && cs[j].entry.BufferEntry? :: cs[j].entry.buffer
    reads set j | 0 <= j < |cs| && cs[j].entry.BufferEntry? :: cs[j].entry.buffer.output
    decreases |cs|
  {
    |cs| == |ls| &&
    (|cs| > 0 ==> Outputs(cs[..|cs| - 1], ls[..|ls| - 1], attach) && Holds(cs[|cs| - 1], ls[|ls| - 1], attach))
  }

  lemma {:induction false} OutputsAt(cs: seq<Ledger.Cell>, ls: seq<LoadedCell>, attach: bool, j: int)
    requires Outputs(cs, ls, attach) && 0 <= j < |cs|
    ensures |ls| == |cs| && Holds(cs[j], ls[j], attach)
    decreases |cs|
  {
    if j < |cs| - 1 {
      OutputsAt(cs[..|cs| - 1], ls[..|ls| - 1], attach, j);
    }
  }

  /** One more loaded cell. */
  lemma OutputsSnoc(cs: seq<Ledger.Cell>, ls: seq<LoadedCell>, c: Ledger.Cell, l: LoadedCell, attach: bool)
    requires Outputs(cs, ls, attach) && Holds(c, l, attach)
    ensures Outputs(cs + [c], ls + [l], attach)
  {
    assert (cs + [c])[..|cs|] == cs && (ls + [l])[..|ls|] == ls;
  }

  /** The loaded cells' spans: the extmarks of each ledger cell hold the loaded
      coordinates (stated cell by cell from the last one, see AnchorsAt). */
  ghost predicate Anchors(cs: seq<Ledger.Cell>, ls: seq<LoadedCell>, marks: map<MarkKey, (int, int)>, bufno: int, doc: seq<string>)
    decreases |cs|
  {
    |cs| == |ls| &&
    (|cs| > 0 ==>
       Anchors(cs[..|cs| - 1], ls[..|ls| - 1], marks, bufno, doc) &&
       ResolveSpan(marks, cs[|cs| - 1].span) == Ok(Anchored(ls[|ls| - 1], bufno, doc)))
  }

  lemma {:induction false} AnchorsAt(cs: seq<Ledger.Cell>, ls: seq<LoadedCell>, marks: map<MarkKey, (int, int)>, bufno: int,
                                     doc: seq<string>, j: int)
    requires Anchors(cs, ls, marks, bufno, doc) && 0 <= j < |cs|
    ensures |ls| == |cs| && ResolveSpan(marks, cs[j].span) == Ok(Anchored(ls[j], bufno, doc))
    decreases |cs|
  {
    if j < |cs| - 1 {
      AnchorsAt(cs[..|cs| - 1], ls[..|ls| - 1], marks, bufno, doc, j);
    }
  }

  /** New extmarks leave the loaded spans where they were. */
  lemma {:induction false} AnchorsKept(cs: seq<Ledger.Cell>, ls: seq<LoadedCell>, m0: map<MarkKey, (int, int)>,
                                       m1: map<MarkKey, (int, int)>, bufno: int, doc: seq<string>)
    requires Anchors(cs, ls, m0, bufno, doc) && Extends(m0, m1)
    ensures Anchors(cs, ls, m1, bufno, doc)
    decreases |cs|
  {
    if |cs| > 0 {
      AnchorsKept(cs[..|cs| - 1], ls[..|ls| - 1], m0, m1, bufno, doc);
      ResolveSpanExtends(m0, m1, cs[|cs| - 1].span);
    }
  }

  /** One more loaded cell. */
  lemma AnchorsSnoc(cs: seq<Ledger.Cell>, ls: seq<LoadedCell>, c: Ledger.Cell, l: LoadedCell,
                    marks: map<MarkKey, (int, int)>, bufno: int, doc: seq<string>)
    requires Anchors(cs, ls, marks, bufno, doc) && ResolveSpan(marks, c.span) == Ok(Anchored(l, bufno, doc))
    ensures Anchors(cs + [c], ls + [l], marks, bufno, doc)
  {
    assert (cs + [c])[..|cs|] == cs && (ls + [l])[..|ls|] == ls;
  }

  /** magmabuffer.outputs[span] = OutputBuffer(nvim, canvas, options); with
      `attach` the loaded output is then given to the new buffer. */
  method AddCell(mb: Ledger.MagmaBuffer, span: Ledger.CellSpan, output: Output, displayBuffer: int, attach: bool)
    returns (ob: OutputLayout.OutputBuffer)
    requires mb.Valid()
    modifies mb
    ensures mb.Valid()
    ensures fresh(ob) && ob.Valid() && ob.canvas == mb.canvas && ob.options == mb.options && ob.displayBuffer == displayBuffer
    ensures if attach then ob.output == output else fresh(ob.output) && ob.output.Record() == FreshRecord(None)
    ensures mb.outputs == Ledger.Assign(old(mb.outputs), span, Ledger.BufferEntry(ob))
    ensures (mb.currentOutput, mb.queuedOutputs, mb.Ui(), mb.autocmds, mb.notifications)
            == old((mb.currentOutput, mb.queuedOutputs, mb.Ui(), mb.autocmds, mb.notifications))
  {
    ob := new OutputLayout.OutputBuffer(mb.canvas, mb.options, displayBuffer);
    if attach {
      ob.output := output;
    }
    Ledger.AssignDistinct(mb.outputs, span, Ledger.BufferEntry(ob));
    mb.outputs := Ledger.Assign(mb.outputs, span, Ledger.BufferEntry(ob));
  }

  /** The extmark table and the runtime are no part of the canvas. */
  lemma CanvasApart(c: Images.Canvas, table: AnchorTable, rt: Runtime.JupyterRuntime)
    ensures table !in c.Repr() && rt !in c.Repr()
  {
  }

  /** One iteration of load's cell loop, up to the ledger entry it makes. */
  method LoadStep(mb: Ledger.MagmaBuffer, cell: Json, table: AnchorTable, doc: seq<string>, render: Renderer,
                  displayBuffer: int, attach: bool)
    returns (r: Result<Ledger.Cell>)
    requires mb.Valid() && table.Valid()
    modifies mb, mb.runtime, table
    ensures mb.Valid() && table.Valid() && Extends(old(table.marks), table.marks)
    ensures mb.runtime.files == old(mb.runtime.files) + LoadCell(cell, doc, render).files
    ensures mb.runtime.state == old(mb.runtime.state) && mb.runtime.iopub == old(mb.runtime.iopub)
            && mb.runtime.requests == old(mb.runtime.requests)
    ensures r.Ok? <==> LoadCell(cell, doc, render).cell.Ok?
    ensures r.Err? ==> r.error == LoadCell(cell, doc, render).cell.error && mb.outputs == old(mb.outputs)
    ensures r.Ok? ==> Holds(r.value, LoadCell(cell, doc, render).cell.value, attach)
                      && ResolveSpan(table.marks, r.value.span) == Ok(Anchored(LoadCell(cell, doc, render).cell.value, mb.bufferNumber, doc))
                      && fresh(r.value.entry.buffer) && r.value.entry.buffer.displayBuffer == displayBuffer
                      && mb.outputs == Ledger.Assign(old(mb.outputs), r.value.span, r.value.entry)
    ensures (mb.currentOutput, mb.queuedOutputs, mb.Ui(), mb.autocmds, mb.notifications)
            == old((mb.currentOutput, mb.queuedOutputs, mb.Ui(), mb.autocmds, mb.notifications))
  {
    CanvasApart(mb.canvas, table, mb.runtime);
    var c := LoadCellInto(mb, cell, table, doc, render);
    if c.Err? {
      return Err(c.error);
    }
    var ob := AddCell(mb, c.value.0, c.value.1, displayBuffer, attach);
    return Ok(Ledger.Cell(c.value.0, Ledger.BufferEntry(ob)));
  }

  /** LoadStep, seen from the cell loop: the cells entered so far keep their
      extmarks and their outputs, and the new one joins them. */
  method EnterCell(mb: Ledger.MagmaBuffer, cell: Json, table: AnchorTable, doc: seq<string>, render: Renderer,
                   displayBuffer: int, attach: bool, ghost load: Json -> CellLoad,
                   ghost added: seq<Ledger.Cell>, ghost loaded: seq<LoadedCell>)
    returns (r: Result<Ledger.Cell>)
    requires forall c {:trigger LoadCell(c, doc, render)} :: load(c) == LoadCell(c, doc, render)
    requires mb.Valid() && table.Valid()
    requires Anchors(added, loaded, table.marks, mb.bufferNumber, doc)
    requires Outputs(added, loaded, attach)
    modifies mb, mb.runtime, table
    ensures mb.Valid() && table.Valid() && Extends(old(table.marks), table.marks)
    ensures mb.runtime.files == old(mb.runtime.files) + load(cell).files
    ensures mb.runtime.state == old(mb.runtime.state) && mb.runtime.iopub == old(mb.runtime.iopub)
            && mb.runtime.requests == old(mb.runtime.requests)
    ensures r.Ok? <==> load(cell).cell.Ok?
    ensures r.Err? ==> r.error == load(cell).cell.error && mb.outputs == old(mb.outputs)
                       && Anchors(added, loaded, table.marks, mb.bufferNumber, doc)
                       && Outputs(added, loaded, attach)
    ensures r.Ok? ==> mb.outputs == Ledger.Assign(old(mb.outputs), r.value.span, r.value.entry)
                      && r.value.entry.BufferEntry? && fresh(r.value.entry.buffer)
                      && Anchors(added + [r.value], loaded + [load(cell).cell.value], table.marks, mb.bufferNumber, doc)
                      && Outputs(added + [r.value], loaded + [load(cell).cell.value], attach)
    ensures (mb.currentOutput, mb.queuedOutputs, mb.Ui(), mb.autocmds, mb.notifications)
            == old((mb.currentOutput, mb.queuedOutputs, mb.Ui(), mb.autocmds, mb.notifications))
  {
    ghost var marks := table.marks;
    ghost var head := LoadCell(cell, doc, render);
    assert load(cell) == head;
    label Before:
    r := LoadStep(mb, cell, table, doc, render, displayBuffer, attach);
    AnchorsKept(added, loaded, marks, table.marks, mb.bufferNumber, doc);
    assert forall j :: 0 <= j < |added| && added[j].entry.BufferEntry? ==>
             unchanged@Before(added[j].entry.buffer, added[j].entry.buffer.output);
    assert Outputs(added, loaded, attach);
    if r.Ok? {
      AnchorsSnoc(added, loaded, r.value, head.cell.value, table.marks, mb.bufferNumber, doc);
      OutputsSnoc(added, loaded, r.value, head.cell.value, attach);
    }
  }

  /** The cell loop of load: the cells are entered in the ledger in turn, until
      the first malformed one. */
  method LoadCellsInto(mb: Ledger.MagmaBuffer, items: seq<Json>, table: AnchorTable, doc: seq<string>,
                       render: Renderer, displayBuffers: nat -> int, attach: bool, ghost load: Json -> CellLoad)
    returns (r: Result<()>, ghost added: seq<Ledger.Cell>, ghost loaded: seq<LoadedCell>)
    requires forall c {:trigger LoadCell(c, doc, render)} :: load(c) == LoadCell(c, doc, render)
    requires mb.Valid() && table.Valid()
    modifies mb, mb.runtime, table
    ensures mb.Valid() && table.Valid() && Extends(old(table.marks), table.marks)
    ensures loaded == Gather(items, load).cells
    ensures r.Ok? <==> Gather(items, load).error.None?
    ensures r.Err? ==> r.error == Gather(items, load).error.value
    ensures mb.runtime.files == old(mb.runtime.files) + Gather(items, load).files
    ensures mb.runtime.state == old(mb.runtime.state) && mb.runtime.iopub == old(mb.runtime.iopub)
            && mb.runtime.requests == old(mb.runtime.requests)
    ensures mb.outputs == AssignAll(old(mb.outputs), added)
    ensures Anchors(added, loaded, table.marks, mb.bufferNumber, doc)
    ensures Outputs(added, loaded, attach)
    ensures (mb.currentOutput, mb.queuedOutputs, mb.Ui(), mb.autocmds, mb.notifications)
            == old((mb.currentOutput, mb.queuedOutputs, mb.Ui(), mb.autocmds, mb.notifications))
  {
    added := [];
    ghost var p := Gather(items, load);
    var rest := items;
    loaded := [];
    var i: nat := 0;
    r := Ok(());
    while |rest| > 0
      invariant i == |loaded| == |added|
      invariant p.cells == loaded + Gather(rest, load).cells
      invariant p.error == Gather(rest, load).error
      invariant mb.runtime.files + Gather(rest, load).files == old(mb.runtime.files) + p.files
      invariant mb.runtime.state == old(mb.runtime.state) && mb.runtime.iopub == old(mb.runtime.iopub)
                && mb.runtime.requests == old(mb.runtime.requests)
      invariant mb.outputs == AssignAll(old(mb.outputs), added)
      invariant Anchors(added, loaded, table.marks, mb.bufferNumber, doc)
      invariant Outputs(added, loaded, attach)
      invariant mb.Valid() && table.Valid() && Extends(old(table.marks), table.marks)
      invariant (mb.currentOutput, mb.queuedOutputs, mb.Ui(), mb.autocmds, mb.notifications)
                == old((mb.currentOutput, mb.queuedOutputs, mb.Ui(), mb.autocmds, mb.notifications))
      decreases |rest|
    {
      ghost var before := mb.runtime.files;
      ghost var head := load(rest[0]);
      ghost var tail := Gather(rest[1..], load);
      var c := EnterCell(mb, rest[0], table, doc, render, displayBuffers(i), attach, load, added, loaded);
      if c.Err? {
        assert Gather(rest, load) == Loading([], head.files, Some(c.error));
        assert p.cells == loaded + [];
        assert loaded + [] == loaded;
        r := Err(c.error);
        break;
      }
      assert Gather(rest, load) == Loading([head.cell.value] + tail.cells, head.files + tail.files, tail.error);
      PyStr.AppendAssoc(loaded, [head.cell.value], tail.cells);
      PyStr.AppendAssoc(before, head.files, tail.files);
      AssignAllSnoc(old(mb.outputs), added, c.value);
      ghost var prev := added;
      added := prev + [c.value];
      loaded := loaded + [head.cell.value];
      rest := rest[1..];
      i := i + 1;
    }
    assert Gather(rest, load).cells == [];
    assert p.cells == loaded;
  }

  /** load(magmabuffer, data), with the editor's extmarks in `table` and the
      scratch buffers the new OutputBuffers create numbered by `displayBuffers`:
      the checksum is compared first, then the cells are read. With `attach`
      false, as in the code, the loaded Output is dropped and the ledger gets an
      OutputBuffer with an empty output. */
  method LoadInto(mb: Ledger.MagmaBuffer, data: Json, digest: Digest, table: AnchorTable, doc: seq<string>,
                  render: Renderer, displayBuffers: nat -> int, attach: bool)
    returns (r: Result<()>, ghost added: seq<Ledger.Cell>, ghost loaded: seq<LoadedCell>)
    requires mb.Valid() && table.Valid()
    modifies mb, mb.runtime, table
    ensures mb.Valid() && table.Valid() && Extends(old(table.marks), table.marks)
    ensures loaded == LoadSpec(data, Checksum(digest, doc), doc, render).cells
    ensures r.Ok? <==> LoadSpec(data, Checksum(digest, doc), doc, render).error.None?
    ensures r.Err? ==> r.error == LoadSpec(data, Checksum(digest, doc), doc, render).error.value
    ensures mb.runtime.files == old(mb.runtime.files) + LoadSpec(data, Checksum(digest, doc), doc, render).files
    ensures mb.runtime.state == old(mb.runtime.state) && mb.runtime.iopub == old(mb.runtime.iopub)
            && mb.runtime.requests == old(mb.runtime.requests)
    ensures mb.outputs == AssignAll(old(mb.outputs), added)
    ensures Anchors(added, loaded, table.marks, mb.bufferNumber, doc)
    ensures Outputs(added, loaded, attach)
    ensures (mb.currentOutput, mb.queuedOutputs, mb.Ui(), mb.autocmds, mb.notifications)
            == old((mb.currentOutput, mb.queuedOutputs, mb.Ui(), mb.autocmds, mb.notifications))
  {
    added, loaded := [], [];
    var saved := AssertHasKey(data, "content_checksum", Some(StrType));
    if saved.Err? {
      r := Err(saved.error);
      return;
    }
    if Checksum(digest, doc) != saved.value.s {
      r := Err(ChecksumMismatch);
      return;
    }
    var cells := AssertHasKey(data, "cells", Some(ListType));
    if cells.Err? {
      r := Err(cells.error);
      return;
    }
    assert LoadSpec(data, Checksum(digest, doc), doc, render) == Gather(cells.value.items, Loader(doc, render));
    r, added, loaded := LoadCellsInto(mb, cells.value.items, table, doc, render, displayBuffers, attach, Loader(doc, render));
  }

  /** load as written: every OutputBuffer it enters shows an empty output that
      is not marked old (see DroppedOutputShowsNew). */
  method Load(mb: Ledger.MagmaBuffer, data: Json, digest: Digest, table: AnchorTable, doc: seq<string>,
              render: Renderer, displayBuffers: nat -> int)
    returns (r: Result<()>, ghost added: seq<Ledger.Cell>, ghost loaded: seq<LoadedCell>)
    requires mb.Valid() && table.Valid()
    modifies mb, mb.runtime, table
    ensures mb.Valid() && table.Valid() && Extends(old(table.marks), table.marks)
    ensures loaded == LoadSpec(data, Checksum(digest, doc), doc, render).cells
    ensures r.Ok? <==> LoadSpec(data, Checksum(digest, doc), doc, render).error.None?
    ensures r.Err? ==> r.error == LoadSpec(data, Checksum(digest, doc), doc, render).error.value
    ensures mb.runtime.files == old(mb.runtime.files) + LoadSpec(data, Checksum(digest, doc), doc, render).files
    ensures mb.runtime.state == old(mb.runtime.state) && mb.runtime.iopub == old(mb.runtime.iopub)
            && mb.runtime.requests == old(mb.runtime.requests)
    ensures mb.outputs == AssignAll(old(mb.outputs), added)
    ensures Anchors(added, loaded, table.marks, mb.bufferNumber, doc)
    ensures Outputs(added, loaded, false)
    ensures (mb.currentOutput, mb.queuedOutputs, mb.Ui(), mb.autocmds, mb.notifications)
            == old((mb.currentOutput, mb.queuedOutputs, mb.Ui(), mb.autocmds, mb.notifications))
  {
    r, added, loaded := LoadInto(mb, data, digest, table, doc, render, displayBuffers, false);
  }

  /** load with the loaded Output given to its OutputBuffer: every entered cell
      shows the saved output, marked old (see AttachedOutputShowsOld). */
  method LoadAttached(mb: Ledger.MagmaBuffer, data: Json, digest: Digest, table: AnchorTable, doc: seq<string>,
                      render: Renderer, displayBuffers: nat -> int)
    returns (r: Result<()>, ghost added: seq<Ledger.Cell>, ghost loaded: seq<LoadedCell>)
    requires mb.Valid() && table.Valid()
    modifies mb, mb.runtime, table
    ensures mb.Valid() && table.Valid() && Extends(old(table.marks), table.marks)
    ensures loaded == LoadSpec(data, Checksum(digest, doc), doc, render).cells
    ensures r.Ok? <==> LoadSpec(data, Checksum(digest, doc), doc, render).error.None?
    ensures r.Err? ==> r.error == LoadSpec(data, Checksum(digest, doc), doc, render).error.value
    ensures mb.runtime.files == old(mb.runtime.files) + LoadSpec(data, Checksum(digest, doc), doc, render).files
    ensures mb.runtime.state == old(mb.runtime.state) && mb.runtime.iopub == old(mb.runtime.iopub)
            && mb.runtime.requests == old(mb.runtime.requests)
    ensures mb.outputs == AssignAll(old(mb.outputs), added)
    ensures Anchors(added, loaded, table.marks, mb.bufferNumber, doc)
    ensures Outputs(added, loaded, true)
    ensures (mb.currentOutput, mb.queuedOutputs, mb.Ui(), mb.autocmds, mb.notifications)
            == old((mb.currentOutput, mb.queuedOutputs, mb.Ui(), mb.autocmds, mb.notifications))
  {
    r, added, loaded := LoadInto(mb, data, digest, table, doc, render, displayBuffers, true);
  }

  /** Every cell the loop reads carries an old output with an execution count,
      whose header starts with "[OLD] ". */
  lemma LoadedCellsOld(items: seq<Json>, doc: seq<string>, render: Renderer, j: int)
    requires 0 <= j < |LoadCells(items, doc, render).cells|
    ensures LoadCells(items, doc, render).cells[j].record.isOld
            && LoadCells(items, doc, render).cells[j].record.executionCount.Some?
    ensures "[OLD] " <= OutputLayout.HeaderText(LoadCells(items, doc, render).cells[j].record)
  {
    LoadCellsStops(items, doc, render);
    assert LoadCell(items[j], doc, render).cell == Ok(LoadCells(items, doc, render).cells[j]);
  }

  /** With the loaded output dropped, a loaded cell's buffer shows a new, empty
      output: no "[OLD] " header, no execution count, no chunks. */
  lemma DroppedOutputShowsNew(cs: seq<Ledger.Cell>, ls: seq<LoadedCell>, j: int)
    requires Outputs(cs, ls, false) && 0 <= j < |cs|
    ensures cs[j].entry.BufferEntry?
    ensures cs[j].entry.buffer.output.Record().executionCount.None? && cs[j].entry.buffer.output.Record().chunks == []
    ensures !("[OLD] " <= OutputLayout.HeaderText(cs[j].entry.buffer.output.Record()))
  {
    OutputsAt(cs, ls, false, j);
  }

  /** With the loaded output attached, a loaded cell's buffer shows the saved output. */
  lemma AttachedOutputShowsOld(cs: seq<Ledger.Cell>, ls: seq<LoadedCell>, j: int)
    requires Outputs(cs, ls, true) && 0 <= j < |cs|
    ensures |ls| == |cs| && cs[j].entry.BufferEntry? && cs[j].entry.buffer.output.Record() == ls[j].record
  {
    OutputsAt(cs, ls, true, j);
  }
}
