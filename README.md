# magma-nvim execution and output core, in Dafny

magma-nvim is a Neovim plugin that runs regions of a buffer in a Jupyter kernel
and shows each region's output in a floating window under it. This project
models the plugin's core. Each Dafny module follows one Python module of
`rplugin/python3/magma/`:

- `Common` (`common.dfy`): Option, the Python exceptions as values, Result.
- `PyStr` (`pystr.dfy`): the Python string and list built-ins the core uses, with Python's semantics.
- `Json` (`json.dfy`): JSON values and `dict.get`, `in`, `[]`, `isinstance`, truthiness.
- `Options` (`options.dfy`): `MagmaOptions` and the attribute names it gets (`options.py`).
- `Utils` (`utils.dfy`): `Position`, `Span`, `DynamicPosition`, the editor's extmark table, `nvimui` (`utils.py`).
- `OutputChunks` (`outputchunks.dfy`): text, error, image and bad chunks, `Output`, `to_outputchunk` (`outputchunks.py`).
- `Images` (`images.dfy`): the Ueberzug and Kitty canvases and Kitty's graphics-protocol framing (`images.py`).
- `Runtime` (`runtime.dfy`): `JupyterRuntime`: state, iopub message handling, the non-blocking drain (`runtime.py`).
- `OutputLayout` (`outputbuffer.dfy`): `OutputBuffer`: header, lines, window size and place (`outputbuffer.py`).
- `Ledger` (`magmabuffer.dfy`): `MagmaBuffer`: the cells run, the output queue, the selected cell, the interface update (`magmabuffer.py`).
- `SaveIO` (`io.dfy`): `save`, `load`, `get_default_save_file`, `MagmaIOError.assert_has_key` (`io.py`).
- `Plugin` (`plugin.dfy`): the `Magma` object: the buffer registry, initialisation, the commands (`__init__.py`).

The editor, the kernel and the renderers are inputs to the model:

- The editor is seen through values. These are the current buffer and the
  cursor, the document's lines, the window geometry and the handles of new
  windows.
- Extmarks live in an `AnchorTable` object that the editor may move.
- The kernel is a log of the requests sent to it and a queue of the iopub
  messages it sent back.
- The image renderers (base64, cairosvg, plotly, pnglatex, PIL) are one
  oracle. For a MIME type and its payload, the oracle gives the files
  allocated and either an image, a failed import or an exception.
- md5 and base64 are opaque functions.

State that the source changes in place is modelled with classes:
`AnchorTable`, `Output`, `JupyterRuntime`, the canvases, `OutputBuffer`,
`MagmaBuffer` and `Magma`. Each method of these classes is proved against a
function of the old state. Pure computations are modelled as functions, and
lemmas state what the source promises about them.

## Model

| member | source | states |
|---|---|---|
| Options.Attributes | rplugin/python3/magma/options.py:19-33 | one attribute per configuration variable, in order: each is the variable's name with its "magma_" prefix removed |
| Options.NoSavePathAttribute | rplugin/python3/magma/options.py:12-33 | the save directory ends up in the attribute `save_cell`; no `save_path` attribute is ever set, although the class declares one |
| PyStr.Slice | rplugin/python3/magma/utils.py:84 | Python slicing: the result is never longer than the sequence, and with in-range bounds it is the usual subsequence |
| PyStr.SliceBound | rplugin/python3/magma/utils.py:84 | a slice bound is clamped into 0..len, and an in-range bound is kept as it is |
| PyStr.Split | rplugin/python3/magma/outputbuffer.py:99 | `str.split` with a one-character separator returns at least one piece |
| PyStr.JoinSplit | rplugin/python3/magma/outputbuffer.py:99 | joining the pieces of a split with the separator gives back the string |
| PyStr.SplitJoin | rplugin/python3/magma/utils.py:86-90 | splitting a join of separator-free pieces at the separator gives back the pieces |
| PyStr.SplitAtSep | rplugin/python3/magma/outputbuffer.py:99 | a separator cuts the string into the splits of the two sides |
| PyStr.SplitPiecesFree | rplugin/python3/magma/outputbuffer.py:99-102 | no piece of a split holds the separator |
| PyStr.SplitPiecesAvoid | rplugin/python3/magma/outputbuffer.py:99-102 | a character absent from the string is absent from every piece of its split |
| PyStr.RStrip | rplugin/python3/magma/outputbuffer.py:99 | `str.rstrip` gives the longest prefix that does not end in whitespace; everything cut off is whitespace |
| PyStr.ReplaceLength | rplugin/python3/magma/io.py:34 | each replacement changes the length by the difference of the pattern's and the replacement's lengths |
| PyStr.ReplaceRemoves | rplugin/python3/magma/io.py:34 | replacing every occurrence of a character by a string without it leaves none |
| PyStr.ReplaceAbsent | rplugin/python3/magma/outputchunks.py:49 | a string without the pattern is returned unchanged and counts no occurrence |
| PyStr.CountConcatChar | rplugin/python3/magma/outputbuffer.py:98 | the count of a character in a concatenation is the sum of the counts in its halves |
| PyStr.Repeat | rplugin/python3/magma/outputchunks.py:182 | `c * n` is `n` copies of `c` |
| Json.Lookup | rplugin/python3/magma/__init__.py:100 | `dict.get` finds a value exactly when some item has the key, and then the value is that item's |
| Json.Keys | rplugin/python3/magma/magmabuffer.py:225 | `list(d.keys())` has one key per item |
| Json.KeysAt | rplugin/python3/magma/magmabuffer.py:225 | the keys come in the order of the items |
| Json.Index | rplugin/python3/magma/io.py:20 | `d[key]` succeeds exactly on a dict that has the key, gives its value, and raises `KeyError(key)` on a dict without it |
| Utils.PositionOrder | rplugin/python3/magma/utils.py:30-34 | `<` and `<=` are one lexicographic total order on (lineno, colno); it is transitive and irreflexive, and the buffer number takes no part |
| Utils.ContainsByLine | rplugin/python3/magma/utils.py:74-75 | membership in a half-open span, line by line: a position on a line strictly inside is held; one outside the lines is not; on the first or last line the column decides |
| Utils.EmptySpanHoldsNothing | rplugin/python3/magma/utils.py:74-75 | a span whose end does not come after its begin holds no position |
| Utils.NormalizeLineIndex | rplugin/python3/magma/utils.py:81 | the editor's line index: a negative index counts from one past the end, and an index outside 0..n is flagged |
| Utils.BufGetLines | rplugin/python3/magma/utils.py:81 | a strict line fetch returns exactly the lines start..end when they exist, and raises for an index beyond either end |
| Utils.GetTextOneLine | rplugin/python3/magma/utils.py:83-84 | the text of a one-line span is that line's slice between the two columns |
| Utils.GetTextLines | rplugin/python3/magma/utils.py:85-90 | the text of a span over several lines consists of the tail of the first line, the whole lines between and the head of the last line, one per line of the text |
| Utils.AnchorTable.constructor | rplugin/python3/magma/utils.py:44-49 | the editor starts with no extmark |
| Utils.AnchorTable.SetExtmark | rplugin/python3/magma/utils.py:49 | the editor's answer to setting an extmark, and on success a new key at the given coordinates with every other mark kept; a refusal changes nothing |
| Utils.AnchorTable.DelExtmark | rplugin/python3/magma/utils.py:52 | the mark is gone and every other mark is kept |
| Utils.AnchorTable.EditorMoves | rplugin/python3/magma/utils.py:54-63 | the editor moves one mark and keeps the others |
| Utils.SetExtmarkOutcome | rplugin/python3/magma/utils.py:49 | the editor accepts a mark exactly on an existing line (or the line one past the end) and a column from -1 up to the line's length |
| Utils.NewDynamicPosition | rplugin/python3/magma/utils.py:44-49 | a dynamic position is made exactly when the editor accepts the extmark; it then carries the buffer and namespace given, and a refusal leaves the table unchanged and passes the editor's error on |
| Utils.DropDynamicPosition | rplugin/python3/magma/utils.py:51-52 | deleting a dynamic position removes exactly its extmark |
| Utils.Resolve | rplugin/python3/magma/utils.py:54-63 | the coordinates of a dynamic position are read from its extmark, and reading a deleted extmark raises |
| Utils.ContainsDynamicAgrees | rplugin/python3/magma/utils.py:74-75 | `pos in span` read through live extmarks agrees with membership on the marks' coordinates; a deleted begin mark raises, and only a span that cannot be read raises |
| Utils.NvimUi | rplugin/python3/magma/utils.py:10-17 | a MagmaException becomes exactly one error line, "[Magma] " + message + newline; any other exception propagates unchanged; a normal return writes nothing |
| OutputChunks.TextLnChunk | rplugin/python3/magma/outputchunks.py:69-71 | the chunk's text is the given text followed by one newline, and it carries no bundle |
| OutputChunks.ErrorChunkLines | rplugin/python3/magma/outputchunks.py:86-96 | an error chunk's text ends in a newline; before it, the lines are the heading "[Error] name: message", then "Traceback:", then the traceback entries, one per line |
| OutputChunks.SkipParams | rplugin/python3/magma/outputchunks.py:41 | the `[0-?]*` part of the regex: the longest run of parameter bytes from a position |
| OutputChunks.SkipIntermediates | rplugin/python3/magma/outputchunks.py:41 | the `[ -/]*` part of the regex: the longest run of intermediate bytes from a position |
| OutputChunks.AnsiMatchLength | rplugin/python3/magma/outputchunks.py:41 | a match of the ANSI regex at the start of a string is empty or at least two characters long, and starts with ESC |
| OutputChunks.StripAnsi | rplugin/python3/magma/outputchunks.py:48 | removing the regex's matches never lengthens the text |
| OutputChunks.StripAnsiPlain | rplugin/python3/magma/outputchunks.py:48 | text without ESC passes the regex unchanged |
| OutputChunks.StripAnsiKeeps | rplugin/python3/magma/outputchunks.py:48 | a character absent from the input is absent from the output: every character kept comes from the text |
| OutputChunks.CleanupNotLonger | rplugin/python3/magma/outputchunks.py:46-50 | the cleaned text is the stripped text less one character per CRLF, and never longer than the input |
| OutputChunks.CleanupPlain | rplugin/python3/magma/outputchunks.py:46-50 | text with neither ESC nor carriage returns is left as it is |
| OutputChunks.NoCrlf | rplugin/python3/magma/outputchunks.py:49 | a string without a carriage return contains no CRLF |
| OutputChunks.CleanupExample | rplugin/python3/magma/outputchunks.py:46-50 | a red-coloured line ending in CRLF cleans to "red\n" |
| OutputChunks.CleanupNotIdempotent | rplugin/python3/magma/outputchunks.py:46-50 | cleaning twice can differ from cleaning once: removing one ESC sequence can join the halves of another |
| OutputChunks.CharPixelSize | rplugin/python3/magma/outputchunks.py:112-136 | a character's pixel size, when known, is at least 1 by 1 |
| OutputChunks.NLinesWithoutPixelSize | rplugin/python3/magma/outputchunks.py:141-160 | without a pixel size the image gets a third of the room below its line, rounded down |
| OutputChunks.FitLinesBounded | rplugin/python3/magma/outputchunks.py:149-158 | the aspect-ratio fit never exceeds the room below the line nor the image's height in cells; it fails, as Python's division by zero does, exactly when the image has no height, or no width while too wide |
| OutputChunks.NLinesFit | rplugin/python3/magma/outputchunks.py:138-162 | with a pixel size, an image never takes more lines than the room below it, nor more than its height in character cells |
| OutputChunks.FloorBelow | rplugin/python3/magma/outputchunks.py:153-157 | when the image would be too wide at full height, the narrower height it gets is below the room |
| OutputChunks.WrapKeepsShortLines | rplugin/python3/magma/outputchunks.py:59-66 | with wrapping on, lines that wrapping leaves whole come back as the cleaned text |
| OutputChunks.Place | rplugin/python3/magma/outputchunks.py:52-182 | a text chunk yields its placed text and no image; an image chunk requests its image at (x, y + lineno + 1) with the window's width and its line count, and yields exactly that many newlines |
| OutputChunks.NewlinesCount | rplugin/python3/magma/outputchunks.py:182 | "\n" * n holds n newlines |
| OutputChunks.StatusFromValue | rplugin/python3/magma/outputchunks.py:185-188 | `OutputStatus(v)` succeeds exactly for 0, 1 and 2, and gives the member of that value |
| OutputChunks.StatusValueRoundTrip | rplugin/python3/magma/outputchunks.py:185-188 | every status comes back from its value |
| OutputChunks.Output.constructor | rplugin/python3/magma/outputchunks.py:200-207 | a new Output is on hold, with no chunks, successful, not old, not to be cleared, and with the given execution count |
| OutputChunks.ToOutputChunk | rplugin/python3/magma/outputchunks.py:273-289 | the loop over the MIME priority table computes the conversion defined tier by tier |
| OutputChunks.ResolveCarriesBundle | rplugin/python3/magma/outputchunks.py:286-287 | every chunk returned carries the bundle and metadata it was made from |
| OutputChunks.ResolveKeepsAllocations | rplugin/python3/magma/outputchunks.py:230-281 | files allocated by earlier tiers are kept, and new ones go after them |
| OutputChunks.AbsentTiersSkipped | rplugin/python3/magma/outputchunks.py:276-277 | tiers whose MIME type is absent or null are passed over |
| OutputChunks.NoUsableMimetype | rplugin/python3/magma/outputchunks.py:283-284 | a bundle with none of the five MIME types becomes a BadOutputChunk listing its keys, and allocates nothing |
| OutputChunks.FirstPresentDecides | rplugin/python3/magma/outputchunks.py:274-281 | the first MIME type present decides: its chunk is returned, or its exception propagates; only an ImportError moves on to the next tiers, after the files it allocated |
| OutputChunks.PlainTextBundle | rplugin/python3/magma/outputchunks.py:262-270 | a bundle whose only usable entry is a text/plain string becomes that text plus a newline |
| Images.Marked | rplugin/python3/magma/images.py:136-143 | setting the visibility of some placements keeps the set of identifiers |
| Images.UeberzugInvPreserved | rplugin/python3/magma/images.py:132-181 | add_image, present and clear keep every visible or pending identifier backed by a placement, so present never looks up a missing key |
| Images.UeberzugPresentSemantics | rplugin/python3/magma/images.py:132-146 | after present nothing is pending, and the visible set has gained what was pending show; an image pending both show and hide is visible, one pending hide only is invisible, and the others keep their placement |
| Images.UeberzugPresentIdempotent | rplugin/python3/magma/images.py:132-146 | presenting twice is presenting once |
| Images.UeberzugIgnoresEmpty | rplugin/python3/magma/images.py:164 | an image of zero width or height is not added at all |
| Images.UeberzugClearThenPresent | rplugin/python3/magma/images.py:132-151 | clear then present hides every visible image that was not added again |
| Images.UeberzugCanvas.constructor | rplugin/python3/magma/images.py:115-123 | a new Ueberzug canvas has no placement and nothing visible or pending |
| Images.UeberzugCanvas.AddImage | rplugin/python3/magma/images.py:153-181 | the state after add_image is the functional UeberzugAdd of the old state |
| Images.UeberzugCanvas.Clear | rplugin/python3/magma/images.py:148-151 | the state after clear is UeberzugClear of the old state |
| Images.UeberzugCanvas.Present | rplugin/python3/magma/images.py:132-146 | the two loops of present compute UeberzugPresent of the old state |
| Images.UeberzugCanvas.Hide | rplugin/python3/magma/images.py:136-139 | the first loop of present makes exactly the given placements invisible and leaves the sets unchanged |
| Images.UeberzugCanvas.Show | rplugin/python3/magma/images.py:140-144 | the second loop makes exactly the given placements visible and adds them to the visible set |
| Images.KittyAddPreserves | rplugin/python3/magma/images.py:346-368 | add_image keeps the ids dense from 0 and distinct, with next_id the number of images |
| Images.KittyPresentClearPreserve | rplugin/python3/magma/images.py:299-344 | present and clear keep that invariant |
| Images.KittyAddIds | rplugin/python3/magma/images.py:355-368 | a new identifier gets id next_id and next_id grows by one; a known identifier keeps its id and geometry and takes only the new path; no other image changes |
| Images.KittyPresentSemantics | rplugin/python3/magma/images.py:299-339 | after present nothing is pending, the visible set has gained what was pending show, and no image is changed; the hides and shows scheduled are disjoint, and an image pending both is neither hidden nor shown again |
| Images.KittyCanvas.constructor | rplugin/python3/magma/images.py:274-280 | a new Kitty canvas has no image, next id 0 and nothing visible or pending |
| Images.KittyCanvas.AddImage | rplugin/python3/magma/images.py:346-368 | the state after add_image is KittyAdd of the old state |
| Images.KittyCanvas.Clear | rplugin/python3/magma/images.py:341-344 | the state after clear is KittyClear of the old state |
| Images.KittyCanvas.Present | rplugin/python3/magma/images.py:299-339 | present reaches KittyPresent of the old state and returns the images whose hide and show writes it schedules |
| Images.KeyValues | rplugin/python3/magma/images.py:207 | one "k=v" piece per control key |
| Images.UndoubleDoubled | rplugin/python3/magma/images.py:227 | doubling every ESC is undone by reading each ESC ESC as one ESC |
| Images.TmuxRoundTrip | rplugin/python3/magma/images.py:205-228 | inside tmux the command is framed by ESC P tmux; and ESC \, and with the frame removed and the escapes undoubled it is the plain command |
| Images.Pieces | rplugin/python3/magma/images.py:234-235 | data is cut into ceil(len / 4096) non-empty pieces of at most 4096 characters |
| Images.PiecesConcat | rplugin/python3/magma/images.py:234-235 | the pieces put back together are the data, and every piece but the last is full |
| Images.ChunkedWrites | rplugin/python3/magma/images.py:230-240 | write_chunked makes one write per piece |
| Images.WriteChunked | rplugin/python3/magma/images.py:230-240 | the loop that consumes the data 4096 characters at a time writes exactly ChunkedWrites |
| Images.ChunkedFlags | rplugin/python3/magma/images.py:234-240 | empty data writes nothing; each write carries m=1 except the last, which carries m=0, and only the first carries the control keys |
| Images.HideWriteFrame | rplugin/python3/magma/images.py:256-263 | outside tmux, hide writes ESC _G i=<id>,a=d,q=2 ESC \ with no payload separator |
| Images.ShowSmallImage | rplugin/python3/magma/images.py:242-254 | an image whose encoding fits one piece is shown by one command with m=0 and all eight control keys |
| Images.NoCanvasInert | rplugin/python3/magma/images.py:78-103 | every NoCanvas operation does nothing |
| Images.AddImage | rplugin/python3/magma/images.py:45-54 | canvas.add_image acts on the state of whichever canvas is in use |
| Images.Clear | rplugin/python3/magma/images.py:39-43 | canvas.clear acts on the state of whichever canvas is in use |
| Images.Present | rplugin/python3/magma/images.py:28-37 | canvas.present acts on the state of whichever canvas is in use |
| Images.ProviderOutcome | rplugin/python3/magma/images.py:371-379 | only "none", "ueberzug" and "kitty" name a provider; any other name raises MagmaException("Unknown image provider: '<name>'") |
| Images.GetCanvasGivenProvider | rplugin/python3/magma/images.py:371-379 | a known name gives a new, valid canvas of that kind in its initial state; an unknown one gives the error |
| Runtime.ClearPending | rplugin/python3/magma/runtime.py:137-139 | a pending clear empties the chunks and is reset; without one the output is left alone |
| Runtime.StrList | rplugin/python3/magma/runtime.py:175-179 | a traceback is accepted only as a list of strings, which it gives in order |
| Runtime.ExecuteInput | rplugin/python3/magma/runtime.py:141-153 | execute_input keeps the runtime state, the chunks and the files; the status never goes back, and it changes only for a kernel the plugin started |
| Runtime.StatusMessage | rplugin/python3/magma/runtime.py:154-165 | a status message keeps the chunks and files; the output's status changes only to DONE, and then the runtime is IDLE |
| Runtime.BundleMessage | rplugin/python3/magma/runtime.py:169-173 | execute_result, and display_data (lines 187-191), only add chunks and files, and keep the state and status |
| Runtime.ErrorMessage | rplugin/python3/magma/runtime.py:174-182 | an error message appends exactly one chunk and marks the execution failed; a malformed one changes nothing |
| Runtime.StreamMessage | rplugin/python3/magma/runtime.py:183-186 | a stream message only adds chunks, and keeps the state and status |
| Runtime.ClearMessage | rplugin/python3/magma/runtime.py:195-200 | clear_output keeps the state and status, and either keeps the chunks or empties them |
| Runtime.Dispatch | rplugin/python3/magma/runtime.py:141-203 | no message kind moves the status back or drops a file; only clear_output can drop chunks or set the pending clear |
| Runtime.TickOneSpec | rplugin/python3/magma/runtime.py:125-203 | after a pending clear, the message only adds chunks (unless it is clear_output); the status never goes back, and the pending clear is reset |
| Runtime.IgnoredMessages | rplugin/python3/magma/runtime.py:166-203 | execute_reply, update_display_data and unknown kinds report no work and change nothing beyond the pending clear |
| Runtime.PendingClearFirst | rplugin/python3/magma/runtime.py:137-139 | a pending clear is carried out before the message is handled |
| Runtime.StatusTransitions | rplugin/python3/magma/runtime.py:154-165 | "idle" makes the runtime IDLE and the output DONE; "busy" makes the runtime RUNNING; "starting" fails the assertion; any other state reports no work |
| Runtime.ExecuteInputTransitions | rplugin/python3/magma/runtime.py:141-153 | the count is always recorded; for a kernel the plugin started the status goes from HOLD to RUNNING to DONE, and DONE fails the assertion |
| Runtime.TracebackJson | rplugin/python3/magma/runtime.py:177 | the JSON list of a traceback reads back as the traceback |
| Runtime.ErrorFields | rplugin/python3/magma/runtime.py:177 | the fields of an error message's content are found by key |
| Runtime.ErrorAppends | rplugin/python3/magma/runtime.py:174-182 | an error message appends its ErrorOutputChunk, marks the output failed, and reports work |
| Runtime.StreamAppends | rplugin/python3/magma/runtime.py:183-186 | a stream message appends its text as it came, and reports work |
| Runtime.ClearOutputSemantics | rplugin/python3/magma/runtime.py:195-200 | clear_output with wait only sets the pending clear; without wait the chunks go at once |
| Runtime.DrainConsumesPrefix | rplugin/python3/magma/runtime.py:224-239 | what the drain leaves in the queue is a suffix of it |
| Runtime.DrainStopsAtDone | rplugin/python3/magma/runtime.py:236-239 | a drain that ends without an exception while messages are left has finished the output |
| Runtime.DrainKeepsWork | rplugin/python3/magma/runtime.py:234 | work reported before the drain is never forgotten |
| Runtime.IncompleteSkipped | rplugin/python3/magma/runtime.py:228-229 | a message without content or msg_type is passed over |
| Runtime.NotReadyNoChange | rplugin/python3/magma/runtime.py:213-219 | a runtime that is still starting and fails the readiness probe reports no work and changes nothing |
| Runtime.ReadyWithoutOutput | rplugin/python3/magma/runtime.py:213-222 | a probe that succeeds makes the runtime IDLE and counts as work; with no output no message is read |
| Runtime.BundleAppends | rplugin/python3/magma/runtime.py:117-123 | a bundle on execute_result or display_data (lines 169-173, 187-191) has its converted chunk appended, with the files its renderer allocated |
| Runtime.OnePlusOne | rplugin/python3/magma/runtime.py:205-241 | busy, the echoed input, the result and idle: the drain reads all four messages and leaves the output DONE, with count 1 and the result chunk |
| Runtime.JupyterRuntime.constructor | rplugin/python3/magma/runtime.py:35-83 | a new runtime is STARTING, has the kernel name and its connection kind, and no files, messages or requests; every branch sets external_kernel to True |
| Runtime.JupyterRuntime.IsReady | rplugin/python3/magma/runtime.py:85-86 | ready exactly when past STARTING |
| Runtime.JupyterRuntime.Restart | rplugin/python3/magma/runtime.py:99-101 | back to STARTING, with a restart request sent |
| Runtime.JupyterRuntime.Interrupt | rplugin/python3/magma/runtime.py:96-97 | an interrupt request is sent and nothing else changes |
| Runtime.JupyterRuntime.RunCode | rplugin/python3/magma/runtime.py:103-104 | the code is sent for execution and nothing else changes |
| Runtime.JupyterRuntime.Deliver | rplugin/python3/magma/runtime.py:226 | the kernel publishing a message appends it to the iopub queue |
| Runtime.JupyterRuntime.Deinit | rplugin/python3/magma/runtime.py:88-94 | every allocated file that exists is removed; a shutdown is sent only when the kernel is not external |
| Runtime.JupyterRuntime.AppendChunk | rplugin/python3/magma/runtime.py:117-123 | _append_chunk reaches the state of AppendChunkSpec |
| Runtime.JupyterRuntime.HandleExecuteInput | rplugin/python3/magma/runtime.py:141-153 | the handler reaches ExecuteInput of the old state |
| Runtime.JupyterRuntime.HandleStatus | rplugin/python3/magma/runtime.py:154-165 | the handler reaches StatusMessage of the old state |
| Runtime.JupyterRuntime.HandleBundle | rplugin/python3/magma/runtime.py:169-173 | the handler for execute_result and display_data (lines 187-191) reaches BundleMessage of the old state |
| Runtime.JupyterRuntime.HandleError | rplugin/python3/magma/runtime.py:174-182 | the handler reaches ErrorMessage of the old state |
| Runtime.JupyterRuntime.HandleStream | rplugin/python3/magma/runtime.py:183-186 | the handler reaches StreamMessage of the old state |
| Runtime.JupyterRuntime.HandleClear | rplugin/python3/magma/runtime.py:195-200 | the handler reaches ClearMessage of the old state |
| Runtime.JupyterRuntime.TickOne | rplugin/python3/magma/runtime.py:125-203 | _tick_one reaches TickOneSpec of the old state and leaves the queue and the requests alone |
| Runtime.JupyterRuntime.Handle | rplugin/python3/magma/runtime.py:141-203 | the dispatch reaches Dispatch of the old state |
| Runtime.JupyterRuntime.Tick | rplugin/python3/magma/runtime.py:205-241 | tick reaches TickSpec of the old state, queue and output, and sends nothing |
| Runtime.JupyterRuntime.Drain | rplugin/python3/magma/runtime.py:224-241 | the loop over the iopub queue reaches DrainSpec of the old state |
| OutputLayout.StatusLabel | rplugin/python3/magma/outputbuffer.py:47-57 | every status label has at least two characters |
| OutputLayout.HeaderText | rplugin/python3/magma/outputbuffer.py:41-64 | the header starts with "[OLD] " exactly when the output was loaded from a file |
| OutputLayout.StatusLabelEnd | rplugin/python3/magma/outputbuffer.py:47-57 | the last two characters of "* On Hold", "✓ Done", "✗ Failed" and "... Running" tell the four apart |
| OutputLayout.HeaderTail | rplugin/python3/magma/outputbuffer.py:64 | the header ends with the status label |
| OutputLayout.HeaderDistinguishes | rplugin/python3/magma/outputbuffer.py:41-64 | two equal headers belong to outputs with the same old flag and status, and, when done, the same success |
| OutputLayout.CarriageReturnOverwrites | rplugin/python3/magma/outputbuffer.py:102-103 | a carriage return hides all that came before it on the line |
| OutputLayout.LastSegmentPlain | rplugin/python3/magma/outputbuffer.py:102-103 | a line without carriage returns is shown whole |
| OutputLayout.KeptLinesClean | rplugin/python3/magma/outputbuffer.py:100-106 | the kept lines are non-empty, hold no carriage return, and hold no character absent from all input lines |
| OutputLayout.KeptLinesPlain | rplugin/python3/magma/outputbuffer.py:100-106 | non-empty lines without carriage returns are all kept unchanged |
| OutputLayout.BodyLinesClean | rplugin/python3/magma/outputbuffer.py:99-106 | each shown body line is non-empty with no newline and no carriage return |
| OutputLayout.BodyLinesRoundTrip | rplugin/python3/magma/outputbuffer.py:99-106 | for a text without carriage returns or blank lines, joining the body lines with newlines gives back the right-stripped text |
| OutputLayout.ProcessLines | rplugin/python3/magma/outputbuffer.py:100-106 | the filtering loop computes KeptLines of its input |
| OutputLayout.ProcessText | rplugin/python3/magma/outputbuffer.py:99-107 | the line processing computes BodyLines of the placed text |
| OutputLayout.PlaceFromCountsLines | rplugin/python3/magma/outputbuffer.py:93-98 | when no chunk raises, the line counter ends at its start plus the newlines of the placed text |
| OutputLayout.FirstImagePosition | rplugin/python3/magma/outputbuffer.py:93-96 | an image chunk placed first is drawn at the window's left edge, one line below the header |
| OutputLayout.NoCanvasKeepsNothing | rplugin/python3/magma/outputbuffer.py:94-96 | with no canvas the images of the placed chunks go nowhere |
| OutputLayout.PlaceStep | rplugin/python3/magma/outputbuffer.py:93-98 | one turn of the loop moves the placed chunk's text and image request into the placed part |
| OutputLayout.PlaceChunks | rplugin/python3/magma/outputbuffer.py:89-98 | the loop computes PlaceFrom of the chunks from line 0 |
| OutputLayout.AddImages | rplugin/python3/magma/outputbuffer.py:94-96 | the canvas receives the placed images in order and stays valid |
| OutputLayout.BufferToWindowLineno | rplugin/python3/magma/outputbuffer.py:36-39 | the window line is the buffer line less the first shown line, counted from 1 |
| OutputLayout.UsableHeight | rplugin/python3/magma/outputbuffer.py:82-84 | borders take two lines of the window height |
| OutputLayout.WindowGeometry | rplugin/python3/magma/outputbuffer.py:115-128 | a window opens exactly when the row is above the usable height; it is at that row, as wide as the current window, at least one line and at most the room below or the lines plus the header; rounded border with borders, minimal style without them |
| OutputLayout.LayOut | rplugin/python3/magma/outputbuffer.py:99-134 | the part of show after the placing loop computes LaidOut |
| OutputLayout.ShowEmptyOutput | rplugin/python3/magma/outputbuffer.py:108-121 | an output without chunks shows its header over one empty line, in a window one line tall |
| OutputLayout.ShowOpensWindow | rplugin/python3/magma/outputbuffer.py:75-134 | show opens a window exactly when nothing raised, none was open and the anchor's next row fits; the window is at that row, no taller than the shown lines or the room below |
| OutputLayout.OutputBuffer.constructor | rplugin/python3/magma/outputbuffer.py:23-34 | a fresh output with no execution count, an empty scratch buffer, no window, and the given canvas and options |
| OutputLayout.OutputBuffer.Enter | rplugin/python3/magma/outputbuffer.py:66-68 | the cursor goes to the output window, if there is one |
| OutputLayout.OutputBuffer.ClearInterface | rplugin/python3/magma/outputbuffer.py:70-73 | an open window is closed and forgotten; a close that raises keeps it; the output and the display lines are kept |
| OutputLayout.OutputBuffer.Show | rplugin/python3/magma/outputbuffer.py:75-134 | show reaches ShowSpec of the old output, window and canvas, and leaves the output alone |
| OutputLayout.OutputBuffer.Display | rplugin/python3/magma/outputbuffer.py:94-134 | the placed images go to the canvas in order, and the display lines and window become LaidOut |
| Ledger.Spans | rplugin/python3/magma/magmabuffer.py:225 | the keys of the outputs dict, one per cell, in insertion order |
| Ledger.Lookup | rplugin/python3/magma/magmabuffer.py:320 | an entry is found exactly for a key of the dict, and it is that key's entry |
| Ledger.Remove | rplugin/python3/magma/magmabuffer.py:94-95 | `del d[k]` keeps exactly the cells with other keys |
| Ledger.SpansAppend | rplugin/python3/magma/magmabuffer.py:96 | the keys of two joined ledgers are the keys of each, in order |
| Ledger.RemoveLookup | rplugin/python3/magma/magmabuffer.py:237 | after deleting a key, that key has no entry, every other key keeps its entry, and the keys stay distinct |
| Ledger.RemoveAbsent | rplugin/python3/magma/magmabuffer.py:94-95 | deleting a key that is not there changes nothing |
| Ledger.RemoveConcat | rplugin/python3/magma/magmabuffer.py:95 | deleting from two joined ledgers deletes from each |
| Ledger.RemoveSplit | rplugin/python3/magma/magmabuffer.py:237 | deleting a key from the middle keeps the cells before and after it in order |
| Ledger.AssignAbsent | rplugin/python3/magma/magmabuffer.py:96 | setting a new key appends it at the end of the insertion order |
| Ledger.AssignPresent | rplugin/python3/magma/magmabuffer.py:96 | setting an existing key keeps every key in its place |
| Ledger.ReplaceMovesLast | rplugin/python3/magma/magmabuffer.py:93-96 | run_code's delete-then-set moves the span to the end, gives it the new entry, and keeps every other entry and the distinct keys |
| Ledger.ReplaceDistinct | rplugin/python3/magma/magmabuffer.py:93-96 | run_code's update keeps each span once |
| Ledger.AssignDistinct | rplugin/python3/magma/magmabuffer.py:96 | `d[k] = v` keeps each span once |
| Ledger.LookupAppend | rplugin/python3/magma/magmabuffer.py:96 | after appending a new key, it has its entry and every other key keeps its own |
| Ledger.ReplaceSplit | rplugin/python3/magma/magmabuffer.py:93-96 | a span run again moves from its place to the end, with the new entry |
| Ledger.CursorPosition | rplugin/python3/magma/magmabuffer.py:203-205 | getcurpos's 1-based line and column become a 0-based position in the current buffer |
| Ledger.SelectMostRecent | rplugin/python3/magma/magmabuffer.py:222-230 | the selection is None exactly when no span contains the cursor; otherwise it is a span that contains it with no later-inserted span containing it; an error comes from the first dead extmark met in the reverse scan |
| Ledger.SelectLive | rplugin/python3/magma/magmabuffer.py:222-230 | with every extmark live the scan never raises, and the span it selects contains the cursor |
| Ledger.Promote | rplugin/python3/magma/magmabuffer.py:115-121 | when the current output is None or DONE and the queue is not empty, the head becomes current and leaves the queue; otherwise nothing changes |
| Ledger.PromotionIsFifo | rplugin/python3/magma/magmabuffer.py:115-121 | over any series of calls the outputs made current, followed by those still queued, are the queue in order, and at most one is promoted per call |
| Ledger.ShowPlaced | rplugin/python3/magma/magmabuffer.py:175-200 | once the chunks are placed: the images asked for are the ones the chunks placed; a placing error leaves one empty line; otherwise the header is the first of at least two lines, the window must not be open, and a window, the new one, is opened exactly when a window configuration is given |
| Ledger.ShowOutputsSpec | rplugin/python3/magma/magmabuffer.py:162-200 | showing succeeds only for a real Output with no window open, and its header is then the first line; images are asked for only for a real Output; a window that appears is the new one |
| Ledger.PlacedLikeLaidOut | rplugin/python3/magma/magmabuffer.py:184-200 | once the chunks are placed, `_show_outputs` and `OutputBuffer.show` without borders raise the same exceptions and open a window in the same cases, at the same row and width |
| Ledger.ShowOutputsLikeShow | rplugin/python3/magma/magmabuffer.py:162-200 | `_show_outputs` and `OutputBuffer.show` without borders ask the canvas for the same images, raise the same exceptions and open a window in the same cases, at the same row and width |
| Ledger.FlaggedKeepsFlags | rplugin/python3/magma/magmabuffer.py:259-265 | showing the selection keeps the selection and the open flag, clears the updating flag when it succeeds, and opens a window only for a selection whose flag is set |
| Ledger.UpdateElsewhere | rplugin/python3/magma/magmabuffer.py:241-245 | update_interface changes nothing for a buffer that is not the current one and in the current window |
| Ledger.UpdateFlags | rplugin/python3/magma/magmabuffer.py:249-265 | a completed update leaves the updating flag off and the selection recomputed; the open flag is on under auto-open, and otherwise stays on only while the selection stays the same; a window open afterwards belongs to a selected cell with the flag on |
| Ledger.ClearSemantics | rplugin/python3/magma/magmabuffer.py:207-220 | clear_interface does nothing while an update is in progress, and otherwise closes the window unless closing it raises |
| Ledger.UpdateRaisingSticks | rplugin/python3/magma/magmabuffer.py:249-265 | an update that raises after setting the updating flag leaves it set, so later clear_interface calls do nothing |
| Ledger.DeleteForgets | rplugin/python3/magma/magmabuffer.py:232-239 | delete_cell removes exactly the selected span's entry, keeps every other entry and keeps the keys distinct; with nothing selected the ledger is unchanged |
| Ledger.StoredNoneStalls | rplugin/python3/magma/magmabuffer.py:92-98 | as written run_code stores and queues None: showing it raises AttributeError, it can still be promoted, and the runtime's tick then reads no message |
| Ledger.StoredOutputShows | rplugin/python3/magma/magmabuffer.py:92-98 | with a real Output stored, showing it asks for the images its chunks place, raises exactly when placing a chunk raises, and opens a window exactly when the anchor row is inside the window; a new Output without chunks shows its header over one empty line in a window one line tall; an idle buffer promotes it |
| Ledger.MagmaBuffer.constructor | rplugin/python3/magma/magmabuffer.py:37-67 | a new runtime that is STARTING for the kernel, an empty ledger and queue, no current output, no selection or window, both flags off, and the two init autocommands fired |
| Ledger.MagmaBuffer.Deinit | rplugin/python3/magma/magmabuffer.py:73-76 | the runtime's file cleanup between the two deinit autocommands; the ledger and interface are kept |
| Ledger.MagmaBuffer.Interrupt | rplugin/python3/magma/magmabuffer.py:78-79 | an interrupt request is sent and nothing else changes |
| Ledger.MagmaBuffer.ClearInterface | rplugin/python3/magma/magmabuffer.py:207-220 | the interface and canvas reach ClearSpec; the ledger is kept |
| Ledger.GetSelectedSpan | rplugin/python3/magma/magmabuffer.py:222-230 | the reverse loop with break computes SelectFrom: the most recent span containing the cursor, or the first dead extmark's error |
| Ledger.MagmaBuffer.UpdateInterface | rplugin/python3/magma/magmabuffer.py:241-265 | the interface, the display buffer and the canvas reach what UpdateSpec says of the state before the call, the selected output's chunks placed and their images added; the ledger, the queue and what the cursor's span holds are kept |
| Ledger.MagmaBuffer.Reselect | rplugin/python3/magma/magmabuffer.py:249-265 | after clearing: the updating flag set, then the interface, the display buffer and the canvas reach SelectStep for the span the cursor selects |
| Ledger.MagmaBuffer.FinishUpdate | rplugin/python3/magma/magmabuffer.py:253-265 | once the selection is known, the interface, the display buffer and the canvas reach ShowSelected; what the selected span holds is kept |
| Ledger.MagmaBuffer.OpenSelected | rplugin/python3/magma/magmabuffer.py:259-263 | the selected output is shown when the open flag is set, its chunks placed and their images added to the canvas, and the canvas is then presented, as ShowFlagged says |
| Ledger.MagmaBuffer.ShowOutputs | rplugin/python3/magma/magmabuffer.py:162-200 | the display buffer, the window, the result and the canvas are as ShowOutputsSpec says of what the entry held before the call; the ledger, the selection and the flags are kept |
| Ledger.MagmaBuffer.ShowEntry | rplugin/python3/magma/magmabuffer.py:169-200 | once the anchor has given the window row, the display buffer is emptied before the entry is read; None and an OutputBuffer then raise AttributeError on `chunks`, and an Output is shown as ShowOutputsSpec says of its record |
| Ledger.MagmaBuffer.ShowRecordInto | rplugin/python3/magma/magmabuffer.py:172-200 | every chunk of the record is placed in the window's shape, then the display is as ShowRecord says |
| Ledger.MagmaBuffer.Display | rplugin/python3/magma/magmabuffer.py:177-200 | the placed images reach the canvas in the order the chunks asked for them, and the display buffer and window are as ShowPlaced says |
| Ledger.MagmaBuffer.PresentCanvas | rplugin/python3/magma/magmabuffer.py:263 | the canvas is presented and the ledger and interface are kept |
| Ledger.MagmaBuffer.Restart | rplugin/python3/magma/magmabuffer.py:81-86 | outputs are emptied only with delete_outputs; the runtime restarts unless clearing the interface raised; the queue and current output are kept |
| Ledger.MagmaBuffer.CheckIfDoneRunning | rplugin/python3/magma/magmabuffer.py:115-121 | the current output and queue become Promote of the old ones |
| Ledger.MagmaBuffer.Submit | rplugin/python3/magma/magmabuffer.py:92-104 | the code is sent, the span moves last with the given entry, the output is queued, the interface updated, and then the queue advanced unless the update raised |
| Ledger.MagmaBuffer.UpdateAndAdvance | rplugin/python3/magma/magmabuffer.py:101-104 | the interface reaches what UpdateSpec says; the queue is advanced by the promotion rule only when the update did not raise; the runtime is left alone |
| Ledger.MagmaBuffer.Enqueue | rplugin/python3/magma/magmabuffer.py:92-101 | the code is sent, the span moves last with the given entry, the output joins the tail of the queue, and the span is selected with the open flag on |
| Ledger.MagmaBuffer.RunCode | rplugin/python3/magma/magmabuffer.py:92-104 | as written: the ledger stores and the queue receives None |
| Ledger.MagmaBuffer.RunCodeFixed | rplugin/python3/magma/magmabuffer.py:92-104 | corrected: a fresh Output(None) is stored under the span, queued, and promoted when the buffer is idle |
| Ledger.MagmaBuffer.ReevaluateCell | rplugin/python3/magma/magmabuffer.py:106-113 | outside every cell it raises "Not in a cell" and sends nothing; otherwise the selected span's text is run as a new execution of that span, with a fresh output stored as the corrected run_code does (see Findings) |
| Ledger.MagmaBuffer.RunSpan | rplugin/python3/magma/magmabuffer.py:111-113 | the span's text is run when it can be read, a fresh output stored as the corrected run_code does (see Findings); a dead extmark raises and sends nothing |
| Ledger.MagmaBuffer.DeleteCell | rplugin/python3/magma/magmabuffer.py:232-239 | the ledger and interface reach DeleteSpec; the queue and current output are kept |
| Ledger.MagmaBuffer.RemoveCell | rplugin/python3/magma/magmabuffer.py:237-239 | the span's entry is removed and the interface updated |
| Ledger.MagmaBuffer.Tick | rplugin/python3/magma/magmabuffer.py:123-135 | the queue is advanced first; the runtime then reaches TickSpec on the current output; the interface is updated iff that reported work |
| Ledger.MagmaBuffer.TickCurrent | rplugin/python3/magma/magmabuffer.py:126-135 | tick once the queue has been advanced |
| Ledger.MagmaBuffer.AfterTick | rplugin/python3/magma/magmabuffer.py:128-135 | the interface reaches TickInterface; the readiness notice is added iff the kernel was not ready before and is now |
| Ledger.MagmaBuffer.UpdateOnWork | rplugin/python3/magma/magmabuffer.py:127-129 | an error from the runtime's tick is passed on, a tick that did nothing leaves the interface alone, and one that did work updates it, as TickInterface says; the kernel state is kept |
| Ledger.MagmaBuffer.TickRuntime | rplugin/python3/magma/magmabuffer.py:127 | runtime.tick on the current output reaches TickSpec and touches neither the ledger nor the canvas |
| SaveIO.AssertHasKey | rplugin/python3/magma/io.py:15-26 | a missing key raises "Missing key: " and the key; a value failing isinstance raises the type error; otherwise the value under the key is returned, and it has the type asked for |
| SaveIO.AssertHasKeyFound | rplugin/python3/magma/io.py:18-26 | a dict holding the key with a value of the type gives that value |
| SaveIO.AssertHasKeyMismatch | rplugin/python3/magma/io.py:21-25 | a dict holding the key with a value of another type gives the mismatch error |
| SaveIO.BoolPassesAsInt | rplugin/python3/magma/io.py:21 | isinstance lets a bool through where an int is asked for, but not an int where a bool is |
| SaveIO.MangleNoSlash | rplugin/python3/magma/io.py:34 | a mangled name holds no "/" |
| SaveIO.MangleLength | rplugin/python3/magma/io.py:34 | mangling adds one character per "%" of the name |
| SaveIO.MangleCollides | rplugin/python3/magma/io.py:34 | "a/%" and "a%/" mangle to the same name, so mangling is not injective |
| SaveIO.GetDefaultSaveFileAsWritten | rplugin/python3/magma/io.py:29-36 | as written: a "nofile" buftype raises "Buffer does not correspond to a file", and every call raises, since the options have no save_path |
| SaveIO.DefaultSaveFileUnreachable | rplugin/python3/magma/io.py:36 | for a buffer with a file the as-written function raises AttributeError on save_path |
| SaveIO.GetDefaultSaveFile | rplugin/python3/magma/io.py:29-36 | corrected: it succeeds exactly when the buftype does not contain "nofile", and fails with "Buffer does not correspond to a file" otherwise |
| SaveIO.BasenameAfterSlash | rplugin/python3/magma/io.py:36 | joining a directory and a name without "/" gives a path whose basename is the name |
| SaveIO.SaveFileInDirectory | rplugin/python3/magma/io.py:34-36 | the save file of a file buffer starts with the save directory and its basename is the mangled name plus ".json" |
| SaveIO.KeptChunks | rplugin/python3/magma/io.py:120-128 | save keeps exactly the chunks with both their data and metadata, in order |
| SaveIO.SavedChunks | rplugin/python3/magma/io.py:120-128 | one saved bundle per kept chunk |
| SaveIO.CellsJson | rplugin/python3/magma/io.py:105-131 | one saved cell per ledger cell, each the cell's span and output |
| SaveIO.EntryRecord | rplugin/python3/magma/io.py:117-119 | `output.output` exists only on an OutputBuffer entry |
| SaveIO.CellViews | rplugin/python3/magma/io.py:105-131 | save reads every cell, in the ledger's order |
| SaveIO.Save | rplugin/python3/magma/io.py:100-132 | save succeeds only when every entry is an OutputBuffer |
| SaveIO.SaveRefusesOutputs | rplugin/python3/magma/io.py:117 | a ledger holding an Output, as run_code stores it, cannot be saved |
| SaveIO.LoadChunksStops | rplugin/python3/magma/io.py:82-91 | the chunk loop converts a prefix of the entries in order, and fails exactly when it stops short, with the error of the first failing entry |
| SaveIO.OutputOf | rplugin/python3/magma/io.py:72-93 | a cell's output, when it builds, is old, has an execution count, and has no pending clear |
| SaveIO.LoadCell | rplugin/python3/magma/io.py:47-93 | a loaded cell's output is old and has an execution count |
| SaveIO.GatherStops | rplugin/python3/magma/io.py:46-97 | the cell loop reads a prefix of the cells, and fails exactly when it stops short, with the error of the first failing cell |
| SaveIO.Loader | rplugin/python3/magma/io.py:46 | the loop's reader of a cell is LoadCell |
| SaveIO.LoadCellsStops | rplugin/python3/magma/io.py:46-97 | load's cell loop reads a prefix of the cells, and fails exactly when it stops short |
| SaveIO.ChecksumGuard | rplugin/python3/magma/io.py:40-43 | a file saved for other contents raises the checksum error before any cell is read, allocating nothing |
| SaveIO.LookupIndex | rplugin/python3/magma/io.py:20 | a dict lookup finds the first item with the key |
| SaveIO.ChunkRoundTrip | rplugin/python3/magma/io.py:121-124 | a chunk save keeps reads back as itself |
| SaveIO.LoadChunksCons | rplugin/python3/magma/io.py:82-91 | the chunk loop past an entry that converts |
| SaveIO.ChunksRoundTrip | rplugin/python3/magma/io.py:120-128 | the saved chunks read back as the kept chunks |
| SaveIO.PositionRoundTrip | rplugin/python3/magma/io.py:108-111 | a saved position reads back as its line and column |
| SaveIO.SpanRoundTrip | rplugin/python3/magma/io.py:107-116 | a saved span reads back as its four coordinates |
| SaveIO.FieldAt | rplugin/python3/magma/io.py:15-26 | a field whose key comes first and whose value has the type passes assert_has_key |
| SaveIO.CellSpanField | rplugin/python3/magma/io.py:107 | the span of a saved cell |
| SaveIO.CellCountField | rplugin/python3/magma/io.py:117 | the execution count of a saved cell, null when it has none |
| SaveIO.CellStatusFields | rplugin/python3/magma/io.py:118-119 | the status value and success flag of a saved cell pass load's checks |
| SaveIO.CellChunksField | rplugin/python3/magma/io.py:120 | the chunk list of a saved cell is the saved chunks |
| SaveIO.LoadCellOk | rplugin/python3/magma/io.py:47-93 | a cell whose fields, extmarks and chunks all pass loads |
| SaveIO.SpanFieldsOf | rplugin/python3/magma/io.py:47-53 | a saved cell's span reads back as its coordinates |
| SaveIO.OutputFieldsOf | rplugin/python3/magma/io.py:72-81 | a saved cell with a count reads back its count, status, success and saved chunks |
| SaveIO.CellRoundTrip | rplugin/python3/magma/io.py:47-131 | a cell written by save and read by load keeps its span, count, status, success and kept chunks, and is old |
| SaveIO.SaveFields | rplugin/python3/magma/io.py:100-105 | the saved document has version 1, the kernel, the checksum and the cell list |
| SaveIO.SaveLoadRoundTrip | rplugin/python3/magma/io.py:39-132 | loading what save wrote, in a buffer with the same contents, loads every cell back as it was saved |
| SaveIO.CellsRoundTrip | rplugin/python3/magma/io.py:46-131 | the saved cell list, loaded, is the list of reloaded cells |
| SaveIO.LoadSpecCells | rplugin/python3/magma/io.py:40-46 | a document whose checksum matches loads its cell list |
| SaveIO.LoadCellsAll | rplugin/python3/magma/io.py:46-97 | when every cell loads, the loop loads them all |
| SaveIO.LoadCellOutputFails | rplugin/python3/magma/io.py:72-84 | a cell whose span passes but whose output fields do not fails with that field's error |
| SaveIO.OutputFieldsUncounted | rplugin/python3/magma/io.py:117 | a saved cell with no count fails the count's int check |
| SaveIO.UncountedCellRejected | rplugin/python3/magma/io.py:72 | a cell saved without an execution count cannot be loaded back |
| SaveIO.ConvertChunk | rplugin/python3/magma/io.py:83-91 | one chunk entry converted as LoadChunk says |
| SaveIO.ConvertChunks | rplugin/python3/magma/io.py:82-91 | the chunk loop appends the converted chunks to the output and the allocated files to the runtime, and stops at the first error |
| SaveIO.ResolveSpanExtends | rplugin/python3/magma/io.py:54-67 | new extmarks leave a span that resolved before where it was |
| SaveIO.LoadCellInto | rplugin/python3/magma/io.py:47-93 | one iteration: a fresh Output with the cell's record and a span whose extmarks hold the cell's coordinates, or that cell's error |
| SaveIO.LoadOutput | rplugin/python3/magma/io.py:72-93 | the output part of one iteration builds a fresh Output with OutputOf's record, or its error |
| SaveIO.AssignAllSnoc | rplugin/python3/magma/io.py:95 | entering one more cell is one more dict assignment |
| SaveIO.OutputsAt | rplugin/python3/magma/io.py:95-97 | cell by cell, the entered buffers hold the loaded outputs (or fresh ones) |
| SaveIO.OutputsSnoc | rplugin/python3/magma/io.py:95-97 | one more entered cell |
| SaveIO.AnchorsAt | rplugin/python3/magma/io.py:54-68 | cell by cell, the extmarks of the entered spans hold the loaded coordinates |
| SaveIO.AnchorsKept | rplugin/python3/magma/io.py:54-67 | new extmarks leave the entered spans where they were |
| SaveIO.AnchorsSnoc | rplugin/python3/magma/io.py:54-68 | one more entered span |
| SaveIO.AddCell | rplugin/python3/magma/io.py:95-97 | the span gets a fresh OutputBuffer on the buffer's canvas and options, holding a fresh Output(None) as written, or the loaded one when attached |
| SaveIO.CanvasApart | rplugin/python3/magma/io.py:54-97 | the extmark table and the runtime are no part of the canvas |
| SaveIO.LoadStep | rplugin/python3/magma/io.py:47-97 | one iteration enters the loaded cell in the ledger, or raises and leaves the ledger alone |
| SaveIO.EnterCell | rplugin/python3/magma/io.py:47-97 | one iteration as the loop sees it: the cells entered before keep their outputs and spans |
| SaveIO.LoadCellsInto | rplugin/python3/magma/io.py:46-97 | the loop enters the cells of Gather in order; the cells before a malformed one stay in the ledger |
| SaveIO.LoadInto | rplugin/python3/magma/io.py:39-97 | load reaches LoadSpec: the checksum first, then the cells in order |
| SaveIO.Load | rplugin/python3/magma/io.py:39-97 | as written: each entered buffer holds a fresh output, not the loaded one |
| SaveIO.LoadAttached | rplugin/python3/magma/io.py:39-97 | corrected: each entered buffer holds the loaded output |
| SaveIO.LoadedCellsOld | rplugin/python3/magma/io.py:93 | every loaded output is old, and its header starts with "[OLD] " |
| SaveIO.DroppedOutputShowsNew | rplugin/python3/magma/io.py:93-97 | as written, a loaded cell's buffer shows a new output with no count, no chunks and no "[OLD] " |
| SaveIO.AttachedOutputShowsOld | rplugin/python3/magma/io.py:93-97 | corrected, a loaded cell's buffer shows the saved output |
| Plugin.Numbered | rplugin/python3/magma/__init__.py:132 | one numbered line per option |
| Plugin.NumberedAt | rplugin/python3/magma/__init__.py:132 | line i is option i under the number first + i |
| Plugin.PromptLines | rplugin/python3/magma/__init__.py:130-133 | the preface first, then one line per option |
| Plugin.PyIndex | rplugin/python3/magma/__init__.py:137 | a Python list index: in range from the front or, negative, from the end; out of range raises IndexError |
| Plugin.AskForChoiceAsWritten | rplugin/python3/magma/__init__.py:127-137 | as written: 0 is no choice, 1..n pick that option, a negative number down to -(n-1) picks from the end, and a number past either end raises IndexError |
| Plugin.ChoiceAboveListPicksFromEnd | rplugin/python3/magma/__init__.py:134-137 | -1 picks the second-to-last kernel, and a number past the list raises |
| Plugin.AskForChoice | rplugin/python3/magma/__init__.py:127-137 | corrected: never raises, and gives an option exactly for a listed number |
| Plugin.ChoiceIsPromptLine | rplugin/python3/magma/__init__.py:130-137 | the option chosen is the one on the prompt line numbered as the user answered |
| Plugin.VisualSpan | rplugin/python3/magma/__init__.py:254-266 | lines become 0-based; each column is clipped to its line's length, the begin made 0-based and the end kept, as an exclusive bound |
| Plugin.OperatorSpan | rplugin/python3/magma/__init__.py:441-470 | no arguments does nothing; "line" forces columns 1 and -1; "char" keeps the marks; any other kind raises before any evaluation |
| Plugin.Placed | rplugin/python3/magma/__init__.py:217-220 | the two extmarks of a selection are set when the editor accepts the begin, and resolve to the selection's coordinates |
| Plugin.WholeLines | rplugin/python3/magma/__init__.py:217-222 | a span from column 0 of one line to the end of another runs those lines joined by newlines |
| Plugin.LineRunsCursorLine | rplugin/python3/magma/__init__.py:278-286 | MagmaEvaluateLine runs the cursor line itself |
| Plugin.DefinedCellText | rplugin/python3/magma/__init__.py:483-491 | a cell defined over lines start..end spans those lines, whole |
| Plugin.LinewiseOperatorRunsLines | rplugin/python3/magma/__init__.py:450-472 | a linewise operator runs the lines it covers, whole, whatever the columns of its marks |
| Plugin.VisualRunsSelectedChars | rplugin/python3/magma/__init__.py:254-268 | a visual selection within one line runs its characters from the begin to the end column, both included |
| Plugin.VisualRunsSelectedLines | rplugin/python3/magma/__init__.py:254-268 | a visual selection over several lines runs the first line from the begin column, the lines between whole, and the last line up to the end column |
| Plugin.LoadHeader | rplugin/python3/magma/__init__.py:380-385 | passes exactly when "version" is an int instance equal to 1 and "kernel" a str, giving the kernel; a failed version lookup raises its error, any other version raises "Bad version: " and its value, and a failed kernel lookup then raises its error |
| Plugin.SavedHeaderLoads | rplugin/python3/magma/__init__.py:380-385 | what save writes passes the checks, with the kernel it was saved from |
| Plugin.VersionOutcomes | rplugin/python3/magma/__init__.py:380-382 | any other int version is refused with its value in the message; True passes as 1 and False is refused |
| Plugin.Caught | rplugin/python3/magma/__init__.py:392-396 | a MagmaIOError becomes the MagmaException "Error while doing Magma IO: " plus its message; any other exception passes through |
| Plugin.LoadPath | rplugin/python3/magma/__init__.py:362-367 | the argument when there is one, otherwise the buffer's default save file from the corrected get_default_save_file (see Findings) |
| Plugin.Magma.constructor | rplugin/python3/magma/__init__.py:31-37 | not initialized, no canvas, an empty registry |
| Plugin.Magma.Initialize | rplugin/python3/magma/__init__.py:39-62 | a second run fails the assertion and changes nothing; otherwise the options are read and the canvas made from the provider, whose refusal is raised |
| Plugin.Magma.InitializeIfNecessary | rplugin/python3/magma/__init__.py:95-97 | _initialize runs only while the plugin is not initialized, so at most once |
| Plugin.Magma.GetMagma | rplugin/python3/magma/__init__.py:99-106 | the current buffer's instance, if any; asking for one that is missing raises the "not initialized" MagmaException |
| Plugin.Magma.InitializeBuffer | rplugin/python3/magma/__init__.py:139-153 | a fresh instance for the kernel, STARTING, with only the init autocommands and no kernel request, registered under the current buffer, overwriting any old one |
| Plugin.Magma.DeinitBuffer | rplugin/python3/magma/__init__.py:192-194 | the instance is deinitialised (the two deinit autocommands, the shutdown request for a kernel the plugin started, its files removed), then exactly its buffer's entry is removed; a missing entry raises KeyError |
| Plugin.Magma.Prepare | rplugin/python3/magma/__init__.py:211-214 | _initialize_if_necessary then _get_magma(True): the registered instance, or the error of either step |
| Plugin.Magma.DoEvaluate | rplugin/python3/magma/__init__.py:208-224 | the selection's two marks are set and the text of the span they make is run on the current buffer's instance, whose ledger gets the span, with a fresh output as the corrected run_code stores (see Findings) |
| Plugin.Magma.EvaluateArgument | rplugin/python3/magma/__init__.py:226-249 | exactly one argument, run as code under the empty span at the top of the buffer, with a fresh output as the corrected run_code stores (see Findings) |
| Plugin.Magma.DefineCell | rplugin/python3/magma/__init__.py:474-492 | no arguments does nothing; otherwise lines start..end, whole, get a new OutputBuffer in the ledger |
| Plugin.Magma.StoreCell | rplugin/python3/magma/__init__.py:492 | the span gets a fresh OutputBuffer with a fresh output and no window |
| Plugin.Magma.CommandInit | rplugin/python3/magma/__init__.py:155-190 | with an argument, an instance for that kernel; without one, the kernels offered through vim.ui.select when it exists, or the prompt's choice, read by the corrected _ask_for_choice (see Findings) |
| Plugin.Magma.LoadFrom | rplugin/python3/magma/__init__.py:379-396 | a bad header raises its error (a MagmaIOError as a MagmaException) and registers nothing; otherwise a new instance is loaded as LoadSpec says, its ledger holding the loaded cells, and a MagmaIOError from the load or the update deinitialises it (deinit autocommands, shutdown, files removed), unregisters it and is raised as a MagmaException; the outputs are attached as the corrected load does (see Findings) |
| Plugin.Magma.Launch | rplugin/python3/magma/__init__.py:387-396 | a fresh STARTING instance for the kernel, registered, then Settle: loaded as LoadSpec says, and on a MagmaIOError deinitialised (deinit autocommands, shutdown, files removed) and unregistered again |
| Plugin.Magma.Settle | rplugin/python3/magma/__init__.py:389-396 | the load of the new instance reaches LoadSpec, by the corrected load (see Findings); on a MagmaIOError the instance gets the two deinit autocommands, the shutdown request for a kernel the plugin started and the removal of its files, and is unregistered; otherwise it keeps its autocommands and requests and stays registered |
| Plugin.Magma.Attach | rplugin/python3/magma/__init__.py:389 | load on a registered instance reaches LoadSpec, with the loaded outputs attached as the corrected load does (see Findings) |
| Plugin.Magma.UpdateInstance | rplugin/python3/magma/__init__.py:391 | the interface update leaves the instance's ledger, autocommands, kernel requests and files alone |
| Plugin.Magma.CommandLoad | rplugin/python3/magma/__init__.py:357-396 | a buffer that already has an instance is refused before the file is read; then a bad header raises before any instance is made, the load reaches LoadSpec, and a MagmaIOError deinitialises and unregisters the new instance and is raised as a MagmaException; composed from the corrected default save file and load (see Findings) |
| Plugin.Magma.OnBufferUnload | rplugin/python3/magma/__init__.py:405-416 | the unloaded buffer's instance, if it has one, gets the two deinit autocommands, the shutdown request and the removal of its files and is unregistered, the other instances untouched; otherwise nothing changes, the instances and runtimes included |
| Plugin.Magma.Run | rplugin/python3/magma/__init__.py:224 | run_code on a registered instance sends the code and stores a fresh output under the span, as the corrected run_code does (see Findings) |
| Plugin.Unregistered | rplugin/python3/magma/__init__.py:387-394 | registering under a new buffer number and unregistering again gives back the registry |
| Plugin.Place | rplugin/python3/magma/__init__.py:217-220 | two new extmarks that resolve to Placed, or the editor's refusal |
| Plugin.RunInstance | rplugin/python3/magma/__init__.py:224 | run_code on one instance: the code is sent and a fresh output is stored under the span, as the corrected run_code does (see Findings) |
| Plugin.UpdateOne | rplugin/python3/magma/__init__.py:125 | update_interface keeps the ledger, the queue, the current output, the autocommands, the kernel requests and the files |

## Left out

- The editor and its API (windows, highlights, autocommands, the timer, notifications, `deletebufline`, `getpos`, `inputlist`) are not modelled. What a call reads becomes a parameter, and what it does becomes a field of the model.
- `Magma._set_autocommands`, `_deinitialize`, `_clear_interface`, `_update_interface` for the current buffer, and the commands that only forward to one instance are not modelled as their own members. These are `command_deinit`, `command_evaluate_cell`, `command_interrupt`, `command_restart`, `command_delete`, `command_show_output`, `command_save`, `command_evaluate_operator`, `function_magma_tick`, `function_update_interface` and `function_on_exit_pre`. The instance operations they call are modelled in `Ledger`.
- `command_enter_output_window` (`__init__.py:238-243`) calls `enter_output`, which `MagmaBuffer` does not define. The call would always raise AttributeError, so it has no member here.
- `command_save`: the file write, the creation of the directory and `json.dump` are I/O and are not modelled. `command_load` takes the parsed document through the `read` parameter, so `json.load` is assumed to read back what it is given.
- `OnBufferUnload` takes the `<abuf>` number already parsed. `int()` failing on a malformed string is not modelled.
- `Plugin.Magma.Initialize`: the namespaces and the timer are parameters (`Setup`). `canvas.init()` and `canvas.deinit()` are not modelled, because both only start or stop the image process.
- `MagmaBuffer.on_cursor_moved` (`magmabuffer.py:267-280`), the cell highlights of `_show_selected` (`magmabuffer.py:282-317`) and `_get_content_checksum` as md5 are not modelled. The checksum is an opaque `Digest` of the joined lines.
- `MagmaBuffer._get_header_text` (`magmabuffer.py:137-160`) is the same code as `OutputBuffer._get_header_text`. It is modelled once, as `OutputLayout.HeaderText`.
- `MagmaBuffer._show_outputs` (`magmabuffer.py:162-200`): the display buffer is its list of lines, `displayLines`. The window options other than the row, width and height (`relative`, `col`, `anchor`, `style`, `focusable`) are constants of the call and are not modelled.
- Runtime: `jupyter_client` is not modelled: no kernel start, no `wait_for_ready` timeout and no `get_available_kernels`. The iopub channel is a sequence, and readiness is a boolean probe. `jupyter_server_api.py` is not part of this model.
- Runtime: the `copy_on_demand` clipboard copy through pyperclip is not modelled, and neither is the `clean_up_text` import that `runtime.py` makes. `outputchunks.py` does not define `clean_up_text`, so that import would fail.
- Runtime.ErrorMessage: a str `ename` and `evalue` are required. Other JSON values give `UnsupportedValue`, where Python would format them.
- Runtime.ExecuteInput: an int or null `execution_count` is required, and any other JSON value gives `UnsupportedValue`. Python stores whatever value came (`runtime.py:142`); the model's output record holds only an optional int count.
- Runtime.StreamMessage: a str `text` is required, and any other JSON value gives `UnsupportedValue` and appends nothing. Python appends a `TextOutputChunk` of whatever value came (`runtime.py:185`); the model's text chunk holds only a string.
- PyStr.ReprStrs: `repr` of a string adds quotes but does not escape quotes or control characters.
- Utils.SetExtmarkOutcome: columns are counted in characters (code points), so an extmark column is accepted up to the line's length in characters. Neovim counts extmark columns in bytes and accepts them up to the line's byte length. Only ASCII lines, where the two agree, are modelled.
- Plugin.VisualSpan: columns are counted in characters. `getpos` gives byte columns while `len(getline(...))` counts code points (`__init__.py:254-266`); that mix on non-ASCII lines is not modelled, so only ASCII lines are covered.
- Plugin.OperatorSpan: columns are counted in characters. The `'[` and `']` marks give byte columns (`__init__.py:447-468`); on non-ASCII lines the source selects other text, which is not modelled.
- Plugin.VisualRunsSelectedChars: holds for ASCII lines only. With byte columns from `getpos` and code-point slices in `get_text` (`utils.py:84-89`), a non-ASCII line runs other text, which is not modelled.
- Plugin.VisualRunsSelectedLines: holds for ASCII lines only, for the same byte/code-point reason as `Plugin.VisualRunsSelectedChars`.
- Utils.GetText: slices by characters, as Python does, on columns the model takes to be characters too; the byte columns the editor gives on non-ASCII lines are not modelled.
- Images.GetCanvasGivenProvider: the import of the optional `ueberzug` package (`images.py:115`) is taken to succeed. Without the package, `UeberzugCanvas()` raises ImportError, which is not modelled.
- Plugin.Magma.Initialize: the ImportError that a missing `ueberzug` package raises after the options are set is not modelled; see `Images.GetCanvasGivenProvider`.
- Json.IntValue: a bool read where an int is expected is taken as 1 or 0. Python keeps `True`/`False`, so a hand-edited file with a bool `execution_count` would show and save back `True`; this is not modelled.
- Json.Lookup: the first of two items with the same key is found, where `json.load` keeps the last. Only a hand-edited file can hold duplicate keys.
- Images: the Ueberzug process, Kitty's `async_call`, `time.sleep`, the cursor moves and the terminal pipe are not modelled. Only the sets, the ids and the bytes written are.
- OutputChunks.FitLines: the aspect-ratio branch uses exact real arithmetic, not IEEE floating point. `textwrap.wrap` is a `TextWrapper` parameter.
- The image renderers (base64, cairosvg, plotly/kaleido, pnglatex, PIL) and tempfile creation are an oracle `Renderer`.
- DynamicPosition's `__del__`: extmarks are never released. This covers the begin mark kept when setting the end mark is refused, and the marks and display buffers of a load that is rolled back.
- SaveIO.LoadCellsInto: does not state that each new OutputBuffer is fresh or which display buffer number it gets. `SaveIO.AddCell` and `SaveIO.LoadStep` state both for each cell.
- SaveIO.LoadInto: does not state that each new OutputBuffer is fresh or which display buffer number it gets. `SaveIO.AddCell` and `SaveIO.LoadStep` state both for each cell.
- SaveIO.Load: does not state that each new OutputBuffer is fresh or which display buffer number it gets. `SaveIO.AddCell` and `SaveIO.LoadStep` state both for each cell.
- SaveIO.LoadAttached: does not state that each new OutputBuffer is fresh or which display buffer number it gets. `SaveIO.AddCell` and `SaveIO.LoadStep` state both for each cell.
- Plugin.Magma.Settle: does not restate which output each loaded buffer holds after the interface update. `Plugin.Magma.Attach` states it before the update.
- Plugin.Magma.LoadFrom: does not restate which output each loaded buffer holds after the interface update. `Plugin.Magma.Attach` states it before the update.
- Plugin.Magma.Launch: does not restate which output each loaded buffer holds after the interface update. `Plugin.Magma.Attach` states it before the update.
- Plugin.Magma.UpdateInstance: does not restate the new interface state. `Ledger.MagmaBuffer.UpdateInterface` and `Ledger.MagmaBuffer.RunCodeFixed` state it.
- Plugin.Magma.Run: does not restate the new interface state. `Ledger.MagmaBuffer.UpdateInterface` and `Ledger.MagmaBuffer.RunCodeFixed` state it.
- Plugin.RunInstance: does not restate the new interface state. `Ledger.MagmaBuffer.UpdateInterface` and `Ledger.MagmaBuffer.RunCodeFixed` state it.
- Plugin.UpdateOne: does not restate the new interface state. `Ledger.MagmaBuffer.UpdateInterface` and `Ledger.MagmaBuffer.RunCodeFixed` state it.
- Ledger.MagmaBuffer.ReevaluateCell: models the corrected program. It runs the span through `RunCodeFixed`, which stores a fresh Output where `run_code` as written stores None. `Ledger.MagmaBuffer.RunCode` models the code as written (see Findings).
- Ledger.MagmaBuffer.RunSpan: models the corrected program, through `RunCodeFixed`. `Ledger.MagmaBuffer.RunCode` models `run_code` as written (see Findings).
- Plugin.RunInstance: models the corrected program, through `RunCodeFixed`. `Ledger.MagmaBuffer.RunCode` models `run_code` as written (see Findings).
- Plugin.Magma.Run: models the corrected program, through `RunCodeFixed`. `Ledger.MagmaBuffer.RunCode` models `run_code` as written (see Findings).
- Plugin.Magma.DoEvaluate: models the corrected program, through `RunCodeFixed`. `Ledger.MagmaBuffer.RunCode` models `run_code` as written (see Findings).
- Plugin.Magma.EvaluateArgument: models the corrected program, through `RunCodeFixed`. `Ledger.MagmaBuffer.RunCode` models `run_code` as written (see Findings).
- Plugin.LoadPath: models the corrected program, through `SaveIO.GetDefaultSaveFile`. As written the default save file always raises, as `SaveIO.GetDefaultSaveFileAsWritten` states (see Findings).
- Plugin.Magma.CommandInit: models the corrected program, through `AskForChoice`. `Plugin.AskForChoiceAsWritten` models `_ask_for_choice` as written (see Findings).
- Plugin.Magma.CommandLoad: models the corrected program, through `Plugin.LoadPath` and `SaveIO.LoadAttached`. `SaveIO.GetDefaultSaveFileAsWritten` and `SaveIO.Load` model the code as written (see Findings).
- Plugin.Magma.LoadFrom: models the corrected program, through `SaveIO.LoadAttached`. `SaveIO.Load` models `load` as written (see Findings).
- Plugin.Magma.Settle: models the corrected program, through `SaveIO.LoadAttached`. `SaveIO.Load` models `load` as written (see Findings).
- Plugin.Magma.Launch: models the corrected program, through `SaveIO.LoadAttached`. `SaveIO.Load` models `load` as written (see Findings).
- Plugin.Magma.Attach: models the corrected program, through `SaveIO.LoadAttached`. `SaveIO.Load` models `load` as written (see Findings).
- magma.py beside the package is an older copy of the plugin that the package shadows. It is not part of this model.

## Findings

| source | as written | input that shows it | evidently intended | confidence | as-written member | corrected member |
|---|---|---|---|---|---|---|
| rplugin/python3/magma/magmabuffer.py:92-98 | `run_code` stores and queues what `runtime.run_code` returns, and that is None (`runtime.py:103-104`) | any evaluation: the stored None has no `chunks` to show, and once current it is ticked as no output, so no message is read for it | a new `Output(None)` stored under the span and queued | high, not executed | Ledger.MagmaBuffer.RunCode, Ledger.StoredNoneStalls | Ledger.MagmaBuffer.RunCodeFixed, Ledger.StoredOutputShows |
| rplugin/python3/magma/io.py:93-97 | `load` builds each cell's Output, marks it old, then stores a new `OutputBuffer` whose own output is `Output(None)` | any saved cell: after loading, its buffer shows "Out[...]: * On Hold" with no chunks | the loaded Output attached to the OutputBuffer | high, not executed | SaveIO.Load, SaveIO.DroppedOutputShowsNew | SaveIO.LoadAttached, SaveIO.AttachedOutputShowsOld |
| rplugin/python3/magma/io.py:36 | `get_default_save_file` reads `options.save_path`, but `MagmaOptions` sets `save_cell` from `magma_save_cell` (`options.py:25,33`) | any buffer with a file: AttributeError on `save_path`, so MagmaSave and MagmaLoad without an argument always fail | the directory read from the attribute the options do set | high, not executed | SaveIO.GetDefaultSaveFileAsWritten, SaveIO.DefaultSaveFileUnreachable | SaveIO.GetDefaultSaveFile, SaveIO.SaveFileInDirectory |
| rplugin/python3/magma/__init__.py:134-137 | `_ask_for_choice` indexes `options[index - 1]` for any non-zero answer of `inputlist` | a mouse click above the list (-1) picks the second-to-last kernel; an answer past the list raises IndexError | no choice for an answer that is not a listed number | medium, not executed | Plugin.AskForChoiceAsWritten, Plugin.ChoiceAboveListPicksFromEnd | Plugin.AskForChoice, Plugin.ChoiceIsPromptLine |
