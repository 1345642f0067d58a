/**
 * The kernel runtime (magma/runtime.py): the runtime state, the classification
 * of one iopub message into changes of the cell's Output, and the non-blocking
 * drain of the iopub channel.
 *
 * The kernel is seen through what the plugin sends it (a log of requests) and
 * what it receives from it (a queue of iopub messages). The readiness probe
 * wait_for_ready(timeout=0) is a boolean parameter; the renderers are the oracle
 * of OutputChunks; the existence of temporary files is a set parameter.
 */
module Runtime {
  import opened Common
  import opened PyStr
  import opened Json
  import opened OutputChunks

  /** RuntimeState: STARTING = 0, IDLE = 1, RUNNING = 2. */
  datatype RuntimeState = Starting | Idle | Running
  {
    function Value(): nat
    {
      match this
      case Starting => 0
      case Idle => 1
      case Running => 2
    }
  }

  /** How JupyterRuntime.__init__ reaches the kernel, chosen from the kernel name. */
  datatype ConnectionKind = ServerApi | LocalKernel | ConnectionFile

  /** A URL goes to a Jupyter server; a name without ".json" starts a local kernel;
      anything else is a connection file. */
  function Connection(kernelName: string): ConnectionKind
  {
    if "http://" <= kernelName || "https://" <= kernelName then ServerApi
    else if !IsSubstring(".json", kernelName) then LocalKernel
    else ConnectionFile
  }

  /** What the plugin asks of the kernel. */
  datatype KernelRequest = Execute(code: string) | InterruptKernel | RestartKernel | ShutdownKernel

  /** An iopub message: its msg_type and its content, each possibly missing. */
  datatype Message = Message(msgType: Option<string>, content: Option<Json>)

  // ---------------------------------------------------------------------------
  // _tick_one, on values

  /** The effect of handling one message: the runtime state, the output, the
      allocated files, and the result or the exception raised. */
  datatype Step = Step(state: RuntimeState, output: OutputRecord, files: seq<string>, outcome: Result<bool>)

  /** The pending clear of `clear_output(wait=True)`, applied before any message. */
  function ClearPending(o: OutputRecord): (r: OutputRecord)
    ensures !r.shouldClear && (o.shouldClear ==> r.chunks == []) && (!o.shouldClear ==> r == o)
  {
    if o.shouldClear then o.(chunks := [], shouldClear := false) else o
  }

  /** An execution_count as the model carries it: an int, or None. */
  function CountValue(j: Json): Result<Option<int>>
  {
    match j
    case JInt(i) => Ok(Some(i))
    case JNull => Ok(None)
    case _ => Err(UnsupportedValue("execution_count"))
  }

  /** A str field. */
  function StrValue(j: Json, field: string): Result<string>
  {
    if j.JStr? then Ok(j.s) else Err(UnsupportedValue(field))
  }

  /** A traceback: `[...] + traceback` needs a list, and "\n".join needs its items to be str. */
  function StrList(j: Json): (r: Result<seq<string>>)
    ensures r.Ok? ==> j.JList? && |r.value| == |j.items| && forall i :: 0 <= i < |j.items| ==> j.items[i] == JStr(r.value[i])
  {
    if !j.JList? then Err(TypeError("can only concatenate list to list"))
    else if exists i :: 0 <= i < |j.items| && !j.items[i].JStr? then Err(TypeError("sequence item: expected str instance"))
    else Ok(seq(|j.items|, i requires 0 <= i < |j.items| => j.items[i].s))
  }

  /** The result of _append_chunk: the output and files, and the exception if one was raised. */
  datatype Appended = Appended(output: OutputRecord, files: seq<string>, error: Option<PyError>)

  /** _append_chunk: the debug chunk listing the MIME types when that option is on,
      then the chunk converted from the bundle; the files the conversion allocated
      are kept even when it raises. */
  function AppendChunkSpec(showDebug: bool, o: OutputRecord, files: seq<string>, data: Json, metadata: Json,
                           render: Renderer): Appended
  {
    if showDebug && !data.JObject? then Appended(o, files, Some(AttributeError("object has no attribute 'keys'")))
    else
      var o1 := if showDebug then o.(chunks := o.chunks + [MimetypesChunk(Keys(data.entries))]) else o;
      var conv := ResolveChunk(data, metadata, render);
      match conv.chunk
      case Ok(c) => Appended(o1.(chunks := o1.chunks + [c]), files + conv.files, None)
      case Err(e) => Appended(o1, files + conv.files, Some(e))
  }

  /** execute_input: the count is recorded; the status advances only for a kernel
      the plugin started itself. */
  function ExecuteInput(external: bool, s: RuntimeState, o: OutputRecord, files: seq<string>, content: Json): (t: Step)
    ensures t.state == s && t.files == files && t.output.chunks == o.chunks && t.output.shouldClear == o.shouldClear
    ensures t.output.status.Value() >= o.status.Value()
    ensures external || t.outcome.Err? ==> t.output.status == o.status
  {
    match Index(content, "execution_count")
    case Err(e) => Step(s, o, files, Err(e))
    case Ok(j) =>
      match CountValue(j)
      case Err(e) => Step(s, o, files, Err(e))
      case Ok(count) =>
        var o1 := o.(executionCount := count);
        if external then Step(s, o1, files, Ok(true))
        else if o1.status == Done then Step(s, o1, files, Err(AssertionError))
        else Step(s, o1.(status := if o1.status == Hold then OutputStatus.Running else Done), files, Ok(true))
  }

  /** status: "idle" finishes the output, "busy" marks the kernel running,
      "starting" is asserted never to arrive, and anything else is ignored. */
  function StatusMessage(s: RuntimeState, o: OutputRecord, files: seq<string>, content: Json): (t: Step)
    ensures t.files == files && t.output.chunks == o.chunks && t.output.shouldClear == o.shouldClear
    ensures t.output.status.Value() >= o.status.Value()
    ensures t.output.status != o.status ==> t.output.status == Done && t.state == Idle
  {
    match Index(content, "execution_state")
    case Err(e) => Step(s, o, files, Err(e))
    case Ok(st) =>
      if st == JStr("starting") then Step(s, o, files, Err(AssertionError))
      else if st == JStr("idle") then Step(Idle, o.(status := Done), files, Ok(true))
      else if st == JStr("busy") then Step(RuntimeState.Running, o, files, Ok(true))
      else Step(s, o, files, Ok(false))
  }

  /** execute_result and display_data: the bundle's chunk is appended. */
  function BundleMessage(showDebug: bool, s: RuntimeState, o: OutputRecord, files: seq<string>, content: Json,
                         render: Renderer): (t: Step)
    ensures t.state == s && files <= t.files && o.chunks <= t.output.chunks
    ensures t.output.status == o.status && t.output.shouldClear == o.shouldClear
  {
    match Index(content, "data")
    case Err(e) => Step(s, o, files, Err(e))
    case Ok(data) =>
      match Index(content, "metadata")
      case Err(e) => Step(s, o, files, Err(e))
      case Ok(metadata) =>
        var a := AppendChunkSpec(showDebug, o, files, data, metadata, render);
        if a.error.Some? then Step(s, a.output, a.files, Err(a.error.value))
        else Step(s, a.output, a.files, Ok(true))
  }

  /** error: an error chunk is appended and the execution counts as failed. */
  function ErrorMessage(s: RuntimeState, o: OutputRecord, files: seq<string>, content: Json): (t: Step)
    ensures t.state == s && t.files == files && o.chunks <= t.output.chunks
    ensures t.output.status == o.status && t.output.shouldClear == o.shouldClear
    ensures t.outcome.Ok? ==> |t.output.chunks| == |o.chunks| + 1 && !t.output.success
    ensures t.outcome.Err? ==> t.output == o
  {
    var fields: Result<(string, string, seq<string>)> := (
      var ename :- Index(content, "ename");
      var evalue :- Index(content, "evalue");
      var traceback :- Index(content, "traceback");
      var name :- StrValue(ename, "ename");
      var message :- StrValue(evalue, "evalue");
      var lines :- StrList(traceback);
      Ok((name, message, lines)));
    match fields
    case Err(e) => Step(s, o, files, Err(e))
    case Ok((name, message, lines)) =>
      Step(s, o.(chunks := o.chunks + [ErrorChunk(name, message, lines)], success := false), files, Ok(true))
  }

  /** stream: the text is appended as it came. */
  function StreamMessage(s: RuntimeState, o: OutputRecord, files: seq<string>, content: Json): (t: Step)
    ensures t.state == s && t.files == files && o.chunks <= t.output.chunks
    ensures t.output.status == o.status && t.output.shouldClear == o.shouldClear
  {
    var text := (var t :- Index(content, "text"); StrValue(t, "text"));
    match text
    case Err(e) => Step(s, o, files, Err(e))
    case Ok(t) => Step(s, o.(chunks := o.chunks + [TextChunk(t)]), files, Ok(true))
  }

  /** clear_output: with wait set, the clear is deferred to the next message. */
  function ClearMessage(s: RuntimeState, o: OutputRecord, files: seq<string>, content: Json): (t: Step)
    ensures t.state == s && t.files == files && t.output.status == o.status
    ensures t.output.chunks == o.chunks || t.output.chunks == []
  {
    match Index(content, "wait")
    case Err(e) => Step(s, o, files, Err(e))
    case Ok(w) =>
      if Truthy(w) then Step(s, o.(shouldClear := true), files, Ok(true))
      else Step(s, o.(chunks := []), files, Ok(true))
  }

  /** The message kinds of _tick_one, on an output whose pending clear is done. */
  function Dispatch(external: bool, showDebug: bool, s: RuntimeState, o: OutputRecord, files: seq<string>,
                    msgType: string, content: Json, render: Renderer): (t: Step)
    ensures t.output.status.Value() >= o.status.Value() && files <= t.files
    ensures o.chunks <= t.output.chunks || (msgType == "clear_output" && t.output.chunks == [])
    ensures msgType != "clear_output" ==> t.output.shouldClear == o.shouldClear
  {
    if msgType == "execute_input" then ExecuteInput(external, s, o, files, content)
    else if msgType == "status" then StatusMessage(s, o, files, content)
    else if msgType == "execute_result" || msgType == "display_data" then BundleMessage(showDebug, s, o, files, content, render)
    else if msgType == "error" then ErrorMessage(s, o, files, content)
    else if msgType == "stream" then StreamMessage(s, o, files, content)
    else if msgType == "clear_output" then ClearMessage(s, o, files, content)
    else Step(s, o, files, Ok(false))
  }

  /** _tick_one(output, message_type, content): a pending clear first, then the
      message. The output's status never goes back (HOLD, RUNNING, DONE); the chunks
      keep the earlier ones (less a pending clear) and add after them, unless an
      immediate clear_output empties them; the allocated files only grow. */
  function TickOneSpec(external: bool, showDebug: bool, s: RuntimeState, o: OutputRecord, files: seq<string>,
                       msgType: string, content: Json, render: Renderer): (t: Step)
    ensures t.output.status.Value() >= o.status.Value() && files <= t.files
    ensures ClearPending(o).chunks <= t.output.chunks || (msgType == "clear_output" && t.output.chunks == [])
    ensures msgType != "clear_output" ==> !t.output.shouldClear
  {
    Dispatch(external, showDebug, s, ClearPending(o), files, msgType, content, render)
  }

  /** The message kinds _tick_one recognises and acts on. */
  predicate Handled(msgType: string)
  {
    msgType in ["execute_input", "status", "execute_result", "display_data", "error", "stream", "clear_output"]
  }

  /** execute_reply, update_display_data and unknown kinds report no work and
      change nothing but the pending clear. */
  lemma IgnoredMessages(external: bool, showDebug: bool, s: RuntimeState, o: OutputRecord, files: seq<string>,
                        msgType: string, content: Json, render: Renderer)
    requires !Handled(msgType)
    ensures TickOneSpec(external, showDebug, s, o, files, msgType, content, render) == Step(s, ClearPending(o), files, Ok(false))
  {
  }

  /** A pending clear empties the chunks before the message is handled, and is reset. */
  lemma PendingClearFirst(external: bool, showDebug: bool, s: RuntimeState, o: OutputRecord, files: seq<string>,
                          msgType: string, content: Json, render: Renderer)
    requires o.shouldClear
    ensures TickOneSpec(external, showDebug, s, o, files, msgType, content, render)
            == TickOneSpec(external, showDebug, s, o.(chunks := [], shouldClear := false), files, msgType, content, render)
  {
    assert ClearPending(o) == ClearPending(o.(chunks := [], shouldClear := false));
  }

  /** status messages: the kernel's state and the output's completion. */
  lemma StatusTransitions(s: RuntimeState, o: OutputRecord, files: seq<string>, st: string, render: Renderer)
    ensures var t := TickOneSpec(true, false, s, o, files, "status", JObject([("execution_state", JStr(st))]), render);
            (st == "idle" ==> t == Step(Idle, ClearPending(o).(status := Done), files, Ok(true)))
            && (st == "busy" ==> t == Step(RuntimeState.Running, ClearPending(o), files, Ok(true)))
            && (st == "starting" ==> t.outcome == Err(AssertionError))
            && (st !in {"idle", "busy", "starting"} ==> t == Step(s, ClearPending(o), files, Ok(false)))
  {
  }

  /** execute_input always records the count; only for a kernel the plugin started is
      the status advanced, from HOLD to RUNNING to DONE, with DONE refused. */
  lemma ExecuteInputTransitions(external: bool, s: RuntimeState, o: OutputRecord, files: seq<string>, n: int,
                                render: Renderer)
    ensures var t := TickOneSpec(external, false, s, o, files, "execute_input", JObject([("execution_count", JInt(n))]), render);
            var c := ClearPending(o);
            t.state == s && t.output.executionCount == Some(n) && t.output.chunks == c.chunks
            && (external ==> t.outcome == Ok(true) && t.output.status == c.status)
            && (!external && c.status == Hold ==> t.outcome == Ok(true) && t.output.status == OutputStatus.Running)
            && (!external && c.status == OutputStatus.Running ==> t.outcome == Ok(true) && t.output.status == Done)
            && (!external && c.status == Done ==> t.outcome == Err(AssertionError))
  {
  }

  /** The list of strings of a traceback, as the kernel sends it. */
  function TracebackJson(traceback: seq<string>): (j: Json)
    ensures StrList(j) == Ok(traceback)
  {
    var items := seq(|traceback|, i requires 0 <= i < |traceback| => JStr(traceback[i]));
    assert forall i :: 0 <= i < |items| ==> items[i].JStr?;
    assert seq(|items|, i requires 0 <= i < |items| => items[i].s) == traceback;
    JList(items)
  }

  /** The fields of an error message's content. */
  lemma ErrorFields(name: string, message: string, traceback: Json)
    ensures var content := JObject([("ename", JStr(name)), ("evalue", JStr(message)), ("traceback", traceback)]);
            Index(content, "ename") == Ok(JStr(name)) && Index(content, "evalue") == Ok(JStr(message))
            && Index(content, "traceback") == Ok(traceback)
  {
    var e := [("ename", JStr(name)), ("evalue", JStr(message)), ("traceback", traceback)];
    assert "ename"[1] != "evalue"[1] && "ename"[0] != "traceback"[0] && "evalue"[0] != "traceback"[0];
    assert e[1..] == [("evalue", JStr(message)), ("traceback", traceback)];
    assert e[1..][1..] == [("traceback", traceback)];
    assert Lookup(e[1..][1..], "traceback") == Some(traceback);
    assert Lookup(e[1..], "traceback") == Some(traceback);
    assert Lookup(e[1..], "evalue") == Some(JStr(message));
  }

  /** An error message appends its chunk and marks the execution failed. */
  lemma ErrorAppends(s: RuntimeState, o: OutputRecord, files: seq<string>, name: string, message: string,
                     traceback: seq<string>, render: Renderer)
    ensures var content := JObject([("ename", JStr(name)), ("evalue", JStr(message)), ("traceback", TracebackJson(traceback))]);
            var t := TickOneSpec(true, false, s, o, files, "error", content, render);
            t == Step(s, ClearPending(o).(chunks := ClearPending(o).chunks + [ErrorChunk(name, message, traceback)], success := false),
                      files, Ok(true))
  {
    ErrorFields(name, message, TracebackJson(traceback));
  }

  /** A stream message appends its text verbatim. */
  lemma StreamAppends(s: RuntimeState, o: OutputRecord, files: seq<string>, text: string, render: Renderer)
    ensures TickOneSpec(true, false, s, o, files, "stream", JObject([("text", JStr(text))]), render)
            == Step(s, ClearPending(o).(chunks := ClearPending(o).chunks + [TextChunk(text)]), files, Ok(true))
  {
  }

  /** clear_output with wait only defers; without it the chunks go at once. */
  lemma ClearOutputSemantics(s: RuntimeState, o: OutputRecord, files: seq<string>, wait: bool, render: Renderer)
    ensures var t := TickOneSpec(true, false, s, o, files, "clear_output", JObject([("wait", JBool(wait))]), render);
            t.outcome == Ok(true)
            && (wait ==> t.output == ClearPending(o).(shouldClear := true))
            && (!wait ==> t.output == ClearPending(o).(chunks := []))
  {
  }

  // ---------------------------------------------------------------------------
  // tick, on values

  /** Where a drain of the iopub queue ends: the state, the output, the files, the
      messages left in the queue, and the result. */
  datatype Drained = Drained(state: RuntimeState, output: OutputRecord, files: seq<string>, rest: seq<Message>,
                             outcome: Result<bool>)

  /** The drain loop of tick: incomplete messages are skipped, an exception ends it,
      and so does a message after which the output is DONE. */
  function DrainSpec(external: bool, showDebug: bool, s: RuntimeState, o: OutputRecord, files: seq<string>,
                     queue: seq<Message>, render: Renderer, did: bool): Drained
    decreases |queue|
  {
    if |queue| == 0 then Drained(s, o, files, [], Ok(did))
    else
      var m := queue[0];
      if m.content.None? || m.msgType.None? then DrainSpec(external, showDebug, s, o, files, queue[1..], render, did)
      else
        var t := TickOneSpec(external, showDebug, s, o, files, m.msgType.value, m.content.value, render);
        if t.outcome.Err? then Drained(t.state, t.output, t.files, queue[1..], t.outcome)
        else if t.output.status == Done then Drained(t.state, t.output, t.files, queue[1..], Ok(did || t.outcome.value))
        else DrainSpec(external, showDebug, t.state, t.output, t.files, queue[1..], render, did || t.outcome.value)
  }

  /** What the drain leaves in the queue is a suffix of it. */
  lemma {:induction false} DrainConsumesPrefix(external: bool, showDebug: bool, s: RuntimeState, o: OutputRecord,
                                               files: seq<string>, queue: seq<Message>, render: Renderer, did: bool)
    ensures var d := DrainSpec(external, showDebug, s, o, files, queue, render, did);
            |d.rest| <= |queue| && d.rest == queue[|queue| - |d.rest|..]
    decreases |queue|
  {
    if |queue| > 0 {
      var m := queue[0];
      if m.content.None? || m.msgType.None? {
        DrainConsumesPrefix(external, showDebug, s, o, files, queue[1..], render, did);
      } else {
        var t := TickOneSpec(external, showDebug, s, o, files, m.msgType.value, m.content.value, render);
        if t.outcome.Ok? && t.output.status != Done {
          DrainConsumesPrefix(external, showDebug, t.state, t.output, t.files, queue[1..], render, did || t.outcome.value);
        }
      }
      SuffixOfTail(queue, DrainSpec(external, showDebug, s, o, files, queue, render, did).rest);
    }
  }

  /** A suffix of the tail of a sequence is a suffix of the sequence. */
  lemma SuffixOfTail<T>(q: seq<T>, r: seq<T>)
    requires |q| > 0 && |r| <= |q| - 1 && r == q[1..][|q| - 1 - |r|..]
    ensures |r| <= |q| && r == q[|q| - |r|..]
  {
    assert q[1..][|q| - 1 - |r|..] == q[|q| - |r|..];
  }

  /** A drain that ends without an exception and leaves messages behind has
      finished the output. */
  lemma {:induction false} DrainStopsAtDone(external: bool, showDebug: bool, s: RuntimeState, o: OutputRecord,
                                            files: seq<string>, queue: seq<Message>, render: Renderer, did: bool)
    ensures var d := DrainSpec(external, showDebug, s, o, files, queue, render, did);
            d.outcome.Ok? && |d.rest| > 0 ==> d.output.status == Done
    decreases |queue|
  {
    if |queue| > 0 {
      var m := queue[0];
      if m.content.None? || m.msgType.None? {
        DrainStopsAtDone(external, showDebug, s, o, files, queue[1..], render, did);
      } else {
        var t := TickOneSpec(external, showDebug, s, o, files, m.msgType.value, m.content.value, render);
        if t.outcome.Ok? {
          DrainStopsAtDone(external, showDebug, t.state, t.output, t.files, queue[1..], render, did || t.outcome.value);
        }
      }
    }
  }

  /** The drain's result is the OR of the work reported so far and by each message:
      work already done is never forgotten. */
  lemma {:induction false} DrainKeepsWork(external: bool, showDebug: bool, s: RuntimeState, o: OutputRecord,
                                          files: seq<string>, queue: seq<Message>, render: Renderer)
    ensures var d := DrainSpec(external, showDebug, s, o, files, queue, render, true);
            d.outcome.Ok? ==> d.outcome.value
    decreases |queue|
  {
    if |queue| > 0 {
      var m := queue[0];
      if m.content.None? || m.msgType.None? {
        DrainKeepsWork(external, showDebug, s, o, files, queue[1..], render);
      } else {
        var t := TickOneSpec(external, showDebug, s, o, files, m.msgType.value, m.content.value, render);
        if t.outcome.Ok? {
          DrainKeepsWork(external, showDebug, t.state, t.output, t.files, queue[1..], render);
        }
      }
    }
  }

  /** A message without content or without msg_type is passed over. */
  lemma IncompleteSkipped(external: bool, showDebug: bool, s: RuntimeState, o: OutputRecord, files: seq<string>,
                          m: Message, queue: seq<Message>, render: Renderer, did: bool)
    requires m.content.None? || m.msgType.None?
    ensures DrainSpec(external, showDebug, s, o, files, [m] + queue, render, did)
            == DrainSpec(external, showDebug, s, o, files, queue, render, did)
  {
    assert ([m] + queue)[1..] == queue;
  }

  /** The result of tick: the drain's, with the output left out when there is none. */
  datatype TickOutcome = TickOutcome(state: RuntimeState, output: Option<OutputRecord>, files: seq<string>,
                                     rest: seq<Message>, outcome: Result<bool>)

  /** tick(output): the readiness step, then the drain when there is an output. */
  function TickSpec(external: bool, showDebug: bool, s: RuntimeState, o: Option<OutputRecord>, files: seq<string>,
                    queue: seq<Message>, probe: bool, render: Renderer): TickOutcome
  {
    if s == Starting && !probe then TickOutcome(s, o, files, queue, Ok(false))
    else
      var s1 := if s == Starting then Idle else s;
      var did := s == Starting;
      match o
      case None => TickOutcome(s1, None, files, queue, Ok(did))
      case Some(out) =>
        var d := DrainSpec(external, showDebug, s1, out, files, queue, render, did);
        TickOutcome(d.state, Some(d.output), d.files, d.rest, d.outcome)
  }

  /** A runtime that is still starting and fails the probe reports no work and
      changes nothing. */
  lemma NotReadyNoChange(external: bool, showDebug: bool, o: Option<OutputRecord>, files: seq<string>,
                         queue: seq<Message>, render: Renderer)
    ensures TickSpec(external, showDebug, Starting, o, files, queue, false, render)
            == TickOutcome(Starting, o, files, queue, Ok(false))
  {
  }

  /** The probe succeeding makes the runtime IDLE and counts as work; with no output
      no message is read. */
  lemma ReadyWithoutOutput(external: bool, showDebug: bool, s: RuntimeState, files: seq<string>,
                           queue: seq<Message>, probe: bool, render: Renderer)
    requires s != Starting || probe
    ensures TickSpec(external, showDebug, s, None, files, queue, probe, render)
            == TickOutcome(if s == Starting then Idle else s, None, files, queue, Ok(s == Starting))
  {
  }

  /** A bundle on an execute_result or display_data message has its chunk appended. */
  lemma BundleAppends(s: RuntimeState, o: OutputRecord, files: seq<string>, data: Json, metadata: Json,
                      msgType: string, render: Renderer)
    requires msgType == "execute_result" || msgType == "display_data"
    requires ResolveChunk(data, metadata, render).chunk.Ok?
    ensures var conv := ResolveChunk(data, metadata, render);
            TickOneSpec(true, false, s, o, files, msgType, JObject([("data", data), ("metadata", metadata)]), render)
            == Step(s, ClearPending(o).(chunks := ClearPending(o).chunks + [conv.chunk.value]), files + conv.files, Ok(true))
  {
    var entries := [("data", data), ("metadata", metadata)];
    var content := JObject(entries);
    assert Index(content, "data") == Ok(data);
    assert |entries[0].0| != |"metadata"|;
    assert entries[1..] == [("metadata", metadata)];
    assert Lookup(entries[1..], "metadata") == Some(metadata);
    assert Index(content, "metadata") == Ok(metadata);
  }

  /** The bundle of `1+1`: its text/plain entry, with a newline. */
  lemma TwoBundle(render: Renderer)
    ensures ResolveChunk(JObject([("text/plain", JStr("2"))]), JObject([]), render)
            == Conversion(Ok(Attach(TextLnChunk("2"), JObject([("text/plain", JStr("2"))]), JObject([]))), [])
  {
    var entries := [("text/plain", JStr("2"))];
    forall k | 0 <= k < 4
      ensures !Present(entries, Priority[k])
    {
      assert Priority[k] != "text/plain";
    }
    PlainTextBundle(entries, "2", JObject([]), render);
  }

  /** One cell evaluating `1+1`: busy, the echoed input, the result, idle. The
      drain reads all four messages and leaves the output DONE with the result. */
  lemma OnePlusOne(render: Renderer, m1: Message, m2: Message, m3: Message, m4: Message)
    requires m1 == Message(Some("status"), Some(JObject([("execution_state", JStr("busy"))])))
    requires m2 == Message(Some("execute_input"), Some(JObject([("execution_count", JInt(1))])))
    requires m3 == Message(Some("execute_result"), Some(JObject([("data", JObject([("text/plain", JStr("2"))])),
                                                             ("metadata", JObject([]))])))
    requires m4 == Message(Some("status"), Some(JObject([("execution_state", JStr("idle"))])))
    ensures TickSpec(true, false, Idle, Some(FreshRecord(None)), [], [m1, m2, m3, m4], false, render)
            == TickOutcome(Idle, Some(OutputRecord(Some(1), [Attach(TextLnChunk("2"), JObject([("text/plain", JStr("2"))]), JObject([]))],
                                                   Done, true, false, false)), [], [], Ok(true))
  {
    var c := Attach(TextLnChunk("2"), JObject([("text/plain", JStr("2"))]), JObject([]));
    var o0 := FreshRecord(None);
    var o2 := o0.(executionCount := Some(1));
    var o3 := o2.(chunks := [c]);
    var q1, q2, q3 := [m2, m3, m4], [m3, m4], [m4];
    assert [m1, m2, m3, m4] == [m1] + q1 && q1 == [m2] + q2 && q2 == [m3] + q3;
    DrainStep1(render, m1, q1, o0);
    assert ClearPending(o0) == o0;
    DrainStep2(render, m2, q2, o0);
    DrainStep3(render, m3, q3, o2);
    assert o2.(chunks := o2.chunks + [c]) == o3;
    DrainStep4(render, m4, o3);
  }

  lemma DrainStep1(render: Renderer, m1: Message, rest: seq<Message>, o0: OutputRecord)
    requires m1 == Message(Some("status"), Some(JObject([("execution_state", JStr("busy"))])))
    requires o0.status != Done
    ensures DrainSpec(true, false, Idle, o0, [], [m1] + rest, render, false)
            == DrainSpec(true, false, RuntimeState.Running, ClearPending(o0), [], rest, render, true)
  {
    StatusTransitions(Idle, o0, [], "busy", render);
    assert ([m1] + rest)[1..] == rest;
  }

  lemma DrainStep3(render: Renderer, m3: Message, rest: seq<Message>, o2: OutputRecord)
    requires m3 == Message(Some("execute_result"), Some(JObject([("data", JObject([("text/plain", JStr("2"))])), ("metadata", JObject([]))])))
    requires o2.status != Done && !o2.shouldClear
    ensures DrainSpec(true, false, RuntimeState.Running, o2, [], [m3] + rest, render, true)
            == DrainSpec(true, false, RuntimeState.Running,
                         o2.(chunks := o2.chunks + [Attach(TextLnChunk("2"), JObject([("text/plain", JStr("2"))]), JObject([]))]),
                         [], rest, render, true)
  {
    TwoBundle(render);
    BundleAppends(RuntimeState.Running, o2, [], JObject([("text/plain", JStr("2"))]), JObject([]), "execute_result", render);
    assert ([m3] + rest)[1..] == rest;
  }

  lemma DrainStep4(render: Renderer, m4: Message, o3: OutputRecord)
    requires m4 == Message(Some("status"), Some(JObject([("execution_state", JStr("idle"))])))
    requires !o3.shouldClear
    ensures DrainSpec(true, false, RuntimeState.Running, o3, [], [m4], render, true)
            == Drained(Idle, o3.(status := Done), [], [], Ok(true))
  {
    StatusTransitions(RuntimeState.Running, o3, [], "idle", render);
    assert [m4][1..] == [];
  }

  lemma DrainStep2(render: Renderer, m2: Message, rest: seq<Message>, o0: OutputRecord)
    requires m2 == Message(Some("execute_input"), Some(JObject([("execution_count", JInt(1))])))
    requires o0.status != Done && !o0.shouldClear
    ensures DrainSpec(true, false, RuntimeState.Running, o0, [], [m2] + rest, render, true)
            == DrainSpec(true, false, RuntimeState.Running, o0.(executionCount := Some(1)), [], rest, render, true)
  {
    ExecuteInputTransitions(true, RuntimeState.Running, o0, [], 1, render);
    assert ([m2] + rest)[1..] == rest;
  }

  // ---------------------------------------------------------------------------
  // JupyterRuntime

  class JupyterRuntime {
    var state: RuntimeState
    const kernelName: string
    const connection: ConnectionKind
    /** Every branch of the constructor sets this. */
    const externalKernel: bool
    const showMimetypeDebug: bool
    /** allocated_files */
    var files: seq<string>
    /** The kernel's iopub channel: the messages not read yet. */
    var iopub: seq<Message>
    /** What was sent to the kernel (execute, interrupt, restart, shutdown). */
    var requests: seq<KernelRequest>

    /** JupyterRuntime.__init__: the kernel starts (or is connected to) elsewhere. */
    constructor (kernelName: string, showMimetypeDebug: bool)
      ensures state == Starting && this.kernelName == kernelName && connection == Connection(kernelName)
      ensures externalKernel && this.showMimetypeDebug == showMimetypeDebug
      ensures files == [] && iopub == [] && requests == []
    {
      state := Starting;
      this.kernelName := kernelName;
      connection := Connection(kernelName);
      externalKernel := true;
      this.showMimetypeDebug := showMimetypeDebug;
      files := [];
      iopub := [];
      requests := [];
    }

    /** is_ready: past STARTING. */
    function IsReady(): (b: bool)
      reads this
      ensures b <==> state != Starting
    {
      state.Value() > Starting.Value()
    }

    /** restart: back to STARTING, and the kernel is asked to restart. */
    method Restart()
      modifies this
      ensures state == Starting && requests == old(requests) + [RestartKernel]
      ensures files == old(files) && iopub == old(iopub)
    {
      state := Starting;
      requests := requests + [RestartKernel];
    }

    method Interrupt()
      modifies this
      ensures requests == old(requests) + [InterruptKernel]
      ensures state == old(state) && files == old(files) && iopub == old(iopub)
    {
      requests := requests + [InterruptKernel];
    }

    /** run_code: the code is sent for execution; nothing is returned. */
    method RunCode(code: string)
      modifies this
      ensures requests == old(requests) + [Execute(code)]
      ensures state == old(state) && files == old(files) && iopub == old(iopub)
    {
      requests := requests + [Execute(code)];
    }

    /** The kernel publishing a message on iopub. */
    method Deliver(m: Message)
      modifies this
      ensures iopub == old(iopub) + [m]
      ensures state == old(state) && files == old(files) && requests == old(requests)
    {
      iopub := iopub + [m];
    }

    /** deinit: each allocated file that still exists is removed; the kernel is shut
        down only when the plugin started it. Returns the files that remain. */
    method Deinit(existing: set<string>) returns (remaining: set<string>)
      modifies this
      ensures remaining == existing - (set f | f in files)
      ensures requests == old(requests) + (if externalKernel then [] else [ShutdownKernel])
      ensures state == old(state) && files == old(files) && iopub == old(iopub)
    {
      remaining := existing;
      var i := 0;
      while i < |files|
        invariant 0 <= i <= |files|
        invariant forall f :: f in remaining <==> f in existing && f !in files[..i]
      {
        if files[i] in remaining {
          remaining := remaining - {files[i]};
        }
        assert files[..i + 1] == files[..i] + [files[i]];
        i := i + 1;
      }
      assert files[..i] == files;
      if !externalKernel {
        requests := requests + [ShutdownKernel];
      }
    }

    /** _append_chunk */
    method AppendChunk(output: Output, data: Json, metadata: Json, render: Renderer) returns (error: Option<PyError>)
      modifies this, output
      ensures Appended(output.Record(), files, error)
              == AppendChunkSpec(showMimetypeDebug, old(output.Record()), old(files), data, metadata, render)
      ensures state == old(state) && iopub == old(iopub) && requests == old(requests)
    {
      if showMimetypeDebug {
        if !data.JObject? {
          return Some(AttributeError("object has no attribute 'keys'"));
        }
        output.chunks := output.chunks + [MimetypesChunk(Keys(data.entries))];
      }
      var conv := ToOutputChunk(data, metadata, render);
      files := files + conv.files;
      if conv.chunk.Err? {
        return Some(conv.chunk.error);
      }
      output.chunks := output.chunks + [conv.chunk.value];
      error := None;
    }

    method HandleExecuteInput(output: Output, content: Json) returns (r: Result<bool>)
      modifies output
      ensures Step(state, output.Record(), files, r)
              == ExecuteInput(externalKernel, state, old(output.Record()), files, content)
    {
      var j :- Index(content, "execution_count");
      var count :- CountValue(j);
      output.executionCount := count;
      if !externalKernel {
        if output.status == Done {
          return Err(AssertionError);
        }
        output.status := if output.status == Hold then OutputStatus.Running else Done;
      }
      r := Ok(true);
    }

    method HandleStatus(output: Output, content: Json) returns (r: Result<bool>)
      modifies this, output
      ensures Step(state, output.Record(), files, r) == StatusMessage(old(state), old(output.Record()), old(files), content)
      ensures files == old(files) && iopub == old(iopub) && requests == old(requests)
    {
      var st :- Index(content, "execution_state");
      if st == JStr("starting") {
        return Err(AssertionError);
      }
      if st == JStr("idle") {
        state := Idle;
        output.status := Done;
        r := Ok(true);
      } else if st == JStr("busy") {
        state := RuntimeState.Running;
        r := Ok(true);
      } else {
        r := Ok(false);
      }
    }

    method HandleBundle(output: Output, content: Json, render: Renderer) returns (r: Result<bool>)
      modifies this, output
      ensures Step(state, output.Record(), files, r)
              == BundleMessage(showMimetypeDebug, old(state), old(output.Record()), old(files), content, render)
      ensures state == old(state) && iopub == old(iopub) && requests == old(requests)
    {
      var data :- Index(content, "data");
      var metadata :- Index(content, "metadata");
      var error := AppendChunk(output, data, metadata, render);
      if error.Some? {
        return Err(error.value);
      }
      r := Ok(true);
    }

    method HandleError(output: Output, content: Json) returns (r: Result<bool>)
      modifies output
      ensures Step(state, output.Record(), files, r) == ErrorMessage(state, old(output.Record()), files, content)
    {
      var ename :- Index(content, "ename");
      var evalue :- Index(content, "evalue");
      var traceback :- Index(content, "traceback");
      var name :- StrValue(ename, "ename");
      var message :- StrValue(evalue, "evalue");
      var lines :- StrList(traceback);
      output.chunks := output.chunks + [ErrorChunk(name, message, lines)];
      output.success := false;
      r := Ok(true);
    }

    method HandleStream(output: Output, content: Json) returns (r: Result<bool>)
      modifies output
      ensures Step(state, output.Record(), files, r) == StreamMessage(state, old(output.Record()), files, content)
    {
      var t :- Index(content, "text");
      var text :- StrValue(t, "text");
      output.chunks := output.chunks + [TextChunk(text)];
      r := Ok(true);
    }

    method HandleClear(output: Output, content: Json) returns (r: Result<bool>)
      modifies output
      ensures Step(state, output.Record(), files, r) == ClearMessage(state, old(output.Record()), files, content)
    {
      var w :- Index(content, "wait");
      if Truthy(w) {
        output.shouldClear := true;
      } else {
        output.chunks := [];
      }
      r := Ok(true);
    }

    /** _tick_one(output, message_type, content) */
    method TickOne(output: Output, msgType: string, content: Json, render: Renderer) returns (r: Result<bool>)
      modifies this, output
      ensures Step(state, output.Record(), files, r)
              == TickOneSpec(externalKernel, showMimetypeDebug, old(state), old(output.Record()), old(files),
                             msgType, content, render)
      ensures iopub == old(iopub) && requests == old(requests)
    {
      if output.shouldClear {
        output.chunks := [];
        output.shouldClear := false;
      }
      assert output.Record() == ClearPending(old(output.Record()));
      r := Handle(output, msgType, content, render);
    }

    /** The dispatch on the message kind in _tick_one. */
    method Handle(output: Output, msgType: string, content: Json, render: Renderer) returns (r: Result<bool>)
      modifies this, output
      ensures Step(state, output.Record(), files, r)
              == Dispatch(externalKernel, showMimetypeDebug, old(state), old(output.Record()), old(files),
                          msgType, content, render)
      ensures iopub == old(iopub) && requests == old(requests)
    {
      if msgType == "execute_input" {
        r := HandleExecuteInput(output, content);
      } else if msgType == "status" {
        r := HandleStatus(output, content);
      } else if msgType == "execute_result" || msgType == "display_data" {
        r := HandleBundle(output, content, render);
      } else if msgType == "error" {
        r := HandleError(output, content);
      } else if msgType == "stream" {
        r := HandleStream(output, content);
      } else if msgType == "clear_output" {
        r := HandleClear(output, content);
      } else {
        r := Ok(false);
      }
    }

    /** tick(output), with `probe` the answer of wait_for_ready(timeout=0). */
    method Tick(output: Output?, probe: bool, render: Renderer) returns (r: Result<bool>)
      modifies this, output
      ensures TickSpec(externalKernel, showMimetypeDebug, old(state),
                       if output == null then None else Some(old(output.Record())), old(files), old(iopub), probe, render)
              == TickOutcome(state, if output == null then None else Some(output.Record()), files, iopub, r)
      ensures requests == old(requests)
    {
      var did := false;
      if state == Starting {
        if !probe {
          return Ok(false);
        }
        state := Idle;
        did := true;
      }
      if output == null {
        return Ok(did);
      }
      r := Drain(output, render, did);
    }

    /** The loop of tick over the iopub queue, with `did` the work done before it. */
    method Drain(output: Output, render: Renderer, did: bool) returns (r: Result<bool>)
      modifies this, output
      ensures Drained(state, output.Record(), files, iopub, r)
              == DrainSpec(externalKernel, showMimetypeDebug, old(state), old(output.Record()), old(files), old(iopub),
                           render, did)
      ensures requests == old(requests)
    {
      var work := did;
      while |iopub| > 0
        invariant requests == old(requests)
        invariant DrainSpec(externalKernel, showMimetypeDebug, state, output.Record(), files, iopub, render, work)
                  == DrainSpec(externalKernel, showMimetypeDebug, old(state), old(output.Record()), old(files), old(iopub),
                               render, did)
        decreases |iopub|
      {
        var m := iopub[0];
        iopub := iopub[1..];
        if m.content.None? || m.msgType.None? {
          continue;
        }
        var now := TickOne(output, m.msgType.value, m.content.value, render);
        if now.Err? {
          return now;
        }
        work := work || now.value;
        if output.status == Done {
          return Ok(work);
        }
      }
      r := Ok(work);
    }
  }
}
