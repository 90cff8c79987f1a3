/** The Python-process relay (class `pyDebugSe`): the adapter spawns the
    Python stop controller, writes JSON commands to its stdin, and turns the
    newline-delimited JSON events on its stdout into DAP events.

    The stdout handler is a framer (a carry-over buffer split on newlines) and
    a dispatcher applied to each complete, non-blank line in stream order. A
    variables query is correlated with its reply through an increasing request
    id and a map of pending ids. `JSON.parse` is the parameter `parse`, which
    says what each line decodes to; process spawning and stream writes are
    parameters saying whether they succeeded. */
module PyRelay {
  import opened Text
  import opened Dap
  import opened Optional

  /** A stdout line of the runtime, as the dispatcher sees it after `JSON.parse`. */
  datatype BackendMessage =
    | StoppedMsg(line: int, reason: string)       // reason "" when missing or empty
    | BreakpointMsg(line: int)
    | TerminatedMsg
    | VariablesMsg(requestId: int, variables: seq<Variable>)
    | OtherEvent                                  // JSON with any other `event`
    | Unparseable                                 // JSON.parse (or reading `.event`) threw

  datatype ScopeName = Locals | Globals

  /** A command written to the runtime's stdin. */
  datatype Command =
    | SetBreakpoints(file: string, lines: seq<int>)
    | Continue
    | StepOver
    | StepIn
    | StepOut
    | VariablesQuery(scope: ScopeName, requestId: int)

  /** What the stdout dispatcher reads and writes: the current line, the
      pending variables queries and the messages sent to the IDE. */
  datatype Relay = Relay(currentLine: int, pending: map<int, ScopeName>, sent: seq<Message>)

  /** The complete lines of a chunk and the partial line carried over. */
  datatype Framed = Framed(lines: seq<string>, rest: string)

  // ---- Framing ----

  /** `buff += chunk; lines = buff.split('\n'); buff = lines.pop()`. */
  function Frame(buff: string, chunk: string): Framed {
    Cut(Split(buff + chunk, '\n'))
  }

  /** The pieces before the last are complete lines; the last is carried
      over. */
  function Cut(parts: seq<string>): Framed
    requires |parts| >= 1
  {
    Framed(parts[..|parts| - 1], parts[|parts| - 1])
  }

  /** Neither an emitted line nor the carry-over holds a newline, and the
      emitted lines joined with the carry-over give back the old carry-over
      followed by the chunk: nothing is lost or invented. */
  lemma FrameSplitsAtNewlines(buff: string, chunk: string)
    ensures var f := Frame(buff, chunk);
            && '\n' !in f.rest
            && (forall k :: 0 <= k < |f.lines| ==> '\n' !in f.lines[k])
            && Join(f.lines + [f.rest], '\n') == buff + chunk
  {
    var parts := Split(buff + chunk, '\n');
    SplitPiecesFree(buff + chunk, '\n');
    JoinSplit(buff + chunk, '\n');
    assert parts[..|parts| - 1] + [parts[|parts| - 1]] == parts;
  }

  /** Chunk boundaries do not matter: framing two chunks one after the other
      gives the same lines, in the same order, and the same carried-over
      text as framing their concatenation at once. No line is emitted before
      its newline arrives, and none is emitted twice. */
  lemma FrameConcat(buff: string, c1: string, c2: string)
    ensures var f1 := Frame(buff, c1);
            var f2 := Frame(f1.rest, c2);
            Frame(buff, c1 + c2) == Framed(f1.lines + f2.lines, f2.rest)
  {
    assert buff + (c1 + c2) == (buff + c1) + c2;
    CutSplitAppend(buff + c1, c2);
  }

  /** Framing `x + b` at once equals framing `x`, then the carry-over
      followed by `b`. */
  lemma CutSplitAppend(x: string, b: string)
    ensures var f1 := Cut(Split(x, '\n'));
            var f2 := Cut(Split(f1.rest + b, '\n'));
            Cut(Split(x + b, '\n')) == Framed(f1.lines + f2.lines, f2.rest)
  {
    var parts := Split(x, '\n');
    SplitAppend(x, b, '\n');
    CutReplacingLast(parts, Split(parts[|parts| - 1] + b, '\n'), Split(x + b, '\n'));
  }

  /** Replacing the last piece of `parts` by the pieces `later` keeps the
      first pieces as complete lines and carries over the last of `later`. */
  lemma CutReplacingLast(parts: seq<string>, later: seq<string>, whole: seq<string>)
    requires |parts| >= 1 && |later| >= 1 && whole == parts[..|parts| - 1] + later
    ensures Cut(whole) == Framed(Cut(parts).lines + Cut(later).lines, Cut(later).rest)
  {
    assert whole[..|whole| - 1] == parts[..|parts| - 1] + later[..|later| - 1];
  }

  // ---- Dispatch ----

  /** The stop reason reported for a `stopped` event: `current.reason || 'step'`. */
  function StopReason(reason: string): (r: string)
    ensures reason != "" ==> r == reason
    ensures r != ""
  {
    if reason == "" then "step" else reason
  }

  /** The dispatcher's effect for one complete line `raw` that parsed to `msg`. */
  function Handle(r: Relay, raw: string, msg: BackendMessage): Relay
  {
    match msg
    case StoppedMsg(line, reason) =>
      r.(currentLine := line, sent := r.sent + [Send(Stopped(StopReason(reason), ThreadId))])
    case BreakpointMsg(line) =>
      r.(currentLine := line, sent := r.sent + [Send(Stopped("breakpoint", ThreadId))])
    case TerminatedMsg =>
      r.(sent := r.sent + [Send(Terminated)])
    case VariablesMsg(id, vars) =>
      if id in r.pending then
        r.(pending := r.pending - {id}, sent := r.sent + [Reply("variables", Variables(vars))])
      else r
    case _ =>
      r.(sent := r.sent + [Send(Output(raw + "\n", "stdout"))])
  }

  /** Each line sends at most one message, after everything sent before;
      only a reply to an id no longer pending sends nothing. Only the two
      stop messages move the current line, and only a reply removes a
      pending id, its own. */
  lemma HandleEffects(r: Relay, raw: string, msg: BackendMessage)
    ensures var r' := Handle(r, raw, msg);
            && r.sent <= r'.sent && |r'.sent| <= |r.sent| + 1
            && (|r'.sent| == |r.sent| <==> msg.VariablesMsg? && msg.requestId !in r.pending)
            && r'.currentLine == (if msg.StoppedMsg? || msg.BreakpointMsg? then msg.line else r.currentLine)
            && r'.pending == (if msg.VariablesMsg? then r.pending - {msg.requestId} else r.pending)
            && (msg.StoppedMsg? ==> r'.sent[|r.sent|] == Send(Stopped(StopReason(msg.reason), ThreadId)))
            && (msg.BreakpointMsg? ==> r'.sent[|r.sent|] == Send(Stopped("breakpoint", ThreadId)))
            && (msg.TerminatedMsg? ==> r'.sent[|r.sent|] == Send(Terminated))
  {
    if msg.VariablesMsg? && msg.requestId !in r.pending {
      assert r.pending - {msg.requestId} == r.pending;
    }
  }

  /** One complete line: blank lines are dropped, the rest handled. */
  function DispatchOne(r: Relay, raw: string, parse: string -> BackendMessage): Relay {
    if Trim(raw) == [] then r else Handle(r, raw, parse(raw))
  }

  /** The lines of one chunk, dispatched in order. */
  function DispatchAll(r: Relay, lines: seq<string>, parse: string -> BackendMessage): Relay
    decreases |lines|
  {
    if lines == [] then r
    else DispatchOne(DispatchAll(r, lines[..|lines| - 1], parse), lines[|lines| - 1], parse)
  }

  /** Dispatching one more line of a chunk. */
  lemma DispatchAllPrefix(r: Relay, lines: seq<string>, i: nat, parse: string -> BackendMessage)
    requires i < |lines|
    ensures DispatchAll(r, lines[..i + 1], parse) == DispatchOne(DispatchAll(r, lines[..i], parse), lines[i], parse)
  {
    assert lines[..i + 1][..i] == lines[..i];
  }

  lemma {:induction false} DispatchAllAppend(r: Relay, a: seq<string>, b: seq<string>, parse: string -> BackendMessage)
    ensures DispatchAll(r, a + b, parse) == DispatchAll(DispatchAll(r, a, parse), b, parse)
    decreases |b|
  {
    if b == [] {
      assert a + b == a;
    } else {
      assert (a + b)[..|a + b| - 1] == a + b[..|b| - 1];
      DispatchAllAppend(r, a, b[..|b| - 1], parse);
    }
  }

  /** Feeding two chunks one after the other has the same effect on the
      relay, and leaves the same carry-over, as feeding their concatenation. */
  lemma FeedChunks(r: Relay, buff: string, c1: string, c2: string, parse: string -> BackendMessage)
    ensures var f1 := Frame(buff, c1);
            var f2 := Frame(f1.rest, c2);
            var whole := Frame(buff, c1 + c2);
            && whole.rest == f2.rest
            && DispatchAll(r, whole.lines, parse)
               == DispatchAll(DispatchAll(r, f1.lines, parse), f2.lines, parse)
  {
    FrameConcat(buff, c1, c2);
    var f1 := Frame(buff, c1);
    DispatchAllAppend(r, f1.lines, Frame(f1.rest, c2).lines, parse);
  }

  /** Only the non-blank lines, in stream order. */
  function NonBlank(lines: seq<string>): (r: seq<string>)
    ensures forall k :: 0 <= k < |r| ==> !IsBlank(r[k])
    ensures forall x :: x in r <==> x in lines && !IsBlank(x)
  {
    if lines == [] then []
    else
      var init := NonBlank(lines[..|lines| - 1]);
      var last := lines[|lines| - 1];
      TrimEmptyIffBlank(last);
      assert forall x :: x in lines <==> x in lines[..|lines| - 1] || x == last;
      if IsBlank(last) then init else init + [last]
  }

  /** Every line handled without skipping. */
  function HandleAll(r: Relay, lines: seq<string>, parse: string -> BackendMessage): Relay
    decreases |lines|
  {
    if lines == [] then r
    else Handle(HandleAll(r, lines[..|lines| - 1], parse), lines[|lines| - 1], parse(lines[|lines| - 1]))
  }

  /** Dispatching a chunk's lines handles exactly its non-blank lines, each
      once, in stream order. */
  lemma {:induction false} DispatchAllHandlesNonBlank(r: Relay, lines: seq<string>, parse: string -> BackendMessage)
    ensures DispatchAll(r, lines, parse) == HandleAll(r, NonBlank(lines), parse)
    decreases |lines|
  {
    if lines != [] {
      var init := lines[..|lines| - 1];
      var last := lines[|lines| - 1];
      DispatchAllHandlesNonBlank(r, init, parse);
      TrimEmptyIffBlank(last);
      if !IsBlank(last) {
        var nb := NonBlank(init) + [last];
        assert nb[..|nb| - 1] == NonBlank(init);
      }
    }
  }

  /** Dispatch never adds a pending query and never changes a pending
      query's scope: replies only resolve. */
  lemma {:induction false} DispatchAllOnlyResolves(r: Relay, lines: seq<string>, parse: string -> BackendMessage)
    ensures var r' := DispatchAll(r, lines, parse);
            && r'.pending.Keys <= r.pending.Keys
            && forall id :: id in r'.pending ==> r'.pending[id] == r.pending[id]
    decreases |lines|
  {
    if lines != [] {
      DispatchAllOnlyResolves(r, lines[..|lines| - 1], parse);
      DispatchOneOnlyResolves(DispatchAll(r, lines[..|lines| - 1], parse), lines[|lines| - 1], parse);
    }
  }

  lemma DispatchOneOnlyResolves(r: Relay, raw: string, parse: string -> BackendMessage)
    ensures var r' := DispatchOne(r, raw, parse);
            && r'.pending.Keys <= r.pending.Keys
            && forall id :: id in r'.pending ==> r'.pending[id] == r.pending[id]
  {
    if Trim(raw) != [] {
      HandleEffects(r, raw, parse(raw));
    }
  }

  /** A variables reply resolves the query with its id and deletes only that
      entry; a reply with an unknown id changes nothing. */
  lemma VariablesReplyResolvesOne(r: Relay, raw: string, id: int, vars: seq<Variable>)
    ensures var r' := Handle(r, raw, VariablesMsg(id, vars));
            && (id in r.pending ==> r'.pending.Keys == r.pending.Keys - {id}
                                    && r'.sent == r.sent + [Reply("variables", Variables(vars))])
            && (id !in r.pending ==> r' == r)
            && r'.currentLine == r.currentLine
  {
  }

  /** A line that is not valid JSON, or an event the relay does not know,
      reaches the IDE as standard output and changes nothing else. */
  lemma UnknownLinesForwarded(r: Relay, raw: string, msg: BackendMessage)
    requires msg.Unparseable? || msg.OtherEvent?
    ensures var r' := Handle(r, raw, msg);
            && r'.currentLine == r.currentLine && r'.pending == r.pending
            && r'.sent == r.sent + [Send(Output(raw + "\n", "stdout"))]
  {
  }

  /** The runtime's own `terminated` line and the process exit each send a
      termination: a normal end reaches the IDE as two terminated events. */
  lemma TerminatedLineThenExit(r: Relay, raw: string)
    ensures var r' := Handle(r, raw, TerminatedMsg);
            r'.sent + [Send(Terminated)] == r.sent + [Send(Terminated), Send(Terminated)]
  {
  }

  // ---- Requests answered from the relay's own state ----

  /** `variablesRequest`: reference 1 is the locals, 2 the globals, and any
      other reference is answered at once with no variables. */
  function ScopeOf(reference: int): (r: Option<ScopeName>)
    ensures r == Some(Locals) <==> reference == 1
    ensures r == Some(Globals) <==> reference == 2
    ensures r == None <==> reference != 1 && reference != 2
  {
    if reference == 1 then Some(Locals) else if reference == 2 then Some(Globals) else None
  }

  /** The one frame of `stackTraceRequest`: the current file and line. */
  function CurrentFrame(currentLine: int, currentFile: string): (f: StackFrame)
    ensures f.id == 1 && f.line == currentLine && f.column == 1 && f.source.path == currentFile
    ensures f.name == "line " + IntText(currentLine)
  {
    StackFrame(1, "line " + IntText(currentLine), Source(Basename(currentFile), currentFile), currentLine, 1)
  }

  const RelayCapabilities: seq<(string, bool)> := [
    ("supportsConfigurationDoneRequest", true),
    ("supportsStepBack", false),
    ("supportsStepInTargetsRequest", false)
  ]

  const RelayScopes: seq<Scope> := [Scope("Local", 1, false), Scope("Globals", 2, true)]

  /** How `getVariablesFromPython` ended: its promise is pending under the
      id, or was rejected. */
  datatype Query = Awaiting(id: int) | Rejected(id: int)

  /** How `variablesRequest` ended: answered at once, awaiting a reply, or
      abandoned because the query's promise was rejected (no response). */
  datatype VariablesOutcome = AnsweredEmpty | AwaitingReply(id: int) | Abandoned(id: int)

  // ---- The adapter object ----

  class PyDebugSession {
    /** `py_program` is set: a runtime process was spawned. */
    var spawned: bool
    /** `kill()` was called on the process. */
    var killed: bool
    var breakpoints: map<string, seq<int>>
    var currentLine: int
    var currentFile: string
    var requestSeq: int
    var pending: map<int, ScopeName>
    /** The carry-over of the stdout handler installed by the last launch. */
    var buff: string
    /** Every response and event sent to the IDE so far. */
    var sent: seq<Message>
    /** Every command written to the runtime's stdin so far. */
    var written: seq<Command>

    /** Request ids are handed out from 1 upwards, so every pending id is at
        most the last one issued and a fresh id is never pending. */
    ghost predicate Valid()
      reads this
    {
      requestSeq >= 0 && forall id :: id in pending ==> 1 <= id <= requestSeq
    }

    function RelayView(): Relay
      reads this
    {
      Relay(currentLine, pending, sent)
    }

    constructor ()
      ensures Valid() && !spawned && !killed && breakpoints == map[] && currentLine == 1 && currentFile == ""
      ensures requestSeq == 0 && pending == map[] && buff == "" && sent == [] && written == []
    {
      spawned, killed := false, false;
      breakpoints := map[];
      currentLine, currentFile := 1, "";
      requestSeq, pending := 0, map[];
      buff, sent, written := "", [], [];
    }

    method InitializeRequest()
      modifies this`sent
      ensures sent == old(sent) + [Reply("initialize", Capabilities(RelayCapabilities)), Send(Initialized)]
    {
      sent := sent + [Reply("initialize", Capabilities(RelayCapabilities))];
      sent := sent + [Send(Initialized)];
    }

    method ConfigurationDoneRequest()
      modifies this`sent
      ensures sent == old(sent) + [Ack("configurationDone")]
    {
      sent := sent + [Ack("configurationDone")];
    }

    /** `launchRequest`. When the runtime script or the target program does
        not exist the handler returns without any response. */
    method LaunchRequest(program: string, runtimeExists: bool, programExists: bool)
      modifies this`currentFile, this`spawned, this`buff, this`sent
      ensures !(runtimeExists && programExists) ==>
                currentFile == old(currentFile) && spawned == old(spawned) && buff == old(buff) && sent == old(sent)
      ensures runtimeExists && programExists ==>
                currentFile == program && spawned && buff == "" && sent == old(sent) + [Ack("launch")]
    {
      if !runtimeExists {
        return;
      }
      if !programExists {
        return;
      }
      currentFile := program;
      spawned := true;
      buff := "";
      sent := sent + [Ack("launch")];
    }

    /** The process's `error` or `exit` listener. */
    method OnProcessEnd()
      requires spawned
      modifies this`sent
      ensures sent == old(sent) + [Send(Terminated)]
    {
      sent := sent + [Send(Terminated)];
    }

    /** The stdout `data` listener: frame the chunk, then dispatch each
        complete line in order. */
    method OnStdoutData(chunk: string, parse: string -> BackendMessage)
      requires spawned && Valid()
      modifies this`buff, this`currentLine, this`pending, this`sent
      ensures Valid()
      ensures var f := Frame(old(buff), chunk);
              buff == f.rest && RelayView() == DispatchAll(old(RelayView()), f.lines, parse)
    {
      var text := buff + chunk;
      var parts := Split(text, '\n');
      buff := parts[|parts| - 1];
      ghost var start := RelayView();
      DispatchLines(parts[..|parts| - 1], parse);
      DispatchAllOnlyResolves(start, parts[..|parts| - 1], parse);
    }

    method DispatchLines(lines: seq<string>, parse: string -> BackendMessage)
      modifies this`currentLine, this`pending, this`sent
      ensures RelayView() == DispatchAll(old(RelayView()), lines, parse)
    {
      var i := 0;
      while i < |lines|
        invariant 0 <= i <= |lines|
        invariant RelayView() == DispatchAll(old(RelayView()), lines[..i], parse)
      {
        var data := lines[i];
        ghost var before := RelayView();
        if Trim(data) != [] {
          HandleLine(data, parse(data));
        }
        assert RelayView() == DispatchOne(before, data, parse);
        DispatchAllPrefix(old(RelayView()), lines, i, parse);
        i := i + 1;
      }
      assert lines[..i] == lines;
    }

    method HandleLine(data: string, msg: BackendMessage)
      modifies this`currentLine, this`pending, this`sent
      ensures RelayView() == Handle(old(RelayView()), data, msg)
    {
      match msg
      case StoppedMsg(line, reason) =>
        currentLine := line;
        var why := if reason == "" then "step" else reason;
        sent := sent + [Send(Stopped(why, ThreadId))];
      case BreakpointMsg(line) =>
        currentLine := line;
        sent := sent + [Send(Stopped("breakpoint", ThreadId))];
      case TerminatedMsg =>
        sent := sent + [Send(Terminated)];
      case VariablesMsg(id, vars) =>
        if id in pending {
          sent := sent + [Reply("variables", Variables(vars))];
          pending := pending - {id};
        }
      case _ =>
        sent := sent + [Send(Output(data + "\n", "stdout"))];
    }

    /** `setBreakPointsRequest`: for an existing file the stored list is
        replaced and forwarded when stdin is writable, and every requested
        line is reported verified; for a missing file nothing is stored. */
    method SetBreakPointsRequest(file: string, lines: seq<int>, fileExists: bool, writable: bool)
      modifies this`breakpoints, this`sent, this`written
      ensures !fileExists ==> breakpoints == old(breakpoints) && written == old(written)
                              && sent == old(sent) + [Reply("setBreakpoints", Breakpoints([]))]
      ensures fileExists ==> breakpoints == old(breakpoints)[file := lines]
      ensures fileExists ==> written == old(written) + (if spawned && writable then [SetBreakpoints(file, lines)] else [])
      ensures fileExists ==> sent == old(sent) + [Reply("setBreakpoints", Breakpoints(AllVerified(lines)))]
    {
      if !fileExists {
        sent := sent + [Reply("setBreakpoints", Breakpoints([]))];
        return;
      }
      breakpoints := breakpoints[file := lines];
      if spawned && writable {
        written := written + [SetBreakpoints(file, lines)];
      }
      var bps := [];
      var i := 0;
      while i < |lines|
        invariant 0 <= i <= |lines|
        invariant bps == AllVerified(lines[..i])
      {
        assert lines[..i + 1][..i] == lines[..i];
        bps := bps + [Breakpoint(true, lines[i])];
        i := i + 1;
      }
      assert lines[..i] == lines;
      sent := sent + [Reply("setBreakpoints", Breakpoints(bps))];
    }

    method ScopesRequest()
      modifies this`sent
      ensures sent == old(sent) + [Reply("scopes", Scopes(RelayScopes))]
    {
      sent := sent + [Reply("scopes", Scopes(RelayScopes))];
    }

    /** `variablesRequest`: references 1 and 2 issue a query and wait for
        its reply; any other reference is answered with no variables. A
        rejected query leaves the request without a response. */
    method VariablesRequest(reference: int, accepted: bool) returns (outcome: VariablesOutcome)
      requires Valid()
      modifies this`requestSeq, this`pending, this`sent, this`written
      ensures Valid()
      ensures ScopeOf(reference).None? ==>
                outcome == AnsweredEmpty && sent == old(sent) + [Reply("variables", Variables([]))]
                && requestSeq == old(requestSeq) && pending == old(pending) && written == old(written)
      ensures ScopeOf(reference).Some? ==>
                sent == old(sent) && requestSeq == old(requestSeq) + 1
                && outcome == (if spawned && accepted then AwaitingReply(requestSeq) else Abandoned(requestSeq))
                && pending == (if !spawned || accepted then old(pending)[requestSeq := ScopeOf(reference).value]
                               else old(pending))
                && written == old(written) + (if spawned then [VariablesQuery(ScopeOf(reference).value, requestSeq)] else [])
    {
      var scope;
      if reference == 1 {
        scope := Locals;
      } else if reference == 2 {
        scope := Globals;
      } else {
        sent := sent + [Reply("variables", Variables([]))];
        return AnsweredEmpty;
      }
      var q := GetVariablesFromPython(scope, accepted);
      match q
      case Awaiting(id) => outcome := AwaitingReply(id);
      case Rejected(id) => outcome := Abandoned(id);
    }

    /** `getVariablesFromPython`: takes the next id, records it as pending and
        writes the query. If the write reports failure the entry is removed
        and the promise rejects; with no process the write throws, which
        rejects the promise and leaves the entry in the map. */
    method GetVariablesFromPython(scope: ScopeName, accepted: bool) returns (q: Query)
      requires Valid()
      modifies this`requestSeq, this`pending, this`written
      ensures Valid()
      ensures requestSeq == old(requestSeq) + 1 && q.id == requestSeq
      ensures q.id !in old(pending)
      ensures q == (if spawned && accepted then Awaiting(requestSeq) else Rejected(requestSeq))
      ensures pending == (if !spawned || accepted then old(pending)[requestSeq := scope] else old(pending))
      ensures written == old(written) + (if spawned then [VariablesQuery(scope, requestSeq)] else [])
    {
      requestSeq := requestSeq + 1;
      var requestId := requestSeq;
      pending := pending[requestId := scope];
      if !spawned {
        return Rejected(requestId);
      }
      written := written + [VariablesQuery(scope, requestId)];
      if !accepted {
        pending := pending - {requestId};
        return Rejected(requestId);
      }
      q := Awaiting(requestId);
    }

    method ThreadsRequest()
      modifies this`sent
      ensures sent == old(sent) + [Reply("threads", Threads([Thread(ThreadId, "Main Thread")]))]
    {
      sent := sent + [Reply("threads", Threads([Thread(ThreadId, "Main Thread")]))];
    }

    method StackTraceRequest()
      modifies this`sent
      ensures sent == old(sent) + [Reply("stackTrace", StackTrace([CurrentFrame(currentLine, currentFile)], 1))]
    {
      var frame := CurrentFrame(currentLine, currentFile);
      sent := sent + [Reply("stackTrace", StackTrace([frame], 1))];
    }

    /** `continueRequest`: the command is written only when stdin is
        writable; the request is acknowledged either way. */
    method ContinueRequest(writable: bool)
      modifies this`sent, this`written
      ensures written == old(written) + (if spawned && writable then [Continue] else [])
      ensures sent == old(sent) + [Ack("continue")]
    {
      if spawned && writable {
        written := written + [Continue];
      }
      sent := sent + [Ack("continue")];
    }

    /** `nextRequest`, `stepInRequest` and `stepOutRequest` write their
        command unconditionally; with no process the write throws and no
        response is sent (`threw`). */
    method StepRequest(command: Command) returns (threw: bool)
      requires command.StepOver? || command.StepIn? || command.StepOut?
      modifies this`sent, this`written
      ensures threw == !spawned
      ensures threw ==> sent == old(sent) && written == old(written)
      ensures !threw ==> written == old(written) + [command] && sent == old(sent) + [Ack(StepCommandName(command))]
    {
      if !spawned {
        return true;
      }
      written := written + [command];
      sent := sent + [Ack(StepCommandName(command))];
      threw := false;
    }

    /** `disconnectRequest`: kills the process if there is one, and always
        responds. */
    method DisconnectRequest()
      modifies this`killed, this`sent
      ensures killed == (old(killed) || spawned)
      ensures sent == old(sent) + [Ack("disconnect")]
    {
      if spawned {
        killed := true;
      }
      sent := sent + [Ack("disconnect")];
    }
  }

  /** The DAP request each step command answers. */
  function StepCommandName(c: Command): string
    requires c.StepOver? || c.StepIn? || c.StepOut?
  {
    if c.StepOver? then "next" else if c.StepIn? then "stepIn" else "stepOut"
  }

  /** The response entries of `setBreakPointsRequest`: every line verified, in order. */
  function AllVerified(lines: seq<int>): (r: seq<Breakpoint>)
    ensures |r| == |lines|
    ensures forall k :: 0 <= k < |r| ==> r[k] == Breakpoint(true, lines[k])
  {
    if lines == [] then [] else AllVerified(lines[..|lines| - 1]) + [Breakpoint(true, lines[|lines| - 1])]
  }
}
