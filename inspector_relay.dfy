/** The inspector relay (class `jsDebugSe` in the repository root): a debug
    adapter that runs the program under `node --inspect-brk`, opens an
    inspector session 300 ms later, and translates between DAP requests and
    inspector protocol calls.

    The session is a flag saying whether `post` works; what the inspector
    sends back (pauses, breakpoint callbacks, console calls) arrives through
    methods the environment calls. `path.resolve` is left to the caller: the
    paths given here are already resolved. */
module InspectorRelay {
  import opened Dap
  import opened Optional

  /** A JavaScript value that the relay uses as a path: a string, or the
      empty array `JS_filesLoc` holds until the first stack trace. */
  datatype PathValue = PathText(text: string) | EmptyArray | Missing

  /** A call frame of a `Debugger.paused` notification. A missing
      `functionName` is the empty string; a missing position is `None`. */
  datatype CallFrame = CallFrame(functionName: string, url: PathValue, lineNumber: Option<int>, columnNumber: Option<int>)

  /** The stack frame the relay reports, with `source.path` only. */
  datatype InspectorFrame = InspectorFrame(id: int, name: string, path: PathValue, line: int, column: int)

  /** A call on the inspector session. */
  datatype Post =
    | Call(name: string)
    | SetBreakpointByUrl(url: string, lineNumber: int, columnNumber: int)

  /** A message to the IDE; the inspector relay's stack frames and
      breakpoint entries differ from the other adapters'. */
  datatype Outgoing =
    | Plain(message: Message)
    | FrameReply(frames: seq<InspectorFrame>, totalFrames: int)
    | BreakpointReply(breakpoints: seq<Breakpoint>)

  datatype StepKind = ContinueKind | NextKind | StepInKind | StepOutKind

  // ---- Stack frames ----

  /** A JavaScript `||` on a value that is a path. */
  predicate Truthy(p: PathValue) {
    p.EmptyArray? || (p.PathText? && p.text != "")
  }

  function OrZero(n: Option<int>): int {
    if n.Some? then n.value else 0
  }

  /** One frame of the `stackTraceRequest` map. */
  function ToFrame(f: CallFrame, index: nat, program: string): InspectorFrame {
    InspectorFrame(index + 1,
                   if f.functionName == "" then "<anonymous>" else f.functionName,
                   if Truthy(f.url) then f.url else PathText(program),
                   OrZero(f.lineNumber) + 1,
                   OrZero(f.columnNumber) + 1)
  }

  /** `stackTraceRequest`'s `currentCallFrames.map(...)` from position `from`. */
  function MapFrames(frames: seq<CallFrame>, program: string, from: nat): (r: seq<InspectorFrame>)
    ensures |r| == |frames|
    ensures forall k :: 0 <= k < |r| ==> r[k] == ToFrame(frames[k], from + k, program)
  {
    if frames == [] then [] else [ToFrame(frames[0], from, program)] + MapFrames(frames[1..], program, from + 1)
  }

  /** The reported frames are numbered 1, 2, ... in stack order, so ids are
      distinct; positions move from 0-based to 1-based with a missing value
      read as 0; a missing name becomes `<anonymous>`, and a frame without a
      URL points at the program. Subtracting one from the reported line and
      column gives back the inspector's position. */
  lemma FramesNumbered(frames: seq<CallFrame>, program: string)
    ensures var r := MapFrames(frames, program, 0);
            && (forall k :: 0 <= k < |r| ==> r[k].id == k + 1)
            && (forall j, k :: 0 <= j < k < |r| ==> r[j].id != r[k].id)
            && (forall k :: 0 <= k < |r| ==>
                  && r[k].line - 1 == OrZero(frames[k].lineNumber)
                  && r[k].column - 1 == OrZero(frames[k].columnNumber)
                  && (frames[k].lineNumber.Some? && frames[k].lineNumber.value >= 0 ==> r[k].line >= 1)
                  && (frames[k].functionName != "" ==> r[k].name == frames[k].functionName)
                  && (frames[k].functionName == "" ==> r[k].name == "<anonymous>")
                  && (!Truthy(frames[k].url) ==> r[k].path == PathText(program))
                  && (Truthy(frames[k].url) ==> r[k].path == frames[k].url))
  {
  }

  /** What a pause stores as the current frames: the notification's frames
      when present (an empty list stays empty), otherwise one `<top-level>`
      frame at 0:0 whose URL is `JS_filesLoc` at that moment. */
  function PausedFrames(callFrames: Option<seq<CallFrame>>, filesLoc: PathValue): (r: seq<CallFrame>)
    ensures callFrames.Some? ==> r == callFrames.value
    ensures callFrames.None? ==> |r| == 1 && r[0].functionName == "<top-level>"
                                 && r[0].lineNumber == Some(0) && r[0].columnNumber == Some(0)
  {
    if callFrames.Some? then callFrames.value
    else [CallFrame("<top-level>", filesLoc, Some(0), Some(0))]
  }

  /** A pause without call frames shows one frame at line 1, column 1. When
      no stack trace has run yet, that frame's path is the empty array; after
      one, the program path stored then. */
  lemma DefaultFrameShownAtOrigin(filesLoc: PathValue, program: string)
    ensures var r := MapFrames(PausedFrames(None, filesLoc), program, 0);
            && |r| == 1 && r[0] == InspectorFrame(1, "<top-level>", if Truthy(filesLoc) then filesLoc else PathText(program), 1, 1)
  {
  }

  // ---- Step commands ----

  /** The inspector method each movement request posts. */
  function InspectorMethod(k: StepKind): (r: string)
    ensures k == ContinueKind <==> r == "Debugger.resume"
    ensures k == NextKind <==> r == "Debugger.stepOver"
    ensures k == StepInKind <==> r == "Debugger.stepInto"
    ensures k == StepOutKind <==> r == "Debugger.stepOut"
  {
    match k
    case ContinueKind => "Debugger.resume"
    case NextKind => "Debugger.stepOver"
    case StepInKind => "Debugger.stepInto"
    case StepOutKind => "Debugger.stepOut"
  }

  function RequestName(k: StepKind): string {
    match k
    case ContinueKind => "continue"
    case NextKind => "next"
    case StepInKind => "stepIn"
    case StepOutKind => "stepOut"
  }

  /** Distinct requests post distinct inspector methods. */
  lemma InspectorMethodInjective(a: StepKind, b: StepKind)
    requires InspectorMethod(a) == InspectorMethod(b)
    ensures a == b
  {
  }

  // ---- The setBreakpoints countdown ----

  /** One `setBreakPointsRequest` in flight: its requested lines, the
      `pending` counter and the `out` array, in callback order. */
  datatype Batch = Batch(lines: seq<int>, pending: int, out: seq<Breakpoint>)

  function StartBatch(lines: seq<int>): Batch {
    Batch(lines, |lines|, [])
  }

  /** The callback of breakpoint `i`: record it, count down, and answer when
      the counter reaches exactly zero. */
  function Callback(b: Batch, i: nat, err: bool): (r: (Batch, Option<seq<Breakpoint>>))
    requires i < |b.lines|
    ensures r.0.lines == b.lines && r.0.pending == b.pending - 1
    ensures r.0.out == b.out + [Breakpoint(!err, b.lines[i])]
    ensures r.1.Some? <==> b.pending == 1
    ensures r.1.Some? ==> r.1.value == r.0.out
  {
    var next := Batch(b.lines, b.pending - 1, b.out + [Breakpoint(!err, b.lines[i])]);
    (next, if next.pending == 0 then Some(next.out) else None)
  }

  predicate InRange(order: seq<nat>, n: nat) {
    forall k :: 0 <= k < |order| ==> order[k] < n
  }

  /** Callbacks in the order they arrive: the final batch and the responses sent. */
  function Deliver(b: Batch, order: seq<nat>, errs: seq<bool>): (r: (Batch, seq<seq<Breakpoint>>))
    requires |errs| == |order| && InRange(order, |b.lines|)
    ensures r.0.lines == b.lines
    decreases |order|
  {
    if order == [] then (b, [])
    else
      var prior := Deliver(b, order[..|order| - 1], errs[..|errs| - 1]);
      var step := Callback(prior.0, order[|order| - 1], errs[|errs| - 1]);
      (step.0, prior.1 + (if step.1.Some? then [step.1.value] else []))
  }

  /** The entries of the response: for the k-th callback to arrive, its
      line, verified iff it reported no error. */
  function Entries(lines: seq<int>, order: seq<nat>, errs: seq<bool>): (r: seq<Breakpoint>)
    requires |errs| == |order| && InRange(order, |lines|)
    ensures |r| == |order|
    ensures forall k :: 0 <= k < |r| ==> r[k] == Breakpoint(!errs[k], lines[order[k]])
  {
    if order == [] then []
    else Entries(lines, order[..|order| - 1], errs[..|errs| - 1]) + [Breakpoint(!errs[|errs| - 1], lines[order[|order| - 1]])]
  }

  /** While callbacks arrive, `pending` counts those still to come and `out`
      lists the arrived ones in arrival order; the response is sent exactly
      once, when the last expected callback arrives, and holds one entry per
      breakpoint. With no breakpoints nothing is ever sent. */
  lemma {:induction false} CountdownAnswersOnce(lines: seq<int>, order: seq<nat>, errs: seq<bool>)
    requires |errs| == |order| && InRange(order, |lines|) && |order| <= |lines|
    ensures var d := Deliver(StartBatch(lines), order, errs);
            && d.0.pending == |lines| - |order|
            && d.0.out == Entries(lines, order, errs)
            && d.1 == (if |order| == |lines| && |lines| > 0 then [Entries(lines, order, errs)] else [])
    decreases |order|
  {
    if order != [] {
      CountdownAnswersOnce(lines, order[..|order| - 1], errs[..|errs| - 1]);
    }
  }

  /** Once `pending` is zero or below, as after the response or from the
      start with no breakpoints, further callbacks never answer. */
  lemma {:induction false} NoAnswerAfterZero(b: Batch, order: seq<nat>, errs: seq<bool>)
    requires |errs| == |order| && InRange(order, |b.lines|) && b.pending <= 0
    ensures Deliver(b, order, errs).1 == []
    ensures Deliver(b, order, errs).0.pending == b.pending - |order|
    decreases |order|
  {
    if order != [] {
      NoAnswerAfterZero(b, order[..|order| - 1], errs[..|errs| - 1]);
    }
  }

  /** The inspector call for requested line `line`: 0-based, column 0. */
  function BreakpointPosts(url: string, lines: seq<int>): (r: seq<Post>)
    ensures |r| == |lines|
    ensures forall k :: 0 <= k < |r| ==> r[k] == SetBreakpointByUrl(url, lines[k] - 1, 0)
  {
    if lines == [] then [] else [SetBreakpointByUrl(url, lines[0] - 1, 0)] + BreakpointPosts(url, lines[1..])
  }

  /** The loop of `setBreakPointsRequest` that posts one breakpoint per
      requested line, in order. */
  method PostsFor(url: string, lines: seq<int>) returns (posts: seq<Post>)
    ensures posts == BreakpointPosts(url, lines)
  {
    posts := [];
    var i := 0;
    while i < |lines|
      invariant 0 <= i <= |lines|
      invariant posts == BreakpointPosts(url, lines[..i])
    {
      BreakpointPostsPrefix(url, lines, i);
      posts := posts + [SetBreakpointByUrl(url, lines[i] - 1, 0)];
      i := i + 1;
    }
    assert lines[..i] == lines;
  }

  // ---- The adapter object ----

  class InspectorSession {
    /** `this.session` exists (the 300 ms callback ran). */
    var created: bool
    /** `post` works: the session exists and `connect` succeeded. */
    var connected: bool
    var callFrames: Option<seq<CallFrame>>
    var filesLoc: PathValue
    var posted: seq<Post>
    var sent: seq<Outgoing>
    var batches: seq<Batch>

    constructor ()
      ensures !created && !connected && callFrames == None && filesLoc == EmptyArray
      ensures posted == [] && sent == [] && batches == []
    {
      created, connected := false, false;
      callFrames := None;
      filesLoc := EmptyArray;
      posted, sent, batches := [], [], [];
    }

    /** `initializeRequest` sends the initialized event before its response. */
    method InitializeRequest()
      modifies this`sent
      ensures sent == old(sent) + [Plain(Send(Initialized)),
                                   Plain(Reply("initialize", Capabilities([("supportsConfigurationDoneRequest", true)])))]
    {
      sent := sent + [Plain(Send(Initialized))];
      sent := sent + [Plain(Reply("initialize", Capabilities([("supportsConfigurationDoneRequest", true)])))];
    }

    /** `launchRequest` answers at once; the session comes later (`Connect`). */
    method LaunchRequest()
      modifies this`sent
      ensures sent == old(sent) + [Plain(Ack("launch"))]
    {
      sent := sent + [Plain(Ack("launch"))];
    }

    /** The 300 ms callback: create the session, connect and enable the two
        domains; a failed connect is caught and leaves `post` unusable, but
        the listeners are still installed. */
    method Connect(connectOk: bool)
      modifies this`created, this`connected, this`posted
      ensures created && connected == connectOk
      ensures posted == old(posted) + (if connectOk then [Call("Debugger.enable"), Call("Runtime.enable")] else [])
    {
      created := true;
      connected := connectOk;
      if connectOk {
        posted := posted + [Call("Debugger.enable"), Call("Runtime.enable")];
      }
    }

    /** The `Debugger.paused` listener: every pause is reported as a
        breakpoint stop. */
    method OnPaused(frames: Option<seq<CallFrame>>)
      requires created
      modifies this`callFrames, this`sent
      ensures callFrames == Some(PausedFrames(frames, filesLoc))
      ensures sent == old(sent) + [Plain(Send(Stopped("breakpoint", ThreadId)))]
    {
      if frames.Some? {
        callFrames := frames;
      } else {
        callFrames := Some([CallFrame("<top-level>", filesLoc, Some(0), Some(0))]);
      }
      sent := sent + [Plain(Send(Stopped("breakpoint", ThreadId)))];
    }

    /** The `Runtime.consoleAPICalled` listener: one output line per argument. */
    method OnConsole(values: seq<string>)
      requires created
      modifies this`sent
      ensures |sent| == |old(sent)| + |values| && sent[..|old(sent)|] == old(sent)
      ensures forall k :: 0 <= k < |values| ==> sent[|old(sent)| + k] == Plain(Send(Output(values[k] + "\n", "console")))
    {
      var i := 0;
      while i < |values|
        invariant 0 <= i <= |values|
        invariant |sent| == |old(sent)| + i && sent[..|old(sent)|] == old(sent)
        invariant forall k :: 0 <= k < i ==> sent[|old(sent)| + k] == Plain(Send(Output(values[k] + "\n", "console")))
      {
        sent := sent + [Plain(Send(Output(values[i] + "\n", "console")))];
        i := i + 1;
      }
    }

    /** The child's stdout or stderr `data` listener and its `exit` listener. */
    method OnProcessOutput(text: string, isStderr: bool)
      modifies this`sent
      ensures sent == old(sent) + [Plain(Send(Output(text, if isStderr then "stderr" else "stdout")))]
    {
      sent := sent + [Plain(Send(Output(text, if isStderr then "stderr" else "stdout")))];
    }

    method OnProcessExit()
      modifies this`sent
      ensures sent == old(sent) + [Plain(Send(Terminated))]
    {
      sent := sent + [Plain(Send(Terminated))];
    }

    /** `setBreakPointsRequest`: post one `setBreakpointByUrl` per line and
        start a countdown; nothing is answered here. Posting without a
        working session throws (`threw`) before anything is recorded. */
    method SetBreakPointsRequest(path: string, lines: seq<int>) returns (threw: bool)
      modifies this`posted, this`batches
      ensures threw <==> lines != [] && !connected
      ensures threw ==> posted == old(posted) && batches == old(batches)
      ensures !threw ==> posted == old(posted) + BreakpointPosts(path, lines)
                         && batches == old(batches) + [StartBatch(lines)]
    {
      if lines != [] && !connected {
        return true;
      }
      var posts := PostsFor(path, lines);
      posted := posted + posts;
      batches := batches + [StartBatch(lines)];
      threw := false;
    }

    /** The callback of breakpoint `i` of request `b`. */
    method BreakpointCallback(b: nat, i: nat, err: bool)
      requires b < |batches| && i < |batches[b].lines|
      modifies this`batches, this`sent
      ensures var step := Callback(old(batches[b]), i, err);
              && batches == old(batches)[b := step.0]
              && sent == old(sent) + (if step.1.Some? then [BreakpointReply(step.1.value)] else [])
    {
      var batch := batches[b];
      var out := batch.out + [Breakpoint(!err, batch.lines[i])];
      var pending := batch.pending - 1;
      batches := batches[b := Batch(batch.lines, pending, out)];
      if pending == 0 {
        sent := sent + [BreakpointReply(out)];
      }
    }

    method ThreadsRequest()
      modifies this`sent
      ensures sent == old(sent) + [Plain(Reply("threads", Threads([Thread(ThreadId, "Main Thread")])))]
    {
      sent := sent + [Plain(Reply("threads", Threads([Thread(ThreadId, "Main Thread")])))];
    }

    /** `stackTraceRequest`: stores the program path first, then maps the
        current frames. Without a `program` argument the path resolution
        throws; before any pause the `map` throws. Either way no response. */
    method StackTraceRequest(program: Option<string>) returns (threw: bool)
      modifies this`filesLoc, this`sent
      ensures threw <==> program.None? || callFrames.None?
      ensures program.None? ==> filesLoc == old(filesLoc)
      ensures program.Some? ==> filesLoc == PathText(program.value)
      ensures threw ==> sent == old(sent)
      ensures !threw ==> var frames := MapFrames(callFrames.value, program.value, 0);
                         sent == old(sent) + [FrameReply(frames, |frames|)]
    {
      if program.None? {
        return true;
      }
      filesLoc := PathText(program.value);
      if callFrames.None? {
        return true;
      }
      var frames := MapFrames(callFrames.value, program.value, 0);
      sent := sent + [FrameReply(frames, |frames|)];
      threw := false;
    }

    /** `continueRequest`, `nextRequest`, `stepInRequest`, `stepOutRequest`. */
    method StepRequest(k: StepKind) returns (threw: bool)
      modifies this`posted, this`sent
      ensures threw <==> !connected
      ensures threw ==> posted == old(posted) && sent == old(sent)
      ensures !threw ==> posted == old(posted) + [Call(InspectorMethod(k))]
                         && sent == old(sent) + [Plain(Ack(RequestName(k)))]
    {
      if !connected {
        return true;
      }
      posted := posted + [Call(InspectorMethod(k))];
      sent := sent + [Plain(Ack(RequestName(k)))];
      threw := false;
    }
  }

  lemma BreakpointPostsPrefix(url: string, lines: seq<int>, i: nat)
    requires i < |lines|
    ensures BreakpointPosts(url, lines[..i + 1]) == BreakpointPosts(url, lines[..i]) + [SetBreakpointByUrl(url, lines[i] - 1, 0)]
  {
    assert lines[..i + 1] == lines[..i] + [lines[i]];
    BreakpointPostsAppend(url, lines[..i], lines[i]);
  }

  lemma {:induction false} BreakpointPostsAppend(url: string, lines: seq<int>, line: int)
    ensures BreakpointPosts(url, lines + [line]) == BreakpointPosts(url, lines) + [SetBreakpointByUrl(url, line - 1, 0)]
    decreases |lines|
  {
    if lines == [] {
      assert lines + [line] == [line];
    } else {
      assert (lines + [line])[1..] == lines[1..] + [line];
      BreakpointPostsAppend(url, lines[1..], line);
    }
  }
}
