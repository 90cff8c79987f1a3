/** The self-hosted line interpreter session (class `JsDebugSe`): the adapter
    reads the program's lines itself and "runs" them one per timer tick, printing
    each line, halting on breakpoints and stepping on request.

    Every request handler is a step function on the `Session` value that returns
    the next session and the messages sent to the IDE; the class `LineDebugSession`
    performs the same updates field by field, as the JavaScript class does, and is
    proved to agree with the step functions. A timer callback scheduled with
    `setTimeout` is counted in `ticks` and runs as one explicit `Tick` step. */
module LineSession {
  import opened Text
  import opened Dap

  /** `Number.MAX_SAFE_INTEGER`, the upper clamp of requested breakpoint lines. */
  const MaxSafeInteger: int := 0x1F_FFFF_FFFF_FFFF

  /** What `fs.readFileSync` gives: the file's text, or the message of the error it throws. */
  datatype FileRead = Read(text: string) | Unreadable(message: string)

  datatype Session = Session(
    program: string,               // _programPath, already resolved
    lines: seq<string>,            // _lines
    line: int,                     // _line, 1-based
    running: bool,                 // _running
    stopOnEntry: bool,             // _stopOnEntry
    breaks: map<string, set<int>>, // _breaks
    ticks: nat)                    // tick callbacks scheduled and not yet run

  /** The session after a handler, and the messages it sent, in order. */
  datatype Step = Step(next: Session, sent: seq<Message>)

  /** The fields as the constructor sets them. */
  function Initial(): Session {
    Session("", [], 1, false, true, map[], 0)
  }

  /** What every reachable session satisfies: the line counter starts at 1 and
      only grows, and stored breakpoint lines were clamped to at least 1.
      It is a standalone invariant of the step functions (`StepsKeepValid`);
      no handler relies on it, and since each method of `LineDebugSession`
      performs a step function on `State()`, it holds of every state the
      class reaches. */
  ghost predicate Valid(s: Session) {
    && s.line >= 1
    && forall f, n :: f in s.breaks && n in s.breaks[f] ==> n >= 1
  }

  function Max(a: int, b: int): int {
    if a >= b then a else b
  }

  function Min(a: int, b: int): int {
    if a <= b then a else b
  }

  /** `_clamp(n, lo, hi)`, that is `Math.max(lo, Math.min(hi, n))`. */
  function Clamp(n: int, lo: int, hi: int): (r: int)
    ensures r >= lo
    ensures lo <= hi ==> r <= hi
    ensures lo <= n <= hi ==> r == n
    ensures n <= lo || hi <= lo ==> r == lo
    ensures lo <= hi <= n ==> r == hi
  {
    Max(lo, Min(hi, n))
  }

  /** The element at `i`, or the empty text where JavaScript reads `undefined ?? ''`. */
  function At(lines: seq<string>, i: int): string {
    if 0 <= i < |lines| then lines[i] else ""
  }

  function DropCr(p: string): string {
    if p != [] && p[|p| - 1] == '\r' then p[..|p| - 1] else p
  }

  /** `text.split(/\r?\n/)`: split at each newline, and drop the carriage
      return just before a newline. */
  function SplitLines(text: string): (r: seq<string>)
    ensures |r| == |Split(text, '\n')| >= 1
    ensures forall k :: 0 <= k < |r| ==> '\n' !in r[k]
  {
    var parts := Split(text, '\n');
    SplitPiecesFree(text, '\n');
    seq(|parts|, k requires 0 <= k < |parts| => if k < |parts| - 1 then DropCr(parts[k]) else parts[k])
  }

  /** For text without carriage returns, the program lines joined with
      newlines give back the file's text. */
  lemma SplitLinesRoundTrip(text: string)
    requires '\r' !in text
    ensures Join(SplitLines(text), '\n') == text
  {
    var parts := Split(text, '\n');
    SplitPiecesFrom(text, '\n');
    assert forall k :: 0 <= k < |parts| ==> '\r' !in parts[k];
    assert SplitLines(text) == parts;
    JoinSplit(text, '\n');
  }

  /** The text of the current line, with the line clamped into the program. */
  function CurrentText(s: Session): string {
    At(s.lines, Clamp(s.line, 1, |s.lines|) - 1)
  }

  /** An output line such as `line 3: x = 1` followed by a newline. */
  function LineReport(prefix: string, n: int, text: string): string {
    prefix + IntText(n) + ": " + text + "\n"
  }

  const AdapterCapabilities: seq<(string, bool)> := [
    ("supportsConfigurationDoneRequest", true),
    ("supportsEvaluateForHovers", true),
    ("supportsSetVariable", false),
    ("supportsStepBack", false),
    ("supportsTerminateRequest", true)
  ]

  function InitializeStep(s: Session): Step {
    Step(s, [Reply("initialize", Capabilities(AdapterCapabilities)), Send(Initialized)])
  }

  /** `launchRequest`: the path and the stop-on-entry flag are stored before
      the file is read, so a failed read still changes them. */
  function LaunchStep(s: Session, program: string, file: FileRead, stopOnEntry: bool): Step {
    var s1 := s.(program := program, stopOnEntry := stopOnEntry);
    match file
    case Unreadable(message) =>
      Step(s1, [Response("launch", false, ErrorMessage(1, "Failed to launch: " + message))])
    case Read(text) =>
      var s2 := s1.(lines := SplitLines(text), line := 1);
      if stopOnEntry then Step(s2, [Ack("launch"), Send(Stopped("entry", ThreadId))])
      else Step(ContinueRun(s2), [Ack("launch")])
  }

  /** `_continueRun`: start a tick chain unless one is running. */
  function ContinueRun(s: Session): (r: Session)
    ensures s.running ==> r == s
    ensures r.running && r.line == s.line && r.breaks == s.breaks && r.lines == s.lines
    ensures r.ticks == if s.running then s.ticks else s.ticks + 1
  {
    if s.running then s else s.(running := true, ticks := s.ticks + 1)
  }

  /** What a run past the last line reports: completion, then termination. */
  const Completed: seq<Message> := [Send(Output("Program completed.\n", "console")), Send(Terminated)]

  /** One run of the `tick` callback. */
  function TickStep(s: Session): Step
    requires s.ticks > 0
  {
    var s0 := s.(ticks := s.ticks - 1);
    if !s.running then Step(s0, [])
    else if s.line > |s.lines| then
      Step(s0.(running := false), Completed)
    else if s.program in s.breaks && s.line in s.breaks[s.program] then
      Step(s0.(running := false), [Send(Stopped("breakpoint", ThreadId))])
    else
      Step(s0.(line := s.line + 1, ticks := s.ticks),
           [Send(Output(LineReport("line ", s.line, At(s.lines, s.line - 1)), "console"))])
  }

  /** `_stepOnce`: one line, whatever the breakpoints and the running flag. */
  function StepLine(s: Session): (r: Step)
    ensures r.next.breaks == s.breaks && r.next.running == s.running && r.next.ticks == s.ticks
  {
    if s.line > |s.lines| then Step(s, [Send(Terminated)])
    else
      Step(s.(line := s.line + 1),
           [Send(Output(LineReport("step ", s.line, At(s.lines, s.line - 1)), "console")),
            Send(Stopped("step", ThreadId))])
  }

  function ContinueStep(s: Session): Step {
    Step(ContinueRun(s), [Ack("continue")])
  }

  function NextStep(s: Session): Step {
    var r := StepLine(s);
    Step(r.next, [Ack("next")] + r.sent)
  }

  function PauseStep(s: Session): Step {
    Step(s.(running := false), [Ack("pause"), Send(Stopped("pause", ThreadId))])
  }

  function TerminateStep(s: Session): Step {
    Step(s.(running := false), [Ack("terminate"), Send(Terminated)])
  }

  /** The requested lines, each clamped into [1, MAX_SAFE_INTEGER]. */
  function ClampedLines(requested: seq<int>): (r: seq<int>)
    ensures |r| == |requested|
    ensures forall k :: 0 <= k < |r| ==> r[k] == Clamp(requested[k], 1, MaxSafeInteger)
  {
    seq(|requested|, k requires 0 <= k < |requested| => Clamp(requested[k], 1, MaxSafeInteger))
  }

  /** The highest line a breakpoint in `file` may have and still be verified. */
  function LineLimit(s: Session, file: string): int {
    if file == s.program then |s.lines| else MaxSafeInteger
  }

  /** The `verified` flags of the response: one entry per requested line. */
  function Verify(s: Session, file: string, lines: seq<int>): (r: seq<Breakpoint>)
    ensures |r| == |lines|
  {
    seq(|lines|, k requires 0 <= k < |lines| => Breakpoint(1 <= lines[k] <= LineLimit(s, file), lines[k]))
  }

  /** `setBreakPointsRequest`: the file's set is replaced by the clamped lines. */
  function SetBreakpointsStep(s: Session, file: string, requested: seq<int>): Step {
    var lines := ClampedLines(requested);
    Step(s.(breaks := s.breaks[file := set n | n in lines]),
         [Reply("setBreakpoints", Breakpoints(Verify(s, file, lines)))])
  }

  /** The single frame of `stackTraceRequest`. */
  function TopFrame(s: Session): (f: StackFrame)
    ensures f.id == 1 && f.column == 1 && f.line >= 1
    ensures |s.lines| >= 1 ==> f.line <= |s.lines|
    ensures 1 <= s.line <= |s.lines| ==> f.line == s.line
    ensures f.source.path == s.program
  {
    StackFrame(1, "main", Source(Basename(s.program), s.program), Clamp(s.line, 1, |s.lines|), 1)
  }

  /** `variablesRequest`: only reference 1 (the locals handle) has variables;
      `now` is the clock's `toLocaleTimeString()`. */
  function VariablesOf(s: Session, reference: int, now: string): (r: seq<Variable>)
    ensures reference != 1 ==> r == []
    ensures reference == 1 ==> |r| == 4 && r[0].value == s.program && r[1].value == IntText(s.line)
                                && r[2].value == JsonQuote(CurrentText(s))
  {
    if reference != 1 then []
    else [Variable("file", s.program, 0), Variable("line", IntText(s.line), 0),
          Variable("text", JsonQuote(CurrentText(s)), 0), Variable("time", now, 0)]
  }

  /** `evaluateRequest`: a fixed vocabulary over the trimmed expression; `now`
      is the clock's `toISOString()`. */
  function Evaluate(s: Session, expression: string, now: string): (r: string)
    ensures Trim(expression) == "line" ==> r == IntText(s.line)
    ensures Trim(expression) == "text" ==> r == CurrentText(s)
    ensures Trim(expression) == "time" ==> r == now
    ensures Trim(expression) == "len(text)" ==> r == NatText(|CurrentText(s)|)
    ensures Trim(expression) !in {"line", "text", "time", "len(text)"} ==>
              r == "Unsupported expression: " + Trim(expression)
  {
    var expr := Trim(expression);
    if expr == "line" then IntText(s.line)
    else if expr == "text" then CurrentText(s)
    else if expr == "time" then now
    else if expr == "len(text)" then NatText(|CurrentText(s)|)
    else "Unsupported expression: " + expr
  }

  /** White space around the expression does not change the answer. */
  lemma EvaluateIgnoresPadding(s: Session, e: string, p: string, q: string, now: string)
    requires IsBlank(p) && IsBlank(q)
    ensures Evaluate(s, p + e + q, now) == Evaluate(s, e, now)
  {
    TrimIgnoresPadding(p, e, q);
  }

  // ---- Properties of the step functions ----

  /** Every handler keeps the session invariant. */
  lemma StepsKeepValid(s: Session, program: string, file: FileRead, stopOnEntry: bool,
                       path: string, requested: seq<int>)
    requires Valid(s)
    ensures Valid(Initial())
    ensures Valid(LaunchStep(s, program, file, stopOnEntry).next)
    ensures s.ticks > 0 ==> Valid(TickStep(s).next)
    ensures Valid(StepLine(s).next) && Valid(ContinueRun(s))
    ensures Valid(PauseStep(s).next) && Valid(TerminateStep(s).next)
    ensures Valid(SetBreakpointsStep(s, path, requested).next)
  {
    LaunchKeepsValid(s, program, file, stopOnEntry);
    if s.ticks > 0 {
      TickKeepsValid(s);
    }
    SetBreakpointsKeepsValid(s, path, requested);
  }

  lemma LaunchKeepsValid(s: Session, program: string, file: FileRead, stopOnEntry: bool)
    requires Valid(s)
    ensures Valid(LaunchStep(s, program, file, stopOnEntry).next)
  {
  }

  lemma TickKeepsValid(s: Session)
    requires Valid(s) && s.ticks > 0
    ensures Valid(TickStep(s).next)
  {
  }

  lemma SetBreakpointsKeepsValid(s: Session, path: string, requested: seq<int>)
    requires Valid(s)
    ensures Valid(SetBreakpointsStep(s, path, requested).next)
  {
    var lines := ClampedLines(requested);
    var b := SetBreakpointsStep(s, path, requested).next.breaks;
    forall f, n | f in b && n in b[f] ensures n >= 1 {
      if f == path {
        var k :| 0 <= k < |lines| && lines[k] == n;
      }
    }
  }

  /** Setting breakpoints replaces the file's whole set: afterwards it holds
      exactly the clamped requested lines, so a repeated line is one member
      and an earlier request for the file leaves nothing behind. The other
      files keep their sets. */
  lemma SetBreakpointsReplaces(s: Session, file: string, requested: seq<int>)
    ensures var b := SetBreakpointsStep(s, file, requested).next.breaks;
            && file in b
            && (forall n :: n in b[file] <==> exists k :: 0 <= k < |requested| && n == Clamp(requested[k], 1, MaxSafeInteger))
            && (forall f :: f in s.breaks && f != file ==> f in b && b[f] == s.breaks[f])
            && b.Keys == s.breaks.Keys + {file}
  {
    var lines := ClampedLines(requested);
    var b := SetBreakpointsStep(s, file, requested).next.breaks;
    forall n ensures n in b[file] <==> exists k :: 0 <= k < |requested| && n == Clamp(requested[k], 1, MaxSafeInteger) {
      if n in b[file] {
        var k :| 0 <= k < |lines| && lines[k] == n;
      }
      if exists k :: 0 <= k < |requested| && n == Clamp(requested[k], 1, MaxSafeInteger) {
        var k :| 0 <= k < |requested| && n == Clamp(requested[k], 1, MaxSafeInteger);
        assert lines[k] == n;
      }
    }
  }

  /** The response has one entry per requested line, duplicates included, in
      order; an entry is verified iff its clamped line lies in the program when
      the file is the program, and is always verified for any other file. */
  lemma SetBreakpointsResponse(s: Session, file: string, requested: seq<int>)
    ensures var sent := SetBreakpointsStep(s, file, requested).sent;
            && |sent| == 1 && sent[0].Response? && sent[0].body.Breakpoints?
            && var bps := sent[0].body.breakpoints;
            && |bps| == |requested|
            && forall k :: 0 <= k < |bps| ==>
                 var n := Clamp(requested[k], 1, MaxSafeInteger);
                 && bps[k].line == n
                 && (bps[k].verified <==> (file != s.program || n <= |s.lines|))
  {
  }

  /** Halting on a breakpoint: the tick clears the running flag, reports a
      breakpoint stop, prints nothing and leaves the line where it is. */
  lemma TickHaltsOnBreakpoint(s: Session)
    requires s.ticks > 0 && s.running && s.line <= |s.lines|
    requires s.program in s.breaks && s.line in s.breaks[s.program]
    ensures var r := TickStep(s);
            && !r.next.running && r.next.line == s.line && r.next.ticks == s.ticks - 1
            && r.sent == [Send(Stopped("breakpoint", ThreadId))]
  {
  }

  /** The breakpoint test comes before the output: continuing from a stop on
      a breakpoint line halts again at that same line with no output, so the
      session never runs past a breakpoint line by `continue`. */
  lemma {:induction false} ContinueOnBreakpointHaltsAgain(s: Session)
    requires s.ticks > 0 && s.running && s.line <= |s.lines|
    requires s.program in s.breaks && s.line in s.breaks[s.program]
    ensures var halted := TickStep(s).next;
            var again := TickStep(ContinueRun(halted));
            && !again.next.running && again.next.line == s.line
            && again.sent == [Send(Stopped("breakpoint", ThreadId))]
  {
    var halted := TickStep(s).next;
    TickHaltsOnBreakpoint(s);
    var resumed := ContinueRun(halted);
    TickHaltsOnBreakpoint(resumed);
  }

  /** A tick on a line of the program that is not a breakpoint prints that
      line as `line N: text` and advances by exactly one. */
  lemma TickAdvances(s: Session)
    requires s.ticks > 0 && s.running && 1 <= s.line <= |s.lines|
    requires !(s.program in s.breaks && s.line in s.breaks[s.program])
    ensures var r := TickStep(s);
            && r.next.running && r.next.line == s.line + 1 && r.next.ticks == s.ticks
            && r.sent == [Send(Output(LineReport("line ", s.line, s.lines[s.line - 1]), "console"))]
  {
  }

  /** Past the last line a tick stops the run, reports completion and then one
      termination, and schedules nothing. */
  lemma TickCompletes(s: Session)
    requires s.ticks > 0 && s.running && s.line > |s.lines|
    ensures var r := TickStep(s);
            && !r.next.running && r.next.line == s.line && r.next.ticks == s.ticks - 1
            && r.sent == Completed
  {
  }

  /** `next` steps one line whatever the breakpoints and the running flag
      say: in range it prints `step N: text`, advances by one and reports a
      step stop; past the last line it only reports termination and keeps
      the line. */
  lemma StepIgnoresBreakpoints(s: Session, breaks: map<string, set<int>>, running: bool)
    ensures StepLine(s.(breaks := breaks, running := running)).sent == StepLine(s).sent
    ensures StepLine(s.(breaks := breaks, running := running)).next.line == StepLine(s).next.line
    ensures s.line > |s.lines| ==> StepLine(s).next == s && StepLine(s).sent == [Send(Terminated)]
    ensures 1 <= s.line <= |s.lines| ==>
              && StepLine(s).next.line == s.line + 1
              && StepLine(s).sent == [Send(Output(LineReport("step ", s.line, s.lines[s.line - 1]), "console")),
                                      Send(Stopped("step", ThreadId))]
  {
  }

  /** `n` ticks in a row, stopping early when none is scheduled. */
  function Ticks(s: Session, n: nat): Step
    decreases n
  {
    if n == 0 || s.ticks == 0 then Step(s, [])
    else
      var first := TickStep(s);
      var rest := Ticks(first.next, n - 1);
      Step(rest.next, first.sent + rest.sent)
  }

  /** The outputs of an uninterrupted run from line `from` to the last line. */
  function RunOutputs(lines: seq<string>, from: int): (r: seq<Message>)
    requires 1 <= from <= |lines| + 1
    ensures |r| == |lines| + 1 - from
    decreases |lines| + 1 - from
  {
    if from == |lines| + 1 then []
    else [Send(Output(LineReport("line ", from, lines[from - 1]), "console"))] + RunOutputs(lines, from + 1)
  }

  /** With no breakpoint in the program, a run from line `line` prints each
      remaining line once, in order, then reports completion and one
      termination: from line 1, exactly as many line outputs as the program
      has lines precede the completion. */
  lemma {:induction false} RunToCompletion(s: Session)
    requires s.running && s.ticks == 1 && 1 <= s.line <= |s.lines| + 1
    requires s.program !in s.breaks || forall n :: n !in s.breaks[s.program]
    ensures var r := Ticks(s, |s.lines| + 2 - s.line);
            && !r.next.running && r.next.ticks == 0 && r.next.line == |s.lines| + 1
            && r.sent == RunOutputs(s.lines, s.line)
                         + Completed
    decreases |s.lines| + 1 - s.line
  {
    if s.line <= |s.lines| {
      var first := TickStep(s);
      TickAdvances(s);
      var next := s.(line := s.line + 1);
      assert first == Step(next, [Send(Output(LineReport("line ", s.line, s.lines[s.line - 1]), "console"))]);
      RunToCompletion(next);
      TicksUnfold(s, |s.lines| + 1 - s.line);
      AppendAssoc(first.sent, RunOutputs(s.lines, s.line + 1),
                  Completed);
    } else {
      TickCompletes(s);
    }
  }

  /** One tick, then the rest. */
  lemma TicksUnfold(s: Session, n: nat)
    requires s.ticks > 0
    ensures var first := TickStep(s);
            var rest := Ticks(first.next, n);
            Ticks(s, n + 1) == Step(rest.next, first.sent + rest.sent)
  {
  }

  lemma AppendAssoc(a: seq<Message>, b: seq<Message>, c: seq<Message>)
    ensures a + (b + c) == (a + b) + c
  {
  }

  /** A tick never schedules more ticks than it consumed, and continuing
      schedules one only when the session was not running: a running session
      never gets a second chain from `continue`. */
  lemma ChainsNeverGrowWhileRunning(s: Session)
    ensures s.ticks > 0 ==> TickStep(s).next.ticks <= s.ticks
    ensures s.running ==> ContinueRun(s).ticks == s.ticks
    ensures StepLine(s).next.ticks == s.ticks
  {
  }

  /** At most one chain: no tick or one, and one whenever running. */
  ghost predicate OneChain(s: Session) {
    s.ticks <= 1 && (s.running ==> s.ticks == 1)
  }

  /** Every handler keeps a single tick chain, except `continue` (or a launch
      without stop-on-entry) arriving while a tick that a pause or terminate
      left behind is still scheduled. */
  lemma OneChainKept(s: Session, program: string, file: FileRead, stopOnEntry: bool,
                     path: string, requested: seq<int>)
    requires OneChain(s)
    ensures s.ticks > 0 ==> OneChain(TickStep(s).next)
    ensures (s.running || s.ticks == 0) ==> OneChain(ContinueRun(s))
    ensures (s.running || s.ticks == 0) ==> OneChain(LaunchStep(s, program, file, stopOnEntry).next)
    ensures OneChain(StepLine(s).next) && OneChain(PauseStep(s).next) && OneChain(TerminateStep(s).next)
    ensures OneChain(SetBreakpointsStep(s, path, requested).next)
  {
  }

  /** Pause does not cancel the scheduled tick, so a `continue` before it runs
      leaves two ticks scheduled; both then advance the shared line counter. */
  lemma PauseThenContinueStartsSecondChain(s: Session)
    requires s.running && s.ticks == 1
    ensures ContinueStep(PauseStep(s).next).next.ticks == 2
  {
  }

  // ---- The adapter object ----

  class LineDebugSession {
    var program: string
    var lines: seq<string>
    var line: int
    var running: bool
    var stopOnEntry: bool
    var breaks: map<string, set<int>>
    var ticks: nat
    /** Every response and event sent to the IDE so far. */
    var sent: seq<Message>

    function State(): Session
      reads this
    {
      Session(program, lines, line, running, stopOnEntry, breaks, ticks)
    }

    constructor ()
      ensures State() == Initial() && sent == []
    {
      program, lines, line, running, stopOnEntry := "", [], 1, false, true;
      breaks, ticks, sent := map[], 0, [];
    }

    method Emit(m: Message)
      modifies this`sent
      ensures sent == old(sent) + [m]
    {
      sent := sent + [m];
    }

    method InitializeRequest()
      modifies this`sent
      ensures sent == old(sent) + InitializeStep(State()).sent
    {
      Emit(Reply("initialize", Capabilities(AdapterCapabilities)));
      Emit(Send(Initialized));
    }

    method ConfigurationDoneRequest()
      modifies this`sent
      ensures sent == old(sent) + [Ack("configurationDone")]
    {
      Emit(Ack("configurationDone"));
    }

    method LaunchRequest(path: string, file: FileRead, onEntry: bool)
      modifies this
      ensures var r := LaunchStep(old(State()), path, file, onEntry);
              State() == r.next && sent == old(sent) + r.sent
    {
      program := path;
      stopOnEntry := onEntry;
      match file
      case Unreadable(message) =>
        Emit(Response("launch", false, ErrorMessage(1, "Failed to launch: " + message)));
      case Read(text) =>
        lines := SplitLines(text);
        line := 1;
        Emit(Ack("launch"));
        if stopOnEntry {
          Emit(Send(Stopped("entry", ThreadId)));
        } else {
          ContinueRunning();
        }
    }

    method TerminateRequest()
      modifies this
      ensures var r := TerminateStep(old(State()));
              State() == r.next && sent == old(sent) + r.sent
    {
      running := false;
      Emit(Ack("terminate"));
      Emit(Send(Terminated));
    }

    method ThreadsRequest()
      modifies this`sent
      ensures sent == old(sent) + [Reply("threads", Threads([Thread(ThreadId, "main")]))]
    {
      Emit(Reply("threads", Threads([Thread(ThreadId, "main")])));
    }

    method StackTraceRequest()
      modifies this`sent
      ensures sent == old(sent) + [Reply("stackTrace", StackTrace([TopFrame(State())], 1))]
    {
      var frame := TopFrame(State());
      Emit(Reply("stackTrace", StackTrace([frame], 1)));
    }

    method ScopesRequest()
      modifies this`sent
      ensures sent == old(sent) + [Reply("scopes", Scopes([Scope("Locals", 1, false)]))]
    {
      Emit(Reply("scopes", Scopes([Scope("Locals", 1, false)])));
    }

    method VariablesRequest(reference: int, now: string)
      modifies this`sent
      ensures sent == old(sent) + [Reply("variables", Variables(VariablesOf(State(), reference, now)))]
    {
      if reference != 1 {
        Emit(Reply("variables", Variables([])));
        return;
      }
      var currentText := At(lines, Clamp(line, 1, |lines|) - 1);
      var vars := [Variable("file", program, 0), Variable("line", IntText(line), 0),
                   Variable("text", JsonQuote(currentText), 0), Variable("time", now, 0)];
      Emit(Reply("variables", Variables(vars)));
    }

    method SetBreakPointsRequest(path: string, requested: seq<int>)
      modifies this
      ensures var r := SetBreakpointsStep(old(State()), path, requested);
              State() == r.next && sent == old(sent) + r.sent
    {
      var clamped := ClampedLines(requested);
      breaks := breaks[path := set n | n in clamped];
      var limit := if path == program then |lines| else MaxSafeInteger;
      var bps := [];
      var i := 0;
      while i < |clamped|
        invariant 0 <= i <= |clamped|
        invariant bps == Verify(old(State()), path, clamped)[..i]
      {
        var n := clamped[i];
        bps := bps + [Breakpoint(n >= 1 && n <= limit, n)];
        i := i + 1;
      }
      assert bps == Verify(old(State()), path, clamped);
      Emit(Reply("setBreakpoints", Breakpoints(bps)));
    }

    method ContinueRequest()
      modifies this
      ensures var r := ContinueStep(old(State()));
              State() == r.next && sent == old(sent) + r.sent
    {
      Emit(Ack("continue"));
      ContinueRunning();
    }

    method NextRequest()
      modifies this
      ensures var r := NextStep(old(State()));
              State() == r.next && sent == old(sent) + r.sent
    {
      Emit(Ack("next"));
      StepOnce();
    }

    method PauseRequest()
      modifies this
      ensures var r := PauseStep(old(State()));
              State() == r.next && sent == old(sent) + r.sent
    {
      running := false;
      Emit(Ack("pause"));
      Emit(Send(Stopped("pause", ThreadId)));
    }

    method EvaluateRequest(expression: string, now: string)
      modifies this`sent
      ensures sent == old(sent) + [Reply("evaluate", EvaluateResult(Evaluate(State(), expression, now), 0))]
    {
      var value := Evaluate(State(), expression, now);
      Emit(Reply("evaluate", EvaluateResult(value, 0)));
    }

    /** `_continueRun`: schedules the first tick unless already running. */
    method ContinueRunning()
      modifies this`running, this`ticks
      ensures State() == ContinueRun(old(State()))
    {
      if running {
        return;
      }
      running := true;
      ticks := ticks + 1;
    }

    /** The timer runs one scheduled `tick`. */
    method Tick()
      requires ticks > 0
      modifies this
      ensures var r := TickStep(old(State()));
              State() == r.next && sent == old(sent) + r.sent
    {
      ticks := ticks - 1;
      if !running {
        return;
      }
      if line > |lines| {
        running := false;
        Emit(Send(Output("Program completed.\n", "console")));
        Emit(Send(Terminated));
        return;
      }
      if program in breaks && line in breaks[program] {
        running := false;
        Emit(Send(Stopped("breakpoint", ThreadId)));
        return;
      }
      var text := At(lines, line - 1);
      Emit(Send(Output(LineReport("line ", line, text), "console")));
      line := line + 1;
      ticks := ticks + 1;
    }

    method StepOnce()
      modifies this
      ensures var r := StepLine(old(State()));
              State() == r.next && sent == old(sent) + r.sent
    {
      if line > |lines| {
        Emit(Send(Terminated));
        return;
      }
      var text := At(lines, line - 1);
      Emit(Send(Output(LineReport("step ", line, text), "console")));
      line := line + 1;
      Emit(Send(Stopped("step", ThreadId)));
    }
  }
}
