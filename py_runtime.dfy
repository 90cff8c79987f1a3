/** The Python-side stop controller (class `PyRuntime` and the script's main
    block): a `bdb.Bdb` subclass that decides at each traced line whether to
    stop, announces a stop as one JSON line on stdout, and then serves
    commands read from stdin until one of them resumes execution.

    The bdb calls are recorded as opaque actions; which lines bdb reports,
    how the user program ends, `os.path.abspath` and `json.loads` are
    parameters. stdin is the sequence of its remaining lines, already
    decoded; end of input is the empty sequence. */
module PyRuntime {
  import opened Optional

  /** A line printed to stdout. */
  datatype RuntimeEvent =
    | StoppedEvent(reason: string, line: int)
    | ErrorEvent(message: string)
    | TerminatedEvent

  /** A call into the bdb machinery, recorded and not modelled. */
  datatype BdbAction =
    | SetQuit
    | SetContinue
    | SetNext
    | SetStep
    | SetReturn
    | ClearAllBreaks
    | SetBreak(file: string, line: int)

  /** A stdin line as `json.loads(line.strip())` and the command dispatch see
      it. `Malformed` is any line on which the `try` block raised (invalid
      JSON, not an object, a missing `file`, a line that is not an integer),
      with the text of the exception. */
  datatype InputCommand =
    | Continue
    | StepOver
    | StepIn
    | StepOut
    | SetBreakpoints(file: string, lines: seq<int>)
    | Other(command: string)
    | Malformed(message: string)

  /** How the user program's `exec` ends when bdb has not quit. */
  datatype ProgramEnd = Completes | Exits | Raises(message: string)

  /** The controller's state: the breakpoint lists by absolute path, the two
      stop flags, bdb's quitting flag, what has been printed and asked of
      bdb, and the stdin lines not yet read. */
  datatype Controller = Controller(
    breakpoints: map<string, seq<int>>,
    firstStop: bool,
    shouldStop: bool,
    quitting: bool,
    printed: seq<RuntimeEvent>,
    actions: seq<BdbAction>,
    input: seq<InputCommand>)

  function Initial(input: seq<InputCommand>): Controller {
    Controller(map[], true, false, false, [], [], input)
  }

  /** `self.breakpoints_loc.get(file, [])`. */
  function BreakpointsOf(breakpoints: map<string, seq<int>>, file: string): (r: seq<int>)
    ensures file in breakpoints ==> r == breakpoints[file]
    ensures file !in breakpoints ==> r == []
  {
    if file in breakpoints then breakpoints[file] else []
  }

  // ---- The stop decision of user_line ----

  /** Whether `user_line` stops, and with which reason: the first call always
      (entry), then a line in the target file's list (breakpoint), then a
      pending step (step). */
  function StopDecision(firstStop: bool, hit: bool, shouldStop: bool): (r: Option<string>)
    ensures firstStop ==> r == Some("entry")
    ensures !firstStop && hit ==> r == Some("breakpoint")
    ensures !firstStop && !hit && shouldStop ==> r == Some("step")
    ensures r == None <==> !firstStop && !hit && !shouldStop
  {
    if firstStop then Some("entry")
    else if hit then Some("breakpoint")
    else if shouldStop then Some("step")
    else None
  }

  /** The commands that end the command loop. */
  predicate Resumes(cmd: InputCommand) {
    cmd.Continue? || cmd.StepOver? || cmd.StepIn? || cmd.StepOut?
  }

  /** The bdb call a resuming command makes. */
  function ResumeAction(cmd: InputCommand): BdbAction
    requires Resumes(cmd)
  {
    match cmd
    case Continue => SetContinue
    case StepOver => SetNext
    case StepIn => SetStep
    case StepOut => SetReturn
  }

  /** `set_break` for each line of a list, in order. */
  function SetBreaks(file: string, lines: seq<int>): (r: seq<BdbAction>)
    ensures |r| == |lines|
    ensures forall k :: 0 <= k < |r| ==> r[k] == SetBreak(file, lines[k])
  {
    if lines == [] then [] else [SetBreak(file, lines[0])] + SetBreaks(file, lines[1..])
  }

  // ---- wait_for_command ----

  /** What a command that does not resume does: `setBreakpoints` replaces
      the list of the absolute path and re-arms bdb, a malformed line prints
      an error, anything else is ignored. */
  function Absorb(c: Controller, cmd: InputCommand, abspath: string -> string): Controller
    requires !Resumes(cmd)
  {
    match cmd
    case SetBreakpoints(file, lines) =>
      c.(breakpoints := c.breakpoints[abspath(file) := lines],
         actions := c.actions + [ClearAllBreaks] + SetBreaks(abspath(file), lines))
    case Other(_) => c
    case Malformed(message) => c.(printed := c.printed + [ErrorEvent(message)])
  }

  /** What a resuming command does: `continue` clears `should_stop`, the
      three steps set it. */
  function Resume(c: Controller, cmd: InputCommand): Controller
    requires Resumes(cmd)
  {
    c.(shouldStop := !cmd.Continue?, actions := c.actions + [ResumeAction(cmd)])
  }

  /** `wait_for_command`: read lines until one resumes execution or stdin
      ends. */
  function Serve(c: Controller, abspath: string -> string): Controller
    decreases |c.input|
  {
    if c.input == [] then c.(quitting := true, actions := c.actions + [SetQuit])
    else
      var cmd := c.input[0];
      var c1 := c.(input := c.input[1..]);
      if Resumes(cmd) then Resume(c1, cmd) else Serve(Absorb(c1, cmd, abspath), abspath)
  }

  /** The position of the first resuming command, if any. */
  function ResumeIndex(input: seq<InputCommand>): (r: Option<nat>)
    ensures r.Some? ==> r.value < |input| && Resumes(input[r.value])
                        && forall j :: 0 <= j < r.value ==> !Resumes(input[j])
    ensures r.None? ==> forall j :: 0 <= j < |input| ==> !Resumes(input[j])
  {
    if input == [] then None
    else if Resumes(input[0]) then Some(0)
    else match ResumeIndex(input[1..])
      case None => None
      case Some(k) => Some(k + 1)
  }

  /** The lines the command loop reads: up to and including the first
      resuming command, or all of them. */
  function Consumed(input: seq<InputCommand>): (r: seq<InputCommand>)
    ensures r <= input
  {
    match ResumeIndex(input)
    case None => input
    case Some(k) => input[..k + 1]
  }

  /** The error lines a sequence of commands prints: one per malformed line. */
  function ErrorsOf(cmds: seq<InputCommand>): (r: seq<RuntimeEvent>)
    ensures |r| <= |cmds|
    ensures forall e :: e in r ==> e.ErrorEvent?
  {
    if cmds == [] then []
    else (if cmds[0].Malformed? then [ErrorEvent(cmds[0].message)] else []) + ErrorsOf(cmds[1..])
  }

  /** The breakpoint store after a sequence of commands: each `setBreakpoints`
      replaces the list of its absolute path. */
  function StoreAll(breakpoints: map<string, seq<int>>, cmds: seq<InputCommand>, abspath: string -> string): map<string, seq<int>>
    decreases |cmds|
  {
    if cmds == [] then breakpoints
    else
      var next := if cmds[0].SetBreakpoints? then breakpoints[abspath(cmds[0].file) := cmds[0].lines] else breakpoints;
      StoreAll(next, cmds[1..], abspath)
  }

  /** The store after one command and then the rest. */
  lemma StoreAllCons(breakpoints: map<string, seq<int>>, cmd: InputCommand, rest: seq<InputCommand>, abspath: string -> string)
    ensures StoreAll(breakpoints, [cmd] + rest, abspath)
            == StoreAll(if cmd.SetBreakpoints? then breakpoints[abspath(cmd.file) := cmd.lines] else breakpoints, rest, abspath)
  {
    assert ([cmd] + rest)[0] == cmd && ([cmd] + rest)[1..] == rest;
  }

  lemma ErrorsOfCons(cmd: InputCommand, rest: seq<InputCommand>)
    ensures ErrorsOf([cmd] + rest) == ErrorsOf([cmd]) + ErrorsOf(rest)
  {
    assert ([cmd] + rest)[0] == cmd && ([cmd] + rest)[1..] == rest;
    assert ErrorsOf([cmd]) == (if cmd.Malformed? then [ErrorEvent(cmd.message)] else []) + ErrorsOf([]);
  }

  /** Reading past a command that does not resume: it is read, then the rest. */
  lemma ConsumedStep(input: seq<InputCommand>)
    requires input != [] && !Resumes(input[0])
    ensures Consumed(input) == [input[0]] + Consumed(input[1..])
  {
    ConsumedCons(input);
  }

  /** Reading past a command that does not resume. */
  lemma ConsumedCons(input: seq<InputCommand>)
    requires input != [] && !Resumes(input[0])
    ensures Consumed(input) == [input[0]] + Consumed(input[1..])
    ensures ResumeIndex(input).Some? <==> ResumeIndex(input[1..]).Some?
    ensures ResumeIndex(input).Some? ==>
              var k := ResumeIndex(input).value;
              k >= 1 && input[k] == input[1..][k - 1] && input[k + 1..] == input[1..][k..]
  {
    var tail := input[1..];
    var r := ResumeIndex(tail);
    assert ResumeIndex(input) == if r.None? then None else Some(r.value + 1);
    if r.None? {
      assert Consumed(input) == input;
      assert Consumed(tail) == tail;
      assert input == [input[0]] + tail;
    } else {
      ConsumedConsAt(input, r.value);
    }
  }

  lemma ConsumedConsAt(input: seq<InputCommand>, j: nat)
    requires j + 1 < |input|
    requires ResumeIndex(input) == Some(j + 1) && ResumeIndex(input[1..]) == Some(j)
    ensures Consumed(input) == [input[0]] + Consumed(input[1..])
    ensures input[j + 1] == input[1..][j] && input[j + 2..] == input[1..][j + 1..]
  {
    assert Consumed(input) == input[..j + 2];
    assert Consumed(input[1..]) == input[1..][..j + 1];
    SlicesOfTail(input, j);
  }

  lemma SlicesOfTail<T>(s: seq<T>, j: nat)
    requires j + 1 < |s|
    ensures s[..j + 2] == [s[0]] + s[1..][..j + 1]
    ensures s[j + 1] == s[1..][j] && s[j + 2..] == s[1..][j + 1..]
  {
  }

  /** A command that does not resume changes only the store, the bdb calls
      and, for a malformed line, what is printed. */
  lemma AbsorbKeeps(c: Controller, cmd: InputCommand, abspath: string -> string)
    requires !Resumes(cmd)
    ensures var r := Absorb(c, cmd, abspath);
            && r.firstStop == c.firstStop && r.shouldStop == c.shouldStop
            && r.quitting == c.quitting && r.input == c.input
            && r.printed == c.printed + ErrorsOf([cmd])
  {
    assert ErrorsOf([cmd]) == (if cmd.Malformed? then [ErrorEvent(cmd.message)] else []) + ErrorsOf([]);
  }

  /** The command loop prints one error line per malformed line it reads,
      and nothing else. */
  lemma {:induction false} ServePrints(c: Controller, abspath: string -> string)
    ensures Serve(c, abspath).printed == c.printed + ErrorsOf(Consumed(c.input))
    decreases |c.input|
  {
    if c.input == [] {
      assert Consumed(c.input) == [];
      assert c.printed + ErrorsOf([]) == c.printed;
    } else if Resumes(c.input[0]) {
      var cmd := c.input[0];
      assert Serve(c, abspath).printed == c.printed;
      assert Consumed(c.input) == [cmd];
      assert ErrorsOf([cmd]) == [];
      assert c.printed + ErrorsOf([cmd]) == c.printed;
    } else {
      ServePrints(Absorb(c.(input := c.input[1..]), c.input[0], abspath), abspath);
      ServePrintsStep(c, abspath);
    }
  }

  /** `ServePrints` past one command that does not resume. */
  lemma ServePrintsStep(c: Controller, abspath: string -> string)
    requires c.input != [] && !Resumes(c.input[0])
    requires var c2 := Absorb(c.(input := c.input[1..]), c.input[0], abspath);
             Serve(c2, abspath).printed == c2.printed + ErrorsOf(Consumed(c2.input))
    ensures Serve(c, abspath).printed == c.printed + ErrorsOf(Consumed(c.input))
  {
    var cmd := c.input[0];
    var rest := Consumed(c.input[1..]);
    var c2 := Absorb(c.(input := c.input[1..]), cmd, abspath);
    assert Serve(c, abspath) == Serve(c2, abspath);
    AbsorbKeeps(c.(input := c.input[1..]), cmd, abspath);
    ConsumedStep(c.input);
    ErrorsOfCons(cmd, rest);
    AppendAssoc(c.printed, ErrorsOf([cmd]), ErrorsOf(rest));
  }

  lemma AppendAssoc<T>(a: seq<T>, b: seq<T>, d: seq<T>)
    ensures (a + b) + d == a + (b + d)
  {
  }

  /** The command loop replays every `setBreakpoints` it reads onto the
      store, in order. */
  lemma {:induction false} ServeStores(c: Controller, abspath: string -> string)
    ensures Serve(c, abspath).breakpoints == StoreAll(c.breakpoints, Consumed(c.input), abspath)
    decreases |c.input|
  {
    if c.input != [] {
      var cmd := c.input[0];
      if Resumes(cmd) {
        assert Consumed(c.input) == [cmd];
        assert StoreAll(c.breakpoints, [cmd], abspath) == StoreAll(c.breakpoints, [], abspath);
      } else {
        var c2 := Absorb(c.(input := c.input[1..]), cmd, abspath);
        assert Serve(c, abspath) == Serve(c2, abspath);
        AbsorbKeeps(c.(input := c.input[1..]), cmd, abspath);
        ServeStores(c2, abspath);
        ConsumedStep(c.input);
        StoreAllCons(c.breakpoints, cmd, Consumed(c.input[1..]), abspath);
      }
    }
  }

  /** The command loop stops right after the first resuming command, leaving
      the rest unread, with `should_stop` false for `continue` and true for
      the three steps; with no such command it reads to the end of input and
      quits, leaving `should_stop` as it was. */
  lemma {:induction false} ServeStops(c: Controller, abspath: string -> string)
    ensures var r := Serve(c, abspath);
            && r.firstStop == c.firstStop
            && (ResumeIndex(c.input).None? ==> r.input == [] && r.quitting && r.shouldStop == c.shouldStop)
            && (ResumeIndex(c.input).Some? ==>
                  var k := ResumeIndex(c.input).value;
                  r.input == c.input[k + 1..] && r.quitting == c.quitting
                  && r.shouldStop == !c.input[k].Continue?)
    decreases |c.input|
  {
    if c.input == [] {
    } else if Resumes(c.input[0]) {
      assert ResumeIndex(c.input) == Some(0);
    } else {
      var tail := c.input[1..];
      var c2 := Absorb(c.(input := tail), c.input[0], abspath);
      assert Serve(c, abspath) == Serve(c2, abspath);
      AbsorbKeeps(c.(input := tail), c.input[0], abspath);
      ServeStops(c2, abspath);
      ConsumedCons(c.input);
      if ResumeIndex(tail).Some? {
        var j := ResumeIndex(tail).value;
        assert ResumeIndex(c.input) == Some(j + 1);
        assert c.input[j + 1] == tail[j] && c.input[j + 2..] == tail[j + 1..];
      }
    }
  }

  /** An unrecognised command, `variables` included, is skipped silently. */
  lemma OtherCommandsIgnored(c: Controller, name: string, abspath: string -> string)
    requires c.input != [] && c.input[0] == Other(name)
    ensures Serve(c, abspath) == Serve(c.(input := c.input[1..]), abspath)
  {
  }

  /** A malformed line prints exactly one error line and the loop goes on. */
  lemma MalformedPrintsOneError(c: Controller, message: string, abspath: string -> string)
    requires c.input != [] && c.input[0] == Malformed(message)
    ensures Serve(c, abspath) == Serve(c.(input := c.input[1..], printed := c.printed + [ErrorEvent(message)]), abspath)
  {
  }

  // ---- user_line ----

  /** `user_line` at line `line`: decide, announce, then serve commands. */
  function UserLineStep(c: Controller, targetFile: string, line: int, abspath: string -> string): Controller {
    match StopDecision(c.firstStop, line in BreakpointsOf(c.breakpoints, targetFile), c.shouldStop)
    case None => c
    case Some(reason) =>
      var c1 := c.(firstStop := false,
                   shouldStop := if reason == "step" then false else c.shouldStop,
                   printed := c.printed + [StoppedEvent(reason, line)]);
      Serve(c1, abspath)
  }

  /** One call of `user_line` prints at most one stopped event, and it is the
      first thing printed; everything after it comes from the command loop
      and is an error line. After a stop `first_stop` is false. A breakpoint
      stop leaves `should_stop` as it was and a step stop clears it, unless a
      command read afterwards sets it. */
  lemma UserLineAnnounces(c: Controller, targetFile: string, line: int, abspath: string -> string)
    ensures var r := UserLineStep(c, targetFile, line, abspath);
            var why := StopDecision(c.firstStop, line in BreakpointsOf(c.breakpoints, targetFile), c.shouldStop);
            && (why.None? ==> r == c)
            && (why.Some? ==>
                  && r.printed == c.printed + [StoppedEvent(why.value, line)] + ErrorsOf(Consumed(c.input))
                  && !r.firstStop
                  && (ResumeIndex(c.input).None? && why == Some("breakpoint") ==> r.shouldStop == c.shouldStop)
                  && (ResumeIndex(c.input).None? && why == Some("step") ==> !r.shouldStop))
  {
    var why := StopDecision(c.firstStop, line in BreakpointsOf(c.breakpoints, targetFile), c.shouldStop);
    if why.Some? {
      var c1 := c.(firstStop := false,
                   shouldStop := if why.value == "step" then false else c.shouldStop,
                   printed := c.printed + [StoppedEvent(why.value, line)]);
      ServePrints(c1, abspath);
      ServeStops(c1, abspath);
    }
  }

  /** Only the first call announces `entry`: once `first_stop` is false no
      call prints an entry stop. */
  lemma EntryOnlyOnce(c: Controller, targetFile: string, line: int, abspath: string -> string)
    requires !c.firstStop
    ensures var r := UserLineStep(c, targetFile, line, abspath);
            |r.printed| >= |c.printed| && r.printed[..|c.printed|] == c.printed
            && forall e :: e in r.printed[|c.printed|..] ==> e != StoppedEvent("entry", line)
  {
    UserLineAnnounces(c, targetFile, line, abspath);
    var r := UserLineStep(c, targetFile, line, abspath);
    var why := StopDecision(c.firstStop, line in BreakpointsOf(c.breakpoints, targetFile), c.shouldStop);
    if why.Some? {
      assert r.printed[|c.printed|..] == [StoppedEvent(why.value, line)] + ErrorsOf(Consumed(c.input));
    }
  }

  // ---- The script's main block ----

  /** The `user_line` calls bdb makes while the program runs, in order; once
      bdb is quitting the next trace event raises `BdbQuit` and no further
      call happens. */
  function Trace(c: Controller, targetFile: string, visits: seq<int>, abspath: string -> string): Controller
    decreases |visits|
  {
    if visits == [] || c.quitting then c
    else Trace(UserLineStep(c, targetFile, visits[0], abspath), targetFile, visits[1..], abspath)
  }

  predicate NoTerminated(printed: seq<RuntimeEvent>) {
    forall k :: 0 <= k < |printed| ==> !printed[k].TerminatedEvent?
  }

  lemma {:induction false} TraceNeverTerminates(c: Controller, targetFile: string, visits: seq<int>, abspath: string -> string)
    requires NoTerminated(c.printed)
    ensures NoTerminated(Trace(c, targetFile, visits, abspath).printed)
    decreases |visits|
  {
    if visits != [] && !c.quitting {
      var c1 := UserLineStep(c, targetFile, visits[0], abspath);
      UserLineNeverTerminates(c, targetFile, visits[0], abspath);
      TraceNeverTerminates(c1, targetFile, visits[1..], abspath);
    }
  }

  /** `user_line` never prints `terminated`. */
  lemma UserLineNeverTerminates(c: Controller, targetFile: string, line: int, abspath: string -> string)
    requires NoTerminated(c.printed)
    ensures NoTerminated(UserLineStep(c, targetFile, line, abspath).printed)
  {
    UserLineAnnounces(c, targetFile, line, abspath);
    var why := StopDecision(c.firstStop, line in BreakpointsOf(c.breakpoints, targetFile), c.shouldStop);
    if why.Some? {
      var errors := ErrorsOf(Consumed(c.input));
      var p := c.printed + [StoppedEvent(why.value, line)] + errors;
      forall k | 0 <= k < |p| ensures !p[k].TerminatedEvent? {
        if k > |c.printed| {
          assert p[k] == errors[k - |c.printed| - 1];
          assert p[k] in errors;
        }
      }
    }
  }

  /** The lines printed after `exec` returns or raises when bdb reports no
      line of the script's own module after it: a runtime error for an
      exception other than `BdbQuit` and `SystemExit`, then `terminated`. */
  function Epilogue(quit: bool, end: ProgramEnd): (r: seq<RuntimeEvent>)
    ensures |r| >= 1 && r[|r| - 1] == TerminatedEvent && NoTerminated(r[..|r| - 1])
    ensures !quit && end.Raises? ==> r == [ErrorEvent("Runtime error: " + end.message), TerminatedEvent]
    ensures quit || !end.Raises? ==> r == [TerminatedEvent]
  {
    if !quit && end.Raises? then [ErrorEvent("Runtime error: " + end.message), TerminatedEvent]
    else [TerminatedEvent]
  }

  /** What the script printed to stdout, and its exit status. */
  datatype ScriptResult = ScriptResult(printed: seq<RuntimeEvent>, status: int)

  /** The main block from `dbg.set_trace()` on. `set_trace` traces the
      script's own module frame too, so bdb may call `user_line` on the
      module's lines as well as on the user program's: `visits` are the calls
      made inside the `try` (the `with` block and `exec`), `handler` those on
      the lines of the `except` clause that handles how `exec` ended, up to
      its `print`, and `final` those on the closing `print`. Once a command
      loop sets bdb quitting, tracing stops and `BdbQuit` is raised: inside
      the `try` it is caught and `terminated` is printed; after the `try` it
      escapes, nothing more is printed and the exit status is 1. */
  function MainBlock(c: Controller, targetFile: string, visits: seq<int>, handler: seq<int>, final: seq<int>,
                     end: ProgramEnd, abspath: string -> string): ScriptResult
  {
    var run := Trace(c, targetFile, visits, abspath);
    if run.quitting then ScriptResult(run.printed + [TerminatedEvent], 0)
    else AfterTry(run, targetFile, handler, final, end, abspath)
  }

  /** The `except` clause that handles how `exec` ended, then the closing
      `print`, when bdb was not quitting at the end of the `try`. */
  function AfterTry(run: Controller, targetFile: string, handler: seq<int>, final: seq<int>,
                    end: ProgramEnd, abspath: string -> string): ScriptResult
  {
    var h := Trace(run, targetFile, handler, abspath);
    if h.quitting then ScriptResult(h.printed, 1)
    else Closing(h.(printed := h.printed + RuntimeErrorOf(end)), targetFile, final, abspath)
  }

  /** The closing `print` of `terminated`, reached when bdb is not quitting. */
  function Closing(c: Controller, targetFile: string, final: seq<int>, abspath: string -> string): ScriptResult {
    var f := Trace(c, targetFile, final, abspath);
    if f.quitting then ScriptResult(f.printed, 1) else ScriptResult(f.printed + [TerminatedEvent], 0)
  }

  /** The line the `except Exception` clause prints, if `exec` raised one. */
  function RuntimeErrorOf(end: ProgramEnd): (r: seq<RuntimeEvent>)
    ensures NoTerminated(r)
  {
    if end.Raises? then [ErrorEvent("Runtime error: " + end.message)] else []
  }

  /** Without a stop on the module's own lines after `exec`, the script
      prints the traced run and then `Epilogue`, and exits with status 0. */
  lemma NoLateStopsGiveEpilogue(c: Controller, targetFile: string, visits: seq<int>, end: ProgramEnd,
                                abspath: string -> string)
    ensures var run := Trace(c, targetFile, visits, abspath);
            MainBlock(c, targetFile, visits, [], [], end, abspath) == ScriptResult(run.printed + Epilogue(run.quitting, end), 0)
  {
  }

  /** The script exits with status 0 exactly when no quit happens after the
      `try`; then `terminated` is printed once and last. Otherwise the exit
      status is 1 and `terminated` is never printed. */
  lemma {:induction false} MainBlockEnds(c: Controller, targetFile: string, visits: seq<int>, handler: seq<int>,
                                         final: seq<int>, end: ProgramEnd, abspath: string -> string)
    requires NoTerminated(c.printed)
    ensures var r := MainBlock(c, targetFile, visits, handler, final, end, abspath);
            var run := Trace(c, targetFile, visits, abspath);
            var h := Trace(run, targetFile, handler, abspath);
            && (r.status == 0 || r.status == 1)
            && (r.status == 1 <==> !run.quitting && (h.quitting || Trace(h.(printed := h.printed + RuntimeErrorOf(end)), targetFile, final, abspath).quitting))
            && (r.status == 0 ==> |r.printed| >= 1 && r.printed[|r.printed| - 1] == TerminatedEvent && NoTerminated(r.printed[..|r.printed| - 1]))
            && (r.status == 1 ==> NoTerminated(r.printed))
  {
    var run := Trace(c, targetFile, visits, abspath);
    TraceNeverTerminates(c, targetFile, visits, abspath);
    if run.quitting {
      EndsWithTerminated(run.printed);
    } else {
      var h := Trace(run, targetFile, handler, abspath);
      TraceNeverTerminates(run, targetFile, handler, abspath);
      if !h.quitting {
        var e := h.(printed := h.printed + RuntimeErrorOf(end));
        NoTerminatedAppend(h.printed, RuntimeErrorOf(end));
        var f := Trace(e, targetFile, final, abspath);
        TraceNeverTerminates(e, targetFile, final, abspath);
        if !f.quitting {
          EndsWithTerminated(f.printed);
        }
      }
    }
  }

  lemma EndsWithTerminated(p: seq<RuntimeEvent>)
    requires NoTerminated(p)
    ensures var q := p + [TerminatedEvent]; q[|q| - 1] == TerminatedEvent && NoTerminated(q[..|q| - 1])
  {
    assert (p + [TerminatedEvent])[..|p|] == p;
  }

  lemma NoTerminatedAppend(p: seq<RuntimeEvent>, q: seq<RuntimeEvent>)
    requires NoTerminated(p) && NoTerminated(q)
    ensures NoTerminated(p + q)
  {
    forall k | 0 <= k < |p + q| ensures !(p + q)[k].TerminatedEvent? {
      if k >= |p| { assert (p + q)[k] == q[k - |p|]; }
    }
  }

  /** A step stop can follow the runtime-error line: stepping over from the
      entry stop, a program that raises stops on the handler's line, prints
      the error, stops again on the closing `print`, then terminates. */
  lemma StopAfterRuntimeError(targetFile: string, message: string, abspath: string -> string)
    ensures MainBlock(Initial([StepOver, StepOver, StepOver]), targetFile, [94], [101], [104], Raises(message), abspath)
            == ScriptResult([StoppedEvent("entry", 94), StoppedEvent("step", 101), ErrorEvent("Runtime error: " + message),
                             StoppedEvent("step", 104), TerminatedEvent], 0)
  {
    var c0 := Initial([StepOver, StepOver, StepOver]);
    StopThenStepOver(c0, targetFile, 94, abspath);
    TraceOne(c0, targetFile, 94, abspath);
    var c1 := UserLineStep(c0, targetFile, 94, abspath);
    assert !c1.quitting && c1.shouldStop && c1.input == [StepOver, StepOver] && c1.breakpoints == map[];
    assert c1.printed == [StoppedEvent("entry", 94)];
    StopThenStepOver(c1, targetFile, 101, abspath);
    TraceOne(c1, targetFile, 101, abspath);
    var c2 := UserLineStep(c1, targetFile, 101, abspath);
    assert !c2.quitting && c2.shouldStop && c2.input == [StepOver] && c2.breakpoints == map[];
    assert c2.printed == [StoppedEvent("entry", 94), StoppedEvent("step", 101)];
    var e := c2.(printed := c2.printed + RuntimeErrorOf(Raises(message)));
    StopThenStepOver(e, targetFile, 104, abspath);
    TraceOne(e, targetFile, 104, abspath);
    var f := UserLineStep(e, targetFile, 104, abspath);
    assert !f.quitting;
    assert f.printed == e.printed + [StoppedEvent("step", 104)];
    assert MainBlock(c0, targetFile, [94], [101], [104], Raises(message), abspath)
           == AfterTry(c1, targetFile, [101], [104], Raises(message), abspath);
    assert Closing(e, targetFile, [104], abspath) == ScriptResult(f.printed + [TerminatedEvent], 0);
    assert AfterTry(c1, targetFile, [101], [104], Raises(message), abspath) == Closing(e, targetFile, [104], abspath);
  }

  /** A stop whose command loop reads `step_over` first. */
  lemma StopThenStepOver(c: Controller, targetFile: string, line: int, abspath: string -> string)
    requires c.input != [] && c.input[0] == StepOver
    requires c.firstStop || (c.shouldStop && line !in BreakpointsOf(c.breakpoints, targetFile))
    ensures UserLineStep(c, targetFile, line, abspath)
            == c.(firstStop := false, shouldStop := true, input := c.input[1..], actions := c.actions + [SetNext],
                  printed := c.printed + [StoppedEvent(if c.firstStop then "entry" else "step", line)])
  {
  }

  /** Tracing a single line is one `user_line` call. */
  lemma TraceOne(c: Controller, targetFile: string, line: int, abspath: string -> string)
    requires !c.quitting
    ensures Trace(c, targetFile, [line], abspath) == UserLineStep(c, targetFile, line, abspath)
  {
    assert [line][1..] == [];
  }

  /** End of input at a stop on the handler's line quits bdb outside the
      `try`: `terminated` is never printed and the exit status is 1. */
  lemma QuitAfterTryLosesTerminated(targetFile: string, message: string, abspath: string -> string)
    ensures MainBlock(Initial([StepOver]), targetFile, [94], [101], [104], Raises(message), abspath)
            == ScriptResult([StoppedEvent("entry", 94), StoppedEvent("step", 101)], 1)
  {
  }

  // ---- The controller object ----

  class RuntimeController {
    const targetFile: string
    const abspath: string -> string
    var breakpointsLoc: map<string, seq<int>>
    var firstStop: bool
    var shouldStop: bool
    /** bdb's quitting flag, set by `set_quit`. */
    var quitting: bool
    /** Every line printed to stdout so far. */
    var printed: seq<RuntimeEvent>
    /** Every bdb call made so far. */
    var actions: seq<BdbAction>
    /** The stdin lines not yet read. */
    var stdin: seq<InputCommand>

    function State(): Controller
      reads this
    {
      Controller(breakpointsLoc, firstStop, shouldStop, quitting, printed, actions, stdin)
    }

    constructor (target: string, abspath: string -> string, input: seq<InputCommand>)
      ensures targetFile == abspath(target) && this.abspath == abspath
      ensures State() == Initial(input)
    {
      this.targetFile := abspath(target);
      this.abspath := abspath;
      breakpointsLoc := map[];
      firstStop, shouldStop, quitting := true, false, false;
      printed, actions := [], [];
      stdin := input;
    }

    method UserLine(line: int)
      modifies this
      ensures State() == UserLineStep(old(State()), targetFile, line, abspath)
    {
      if firstStop {
        firstStop := false;
        printed := printed + [StoppedEvent("entry", line)];
        WaitForCommand();
        return;
      }
      if line in BreakpointsOf(breakpointsLoc, targetFile) {
        printed := printed + [StoppedEvent("breakpoint", line)];
        WaitForCommand();
        return;
      }
      if shouldStop {
        shouldStop := false;
        printed := printed + [StoppedEvent("step", line)];
        WaitForCommand();
      }
    }

    /** The `user_line` calls bdb makes for `lines`, until bdb is quitting. */
    method TraceLines(lines: seq<int>)
      modifies this
      ensures State() == Trace(old(State()), targetFile, lines, abspath)
    {
      var i := 0;
      while i < |lines| && !quitting
        invariant 0 <= i <= |lines|
        invariant Trace(State(), targetFile, lines[i..], abspath) == Trace(old(State()), targetFile, lines, abspath)
      {
        UserLine(lines[i]);
        assert lines[i..][1..] == lines[i + 1..];
        i := i + 1;
      }
    }

    method WaitForCommand()
      modifies this
      ensures State() == Serve(old(State()), abspath)
    {
      while true
        invariant Serve(State(), abspath) == Serve(old(State()), abspath)
        decreases |stdin|
      {
        if stdin == [] {
          actions := actions + [SetQuit];
          quitting := true;
          return;
        }
        var cmd := stdin[0];
        stdin := stdin[1..];
        if Resumes(cmd) {
          ResumeOn(cmd);
          return;
        }
        Apply(cmd);
      }
    }

    /** A command that ends the loop. */
    method ResumeOn(cmd: InputCommand)
      requires Resumes(cmd)
      modifies this`shouldStop, this`actions
      ensures State() == Resume(old(State()), cmd)
    {
      match cmd
      case Continue =>
        shouldStop := false;
        actions := actions + [SetContinue];
      case StepOver =>
        shouldStop := true;
        actions := actions + [SetNext];
      case StepIn =>
        shouldStop := true;
        actions := actions + [SetStep];
      case StepOut =>
        shouldStop := true;
        actions := actions + [SetReturn];
    }

    /** A command after which the loop reads on. */
    method Apply(cmd: InputCommand)
      requires !Resumes(cmd)
      modifies this`breakpointsLoc, this`actions, this`printed
      ensures State() == Absorb(old(State()), cmd, abspath)
    {
      match cmd
      case SetBreakpoints(file, lines) =>
        var path := abspath(file);
        breakpointsLoc := breakpointsLoc[path := lines];
        var armed := [];
        var i := 0;
        while i < |lines|
          invariant 0 <= i <= |lines|
          invariant armed == SetBreaks(path, lines[..i])
          modifies {}
        {
          assert lines[..i + 1] == lines[..i] + [lines[i]];
          SetBreaksAppend(path, lines[..i], lines[i]);
          armed := armed + [SetBreak(path, lines[i])];
          i := i + 1;
        }
        assert lines[..i] == lines;
        actions := actions + [ClearAllBreaks] + armed;
      case Other(_) =>
      case Malformed(message) =>
        printed := printed + [ErrorEvent(message)];
    }
  }

  lemma {:induction false} SetBreaksAppend(file: string, lines: seq<int>, line: int)
    ensures SetBreaks(file, lines + [line]) == SetBreaks(file, lines) + [SetBreak(file, line)]
    decreases |lines|
  {
    if lines == [] {
      assert lines + [line] == [line];
    } else {
      assert (lines + [line])[1..] == lines[1..] + [line];
      SetBreaksAppend(file, lines[1..], line);
    }
  }

  /** The whole script for arguments `args` (`sys.argv`, the script name
      first): the argument checks, then the traced run, the `except` clauses
      and the closing `print`. Returns what was printed and the exit status. */
  method RunScript(args: seq<string>, targetExists: bool, abspath: string -> string, input: seq<InputCommand>,
                   visits: seq<int>, handler: seq<int>, final: seq<int>, end: ProgramEnd)
    returns (printed: seq<RuntimeEvent>, status: int)
    ensures |args| < 2 ==> printed == [ErrorEvent("No target file entered")] && status == 1
    ensures |args| >= 2 && !targetExists ==> printed == [ErrorEvent("File not found: " + args[1])] && status == 1
    ensures |args| >= 2 && targetExists ==>
              ScriptResult(printed, status) == MainBlock(Initial(input), abspath(args[1]), visits, handler, final, end, abspath)
  {
    if |args| < 2 {
      return [ErrorEvent("No target file entered")], 1;
    }
    var target := args[1];
    if !targetExists {
      return [ErrorEvent("File not found: " + target)], 1;
    }
    var dbg := new RuntimeController(target, abspath, input);
    ghost var c := Initial(input);
    dbg.TraceLines(visits);
    if dbg.quitting {
      return dbg.printed + [TerminatedEvent], 0;
    }
    ghost var run := dbg.State();
    assert MainBlock(c, abspath(target), visits, handler, final, end, abspath)
           == AfterTry(run, abspath(target), handler, final, end, abspath);
    dbg.TraceLines(handler);
    if dbg.quitting {
      return dbg.printed, 1;
    }
    ghost var h := dbg.State();
    assert AfterTry(run, abspath(target), handler, final, end, abspath)
           == Closing(h.(printed := h.printed + RuntimeErrorOf(end)), abspath(target), final, abspath);
    if end.Raises? {
      dbg.printed := dbg.printed + [ErrorEvent("Runtime error: " + end.message)];
    }
    assert dbg.State() == h.(printed := h.printed + RuntimeErrorOf(end));
    dbg.TraceLines(final);
    if dbg.quitting {
      return dbg.printed, 1;
    }
    printed := dbg.printed + [TerminatedEvent];
    status := 0;
  }
}
