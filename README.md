# ASEJE debugger relays, in Dafny

ASEJE is a VS Code extension for learning to program. Its debugging support
has three debug adapters that speak the Debug Adapter Protocol (DAP) to the
editor:

- **The line interpreter session** (`debugger/jsDebuggerStart.js`). It reads
  the program's lines itself and "runs" them one per timer tick. It prints
  each line, halts on breakpoints and steps on request.
- **The Python relay** (`debugger/pyDebuggerStart.js`). It spawns a Python
  stop controller and writes JSON commands to its stdin. It frames the
  newline-delimited JSON on the controller's stdout and dispatches each line.
  It correlates variables queries with their replies through increasing
  request ids.
- **The Python stop controller** (`python_runtime/pyRuntime.py`). It is a
  `bdb` subclass that decides at each traced line whether to stop, and prints
  the stop as JSON. It then serves stdin commands until one of them resumes.
- **The inspector relay** (`jsDebuggerStart.js`). It spawns the program
  under `node --inspect-brk` and, after a delay, opens an `inspector.Session`.
  `Session#connect()` takes no port, so that session attaches to the
  adapter's own Node process, and the spawned child is never attached. The
  relay maps the call frames of the pauses it receives to DAP stack frames
  and counts breakpoint callbacks down to one response.

Beside the adapters the model covers four editor helpers:

- the breakpoint notes, hit counter and heat map (`source/DebugSuite.js`);
- the Python hover help with its Markdown escaping
  (`source/pythonHoverProvider.js`);
- the font-size settings page (`source/TextSetting.js`);
- the lesson page's first `NNpx` substitution (`source/steps.js`).

## How the model is built

Each core file is one module:

| module | file | models |
|---|---|---|
| `LineSession` | `line_session.dfy` | `debugger/jsDebuggerStart.js` |
| `PyRelay` | `py_relay.dfy` | `debugger/pyDebuggerStart.js` |
| `PyRuntime` | `py_runtime.dfy` | `python_runtime/pyRuntime.py` |
| `InspectorRelay` | `inspector_relay.dfy` | `jsDebuggerStart.js` |
| `DebugSuite` | `debug_suite.dfy` | `source/DebugSuite.js` |
| `Hover` | `hover.dfy` | `source/pythonHoverProvider.js` |
| `TextSetting` | `text_setting.dfy` | `source/TextSetting.js` |
| `Steps` | `steps.dfy` | `source/steps.js` |

Three shared modules support them:

- `Text` holds the string functions JavaScript and Python provide:
  `String(n)`, `trim`, `split`/`join`, `path.basename`, `JSON.stringify` of a
  string, and reading an integer back.
- `Dap` holds the DAP messages.
- `Optional` holds `Option`.

### Stateful classes and step functions

A source class whose handlers update fields becomes a Dafny `class` with the
same fields. Everything sent to the editor (or printed, posted or written) is
appended to a `seq` field. Each handler is a `method` whose `ensures` gives
its whole new state.

Where the handlers form a state machine, the class also has a `State()`
view. In that case each method is proved equal to a pure step function on
that view (`TickStep`, `Handle`/`DispatchAll`, `UserLineStep`/`Serve`,
`OnMessage`), and the lemmas about the step functions state what the source
promises.

### Outside effects become parameters

- **Timers.** A `setTimeout` tick is one explicit `Tick` call. The ticks still
  scheduled are counted in a field.
- **JSON parsing.** `JSON.parse` is a function parameter `parse`.
- **Process and file system.** Process spawning, `fs.existsSync`, stdin
  writes and `config.update` are boolean or outcome parameters.
- **Clocks.** Clock readings are string parameters.
- **bdb.** The bdb calls are recorded as opaque actions. The lines bdb
  reports are parameters: `visits` inside the `try`, `handler` in the
  `except` clause and `final` on the closing `print`.
- **Editor state.** The active editor (file, cursor line and line count) and the input box are `Option`
  parameters.

### Behaviour worth knowing

- **Continuing from a breakpoint.** The tick tests the breakpoint before it
  prints the line. So `continue` on a breakpoint line halts again at the
  same line, with no output (`ContinueOnBreakpointHaltsAgain`).
- **Two terminated events.** The Python relay sends one terminated event
  for the controller's `terminated` line and another for the process exit
  (`TerminatedLineThenExit`).
- **Failed variables query.** A rejected query leaves the `variables`
  request with no response at all.
- **Variables query with no process.** The write throws inside the promise
  executor, so the pending entry stays (`GetVariablesFromPython`).
- **Stops on the controller's own lines.** `set_trace` also traces the
  controller script's module frame. A step can stop on the `except` clause
  or the closing `print` after the user program ends, so a stop can follow
  the runtime-error line (`StopAfterRuntimeError`). End of input at such a
  stop quits bdb outside the `try`: `terminated` is never printed and the
  exit status is 1 (`QuitAfterTryLosesTerminated`).

## Model

| member | source | states |
|---|---|---|
| Text.NatText | debugger/jsDebuggerStart.js:115 | `String(n)` of a natural number is non-empty decimal digits |
| Text.NatTextRoundTrip | debugger/jsDebuggerStart.js:115 | reading the decimal text of `n` back gives `n` |
| Text.NatTextInjective | debugger/jsDebuggerStart.js:115 | distinct numbers have distinct decimal texts |
| Text.IntText | debugger/jsDebuggerStart.js:115 | `String(i)` of an integer: the digits of `|i|`, with a leading `-` exactly when `i < 0` |
| Text.IntTextRoundTrip | source/TextSetting.js:53 | the text of any integer is readable as an integer and reads back as that integer |
| Text.UpTo | source/TextSetting.js:53 | the longest prefix without a given character, which is followed by that character unless it is the whole text |
| Text.TrimStart | debugger/jsDebuggerStart.js:154 | the result is a suffix of the input and starts with a non-space character unless empty |
| Text.TrimEnd | debugger/jsDebuggerStart.js:154 | the result is a prefix of the input and ends with a non-space character unless empty |
| Text.TrimEmptyIffBlank | debugger/pyDebuggerStart.js:172 | `trim()` gives the empty text exactly when the line is all white space |
| Text.TrimIgnoresPadding | debugger/jsDebuggerStart.js:154 | white space added around a text does not change its trimmed form |
| Text.Split | debugger/pyDebuggerStart.js:168 | `split` yields at least one piece |
| Text.JoinSplit | debugger/pyDebuggerStart.js:168 | joining the pieces of a split with the separator gives back the text |
| Text.SplitPiecesFree | debugger/pyDebuggerStart.js:168 | no piece of a split contains the separator |
| Text.SplitAppend | debugger/pyDebuggerStart.js:165-169 | splitting `a + b` equals splitting `a`, with its last piece continued by the split of that piece plus `b` |
| Text.BasenameIsLastSegment | debugger/jsDebuggerStart.js:91 | the basename is the suffix of the path after its last `/` (the whole path when it has none) |
| Text.JsonQuote | debugger/jsDebuggerStart.js:116 | `JSON.stringify` of a string starts and ends with a double quote |
| Text.JsonQuoteRoundTrip | debugger/jsDebuggerStart.js:116 | between the quotes every `"`, backslash and control character is escaped, and reading the literal back gives the string |
| Text.JsonEscapeRoundTrip | debugger/jsDebuggerStart.js:116 | the escaped text of any string is well escaped and reads back as the string |
| LineSession.Clamp | debugger/jsDebuggerStart.js:210 | `_clamp` lies in `[lo, hi]` when `lo <= hi`, is `n` inside the range and the nearer bound outside it, and is `lo` when the range is empty |
| LineSession.SplitLines | debugger/jsDebuggerStart.js:58-60 | one program line per newline-separated piece, none containing a newline |
| LineSession.SplitLinesRoundTrip | debugger/jsDebuggerStart.js:58-60 | for text without carriage returns, the lines joined with newlines give back the file |
| LineSession.ContinueRun | debugger/jsDebuggerStart.js:170-173 | `_continueRun` changes nothing when already running; otherwise it sets running and schedules exactly one tick, leaving line and breakpoints alone |
| LineSession.StepLine | debugger/jsDebuggerStart.js:199-208 | `_stepOnce` leaves breakpoints, the running flag and scheduled ticks alone |
| LineSession.StepIgnoresBreakpoints | debugger/jsDebuggerStart.js:199-208 | `_stepOnce` does not depend on breakpoints or the running flag; in range it prints `step N: text`, advances by one and reports a step stop; past the end it only terminates and keeps the line |
| LineSession.ClampedLines | debugger/jsDebuggerStart.js:125 | every requested breakpoint line is clamped into `[1, MAX_SAFE_INTEGER]`, one per request |
| LineSession.Verify | debugger/jsDebuggerStart.js:129-132 | one response entry per requested line |
| LineSession.SetBreakpointsReplaces | debugger/jsDebuggerStart.js:123-127 | the file's set becomes exactly the clamped requested lines (duplicates collapse, earlier lines vanish); other files keep theirs |
| LineSession.SetBreakpointsResponse | debugger/jsDebuggerStart.js:129-134 | one entry per requested line, in order, duplicates kept; verified iff the clamped line is within the program for the program file, always for another file |
| LineSession.TopFrame | debugger/jsDebuggerStart.js:86-97 | the single frame has id 1 and column 1, at the current line clamped into the program, in the program file |
| LineSession.VariablesOf | debugger/jsDebuggerStart.js:105-121 | an unknown reference gets no variables; reference 1 gets file, unclamped line, quoted text of the clamped line, and time |
| LineSession.Evaluate | debugger/jsDebuggerStart.js:153-168 | the trimmed expression `line`, `text`, `time` or `len(text)` gets its value; anything else gets `Unsupported expression: ` and the expression |
| LineSession.EvaluateIgnoresPadding | debugger/jsDebuggerStart.js:154 | white space around an expression does not change its answer |
| LineSession.StepsKeepValid | debugger/jsDebuggerStart.js:21-211 | every handler keeps the line at 1 or more and every stored breakpoint line at 1 or more (a standalone invariant of the step functions) |
| LineSession.TickHaltsOnBreakpoint | debugger/jsDebuggerStart.js:182-187 | a tick on a breakpoint line clears running, reports a breakpoint stop, prints nothing and keeps the line |
| LineSession.ContinueOnBreakpointHaltsAgain | debugger/jsDebuggerStart.js:182-187 | continuing from a breakpoint halt halts again at the same line with no output |
| LineSession.TickAdvances | debugger/jsDebuggerStart.js:189-193 | a tick on a non-breakpoint program line prints `line N: text`, advances by exactly one and reschedules one tick |
| LineSession.TickCompletes | debugger/jsDebuggerStart.js:176-180 | past the last line a tick clears running, prints the completion then one termination, and schedules nothing |
| LineSession.RunOutputs | debugger/jsDebuggerStart.js:189-193 | an uninterrupted run from line `k` prints one line per remaining program line |
| LineSession.RunToCompletion | debugger/jsDebuggerStart.js:170-197 | with no breakpoints, running from line `k` prints every remaining line once in order, then the completion and exactly one termination, and stops |
| LineSession.ChainsNeverGrowWhileRunning | debugger/jsDebuggerStart.js:171-172 | a tick never adds ticks, and `continue` on a running session schedules none |
| LineSession.OneChainKept | debugger/jsDebuggerStart.js:170-208 | every handler keeps at most one tick chain, except `continue` while a tick left by pause or terminate is still scheduled |
| LineSession.PauseThenContinueStartsSecondChain | debugger/jsDebuggerStart.js:147-151 | pause does not cancel the scheduled tick, so pause then continue leaves two ticks scheduled |
| LineSession.LineDebugSession.constructor | debugger/jsDebuggerStart.js:22-35 | the session starts at line 1, not running, stopping on entry, with no breakpoints and nothing sent |
| LineSession.LineDebugSession.InitializeRequest | debugger/jsDebuggerStart.js:37-47 | sends the capabilities response, then the initialized event |
| LineSession.LineDebugSession.ConfigurationDoneRequest | debugger/jsDebuggerStart.js:49-51 | acknowledges |
| LineSession.LineDebugSession.LaunchRequest | debugger/jsDebuggerStart.js:53-73 | stores path and stop-on-entry first; an unreadable file gets an error response; otherwise loads the lines at line 1 and stops on entry or starts running |
| LineSession.LineDebugSession.TerminateRequest | debugger/jsDebuggerStart.js:75-79 | clears running, acknowledges, sends termination |
| LineSession.LineDebugSession.ThreadsRequest | debugger/jsDebuggerStart.js:81-84 | answers the single main thread |
| LineSession.LineDebugSession.StackTraceRequest | debugger/jsDebuggerStart.js:86-97 | answers `TopFrame` with a total of 1 |
| LineSession.LineDebugSession.ScopesRequest | debugger/jsDebuggerStart.js:99-103 | answers the single Locals scope, reference 1 |
| LineSession.LineDebugSession.VariablesRequest | debugger/jsDebuggerStart.js:105-121 | answers `VariablesOf` the current state |
| LineSession.LineDebugSession.SetBreakPointsRequest | debugger/jsDebuggerStart.js:123-135 | the loop over the requested lines builds exactly the `Verify` entries, and the new state is `SetBreakpointsStep`'s |
| LineSession.LineDebugSession.ContinueRequest | debugger/jsDebuggerStart.js:137-140 | acknowledges, then `_continueRun` |
| LineSession.LineDebugSession.NextRequest | debugger/jsDebuggerStart.js:142-145 | acknowledges, then `_stepOnce` |
| LineSession.LineDebugSession.PauseRequest | debugger/jsDebuggerStart.js:147-151 | clears running, acknowledges, reports a pause stop |
| LineSession.LineDebugSession.EvaluateRequest | debugger/jsDebuggerStart.js:153-168 | answers `Evaluate` of the current state |
| LineSession.LineDebugSession.ContinueRunning | debugger/jsDebuggerStart.js:170-173 | performs `ContinueRun` on the fields |
| LineSession.LineDebugSession.Tick | debugger/jsDebuggerStart.js:174-194 | one timer callback performs `TickStep` on the fields and sends its messages |
| LineSession.LineDebugSession.StepOnce | debugger/jsDebuggerStart.js:199-208 | performs `StepLine` on the fields and sends its messages |
| PyRelay.FrameSplitsAtNewlines | debugger/pyDebuggerStart.js:164-169 | no emitted line and not the carry-over contains a newline, and the emitted lines joined with the carry-over give back the old carry-over plus the chunk |
| PyRelay.FrameConcat | debugger/pyDebuggerStart.js:164-169 | framing two decoded text chunks in turn emits the same lines and keeps the same carry-over as framing their concatenation |
| PyRelay.FeedChunks | debugger/pyDebuggerStart.js:164-212 | for decoded text chunks, chunk boundaries do not change the dispatched effect on the relay |
| PyRelay.NonBlank | debugger/pyDebuggerStart.js:172 | exactly the lines that are not all white space, in order |
| PyRelay.DispatchAllHandlesNonBlank | debugger/pyDebuggerStart.js:171-212 | dispatching a chunk's lines handles exactly its non-blank lines, each once, in stream order |
| PyRelay.StopReason | debugger/pyDebuggerStart.js:182 | a given reason is kept; a missing one becomes `step` |
| PyRelay.HandleEffects | debugger/pyDebuggerStart.js:176-211 | each line sends at most one message after the earlier ones, and nothing only for a reply whose id is no longer pending; only `stopped` and `breakpoint` move the current line, and a stop reports `breakpoint` or its reason (default `step`); `terminated` reports termination; only a reply removes a pending id, its own |
| PyRelay.DispatchAllOnlyResolves | debugger/pyDebuggerStart.js:192-201 | dispatch never adds a pending query nor changes the scope of one |
| PyRelay.VariablesReplyResolvesOne | debugger/pyDebuggerStart.js:192-201 | a reply with a pending id answers and deletes only that id; an unknown id changes nothing |
| PyRelay.UnknownLinesForwarded | debugger/pyDebuggerStart.js:202-211 | an unparseable or unknown line is forwarded as stdout and changes neither the line nor the pending map |
| PyRelay.TerminatedLineThenExit | debugger/pyDebuggerStart.js:155-158 | the controller's `terminated` line and the process exit send two terminated events |
| PyRelay.ScopeOf | debugger/pyDebuggerStart.js:279-290 | reference 1 is the locals, 2 the globals, anything else neither |
| PyRelay.CurrentFrame | debugger/pyDebuggerStart.js:330-348 | the single frame has id 1, the current line and file, column 1, and is named `line N` |
| PyRelay.AllVerified | debugger/pyDebuggerStart.js:255-260 | one verified entry per requested line, in order |
| PyRelay.PyDebugSession.constructor | debugger/pyDebuggerStart.js:59-82 | no process, no breakpoints, line 1, request counter 0, nothing pending |
| PyRelay.PyDebugSession.InitializeRequest | debugger/pyDebuggerStart.js:90-104 | sends the capabilities response, then the initialized event |
| PyRelay.PyDebugSession.ConfigurationDoneRequest | debugger/pyDebuggerStart.js:109-112 | acknowledges |
| PyRelay.PyDebugSession.LaunchRequest | debugger/pyDebuggerStart.js:121-217 | with a path missing returns with no response and no change; otherwise records the file, spawns, clears the carry-over and acknowledges |
| PyRelay.PyDebugSession.OnProcessEnd | debugger/pyDebuggerStart.js:149-158 | the process's error or exit sends termination |
| PyRelay.PyDebugSession.OnStdoutData | debugger/pyDebuggerStart.js:164-212 | the carry-over becomes `Frame`'s and the relay becomes `DispatchAll` of the framed lines; request ids stay consistent |
| PyRelay.PyDebugSession.DispatchLines | debugger/pyDebuggerStart.js:171-212 | the `forEach` loop performs `DispatchAll` |
| PyRelay.PyDebugSession.HandleLine | debugger/pyDebuggerStart.js:176-211 | performs `Handle` on the fields |
| PyRelay.PyDebugSession.SetBreakPointsRequest | debugger/pyDebuggerStart.js:225-261 | a missing file answers no breakpoints and stores nothing; otherwise replaces the file's list, forwards it when stdin is writable, and answers every line verified |
| PyRelay.PyDebugSession.ScopesRequest | debugger/pyDebuggerStart.js:263-272 | answers the Local and Globals scopes |
| PyRelay.PyDebugSession.VariablesRequest | debugger/pyDebuggerStart.js:275-295 | other references answer empty without a query; 1 and 2 issue a query under a fresh id and wait |
| PyRelay.PyDebugSession.GetVariablesFromPython | debugger/pyDebuggerStart.js:296-309 | takes the next id (never pending before), records it, writes the query; a refused write removes the entry and rejects; no process rejects and keeps the entry |
| PyRelay.PyDebugSession.ThreadsRequest | debugger/pyDebuggerStart.js:316-322 | answers the single main thread |
| PyRelay.PyDebugSession.StackTraceRequest | debugger/pyDebuggerStart.js:330-348 | answers `CurrentFrame` with a total of 1 |
| PyRelay.PyDebugSession.ContinueRequest | debugger/pyDebuggerStart.js:355-363 | writes `continue` when stdin is writable and always acknowledges |
| PyRelay.PyDebugSession.StepRequest | debugger/pyDebuggerStart.js:368-396 | writes the step command and acknowledges; with no process it throws and sends nothing |
| PyRelay.PyDebugSession.DisconnectRequest | debugger/pyDebuggerStart.js:404-410 | kills the process if there is one and always acknowledges |
| PyRuntime.BreakpointsOf | python_runtime/pyRuntime.py:27 | the file's list, or empty |
| PyRuntime.StopDecision | python_runtime/pyRuntime.py:14-34 | entry first, then breakpoint, then step; no stop iff none of the three holds |
| PyRuntime.SetBreaks | python_runtime/pyRuntime.py:72-73 | one `set_break` per line, in order |
| PyRuntime.ResumeIndex | python_runtime/pyRuntime.py:36-77 | the position of the first resuming command, if any |
| PyRuntime.Consumed | python_runtime/pyRuntime.py:36-77 | the command loop reads a prefix of stdin |
| PyRuntime.ErrorsOf | python_runtime/pyRuntime.py:75-77 | only error lines, at most one per command |
| PyRuntime.ServePrints | python_runtime/pyRuntime.py:36-77 | the command loop prints one error line per malformed line it reads and nothing else |
| PyRuntime.ServeStores | python_runtime/pyRuntime.py:67-74 | the loop replays each `setBreakpoints` it reads onto the store, replacing that path's list |
| PyRuntime.ServeStops | python_runtime/pyRuntime.py:38-65 | the loop ends right after the first resuming command, with `should_stop` false for continue and true for the steps; with none it reads all input and quits |
| PyRuntime.OtherCommandsIgnored | python_runtime/pyRuntime.py:43-77 | an unrecognised command, `variables` included, is skipped silently |
| PyRuntime.MalformedPrintsOneError | python_runtime/pyRuntime.py:75-77 | a malformed line prints one error and the loop goes on |
| PyRuntime.UserLineAnnounces | python_runtime/pyRuntime.py:14-34 | a call prints at most one stopped event, first; after a stop `first_stop` is false; a breakpoint stop keeps `should_stop` and a step stop clears it |
| PyRuntime.EntryOnlyOnce | python_runtime/pyRuntime.py:20-24 | once `first_stop` is false no call prints an entry stop |
| PyRuntime.TraceNeverTerminates | python_runtime/pyRuntime.py:90-96 | the traced run itself never prints `terminated` |
| PyRuntime.UserLineNeverTerminates | python_runtime/pyRuntime.py:14-34 | `user_line` never prints `terminated` |
| PyRuntime.Epilogue | python_runtime/pyRuntime.py:93-104 | when bdb reports no line after `exec`: a runtime error for an exception other than quit or exit, and `terminated` last and only last |
| PyRuntime.RuntimeController.constructor | python_runtime/pyRuntime.py:7-12 | absolute target path, empty store, `first_stop` set, `should_stop` clear |
| PyRuntime.RuntimeController.UserLine | python_runtime/pyRuntime.py:14-34 | performs `UserLineStep` on the fields |
| PyRuntime.RuntimeController.WaitForCommand | python_runtime/pyRuntime.py:36-77 | the `while True` loop performs `Serve` |
| PyRuntime.RuntimeController.ResumeOn | python_runtime/pyRuntime.py:47-65 | a resuming command sets `should_stop` and makes its bdb call |
| PyRuntime.RuntimeController.TraceLines | python_runtime/pyRuntime.py:91 | the `user_line` calls bdb makes for a run of traced lines perform `Trace` |
| PyRuntime.RuntimeController.Apply | python_runtime/pyRuntime.py:67-77 | `setBreakpoints` replaces the path's list, clears and re-arms bdb; a malformed line prints an error |
| PyRuntime.RunScript | python_runtime/pyRuntime.py:79-104 | a missing argument or file prints one error with status 1; otherwise the printed lines and the exit status are `MainBlock`'s |
| PyRuntime.MainBlockEnds | python_runtime/pyRuntime.py:90-104 | status 0 exactly when no quit happens after the `try`, with `terminated` printed once and last; otherwise status 1 and no `terminated` |
| PyRuntime.NoLateStopsGiveEpilogue | python_runtime/pyRuntime.py:93-104 | with no stop on the module's lines after `exec`, the run is followed by `Epilogue` and the status is 0 |
| PyRuntime.StopAfterRuntimeError | python_runtime/pyRuntime.py:91-104 | stepping over from the entry stop, a raising program stops on the handler line, prints the error, stops on the closing `print`, then terminates |
| PyRuntime.QuitAfterTryLosesTerminated | python_runtime/pyRuntime.py:91-104 | end of input at a stop in the `except` clause ends the script with status 1 and no `terminated` |
| InspectorRelay.MapFrames | jsDebuggerStart.js:128-134 | one stack frame per call frame, in order |
| InspectorRelay.FramesNumbered | jsDebuggerStart.js:128-135 | frame `i` gets id `i + 1`; line and column are the 0-based values plus one (missing as 0); a missing name is `<anonymous>`; a frame without URL points at the program |
| InspectorRelay.PausedFrames | jsDebuggerStart.js:77-83 | a pause's call frames are kept; without them one `<top-level>` frame at 0:0 |
| InspectorRelay.DefaultFrameShownAtOrigin | jsDebuggerStart.js:77-83 | a pause without call frames shows one `<top-level>` frame at line 1, column 1 |
| InspectorRelay.InspectorMethod | jsDebuggerStart.js:141-162 | continue, next, stepIn and stepOut post resume, stepOver, stepInto and stepOut, both ways |
| InspectorRelay.InspectorMethodInjective | jsDebuggerStart.js:141-162 | distinct requests post distinct methods |
| InspectorRelay.Callback | jsDebuggerStart.js:103-109 | a callback records its line, verified iff no error, counts down by one, and answers iff the counter reaches zero |
| InspectorRelay.Deliver | jsDebuggerStart.js:96-109 | callbacks keep the requested lines |
| InspectorRelay.Entries | jsDebuggerStart.js:103-108 | the `k`-th arriving callback's entry is its line, verified iff it had no error |
| InspectorRelay.CountdownAnswersOnce | jsDebuggerStart.js:96-109 | the response is sent exactly once, after the last callback, with one entry per breakpoint; with no breakpoints never |
| InspectorRelay.NoAnswerAfterZero | jsDebuggerStart.js:103-108 | once the counter is at zero or below no callback answers |
| InspectorRelay.BreakpointPosts | jsDebuggerStart.js:99-102 | line `L` is posted as 0-based line `L - 1`, column 0, one per line |
| InspectorRelay.InspectorSession.constructor | jsDebuggerStart.js:23-32 | no session, no frames, `JS_filesLoc` the empty array |
| InspectorRelay.InspectorSession.InitializeRequest | jsDebuggerStart.js:33-38 | sends the initialized event before the capabilities response |
| InspectorRelay.InspectorSession.LaunchRequest | jsDebuggerStart.js:43-91 | acknowledges at once |
| InspectorRelay.InspectorSession.Connect | jsDebuggerStart.js:67-75 | creates the session; a successful connect enables the debugger and runtime domains |
| InspectorRelay.InspectorSession.OnPaused | jsDebuggerStart.js:76-84 | stores `PausedFrames` and reports a breakpoint stop |
| InspectorRelay.InspectorSession.OnConsole | jsDebuggerStart.js:85-88 | one console output line per argument, in order |
| InspectorRelay.InspectorSession.OnProcessOutput | jsDebuggerStart.js:53-60 | child output is forwarded with its stream's category |
| InspectorRelay.InspectorSession.OnProcessExit | jsDebuggerStart.js:63-66 | the child's exit sends termination |
| InspectorRelay.InspectorSession.SetBreakPointsRequest | jsDebuggerStart.js:92-112 | posts `BreakpointPosts` and starts a countdown; throws iff there are lines and no working session |
| InspectorRelay.InspectorSession.BreakpointCallback | jsDebuggerStart.js:103-109 | performs `Callback` on its batch and sends the answer when there is one |
| InspectorRelay.InspectorSession.ThreadsRequest | jsDebuggerStart.js:116-123 | answers the single main thread |
| InspectorRelay.InspectorSession.StackTraceRequest | jsDebuggerStart.js:126-137 | stores the program path, then answers `MapFrames` with their count; throws with no program or before any pause |
| InspectorRelay.InspectorSession.StepRequest | jsDebuggerStart.js:141-162 | posts `InspectorMethod` and acknowledges; throws without a working session |
| DebugSuite.RecordAt | source/DebugSuite.js:161-162 | the stored record, or `{count: 0}` |
| DebugSuite.NoteUpdatesOneRecord | source/DebugSuite.js:44-48 | a note sets that line's note, keeps its count (0 for a new record), and changes no other line or file |
| DebugSuite.HitUpdatesOneRecord | source/DebugSuite.js:160-164 | an increment adds exactly one to that line's count, keeps its note, and changes no other line or file |
| DebugSuite.NoteAndHitCommute | source/DebugSuite.js:44-48 | a note and an increment on a line commute |
| DebugSuite.HitsCount | source/DebugSuite.js:160-164 | `n` increments raise the count by exactly `n` and keep the note |
| DebugSuite.Classify | source/DebugSuite.js:89-117 | a count is undecorated iff it is 0 or less |
| DebugSuite.ClassifyThirds | source/DebugSuite.js:90-117 | with `M > 0`: high iff `3c >= 2M`, medium iff `M <= 3c < 2M`, low iff `0 < 3c < M`; the maximum is high |
| DebugSuite.SortedLines | source/DebugSuite.js:105 | the record lines, ascending, each once |
| DebugSuite.MaxOver | source/DebugSuite.js:89 | the largest count over the lines, attained by one of them; none for no lines |
| DebugSuite.LineDecoration | source/DebugSuite.js:109-125 | one decoration, with the count's heat, iff the count is positive |
| DebugSuite.Decorate | source/DebugSuite.js:105-128 | decorations only for listed lines |
| DebugSuite.DecorateCovers | source/DebugSuite.js:105-128 | every line with hits is decorated with its heat; no other line is |
| DebugSuite.DecorateCount | source/DebugSuite.js:105-128 | one decoration per line with hits |
| DebugSuite.HeatmapSummary | source/DebugSuite.js:84-130 | the heat map decorates exactly the lines with hits, once each, with their heat, in ascending line order |
| DebugSuite.RedrawThrowsOnStaleLine | source/DebugSuite.js:104-120 | a redraw throws exactly when a record with hits names a line outside the editor's document; otherwise it draws the heat map |
| DebugSuite.MaxLineIsHot | source/DebugSuite.js:89-110 | a line holding the positive maximum is always decorated high |
| DebugSuite.DecorationsOf | source/DebugSuite.js:105-128 | the loop builds exactly `Decorate`, and ends with nothing when `lineAt` throws on a line with hits outside the document |
| DebugSuite.BreakpointSuite.constructor | source/DebugSuite.js:84 | starts from the stored data |
| DebugSuite.BreakpointSuite.ApplyDecorations | source/DebugSuite.js:75-131 | nothing without an editor or records for its file; nothing drawn when a line with hits is outside the document; otherwise the file's heat map |
| DebugSuite.BreakpointSuite.AddBreakpointNote | source/DebugSuite.js:29-52 | no editor or a cancelled box changes nothing; otherwise stores the note, confirms the 1-based line, redraws |
| DebugSuite.BreakpointSuite.IncrementBreakpointHit | source/DebugSuite.js:153-168 | no editor changes nothing; otherwise one more hit, reported with the 1-based line and the new count, then a redraw |
| Hover.EscapeMd | source/pythonHoverProvider.js:60-62 | escaping never leaves a bare special character in first position |
| Hover.EscapeMdLength | source/pythonHoverProvider.js:60-62 | the output is the input's length plus one per special character |
| Hover.EscapeMdRoundTrip | source/pythonHoverProvider.js:61 | deleting each inserted backslash restores the message |
| Hover.EscapeMdNoBareSpecial | source/pythonHoverProvider.js:61 | every special character of the output other than an inserted backslash follows a backslash |
| Hover.EscapeInlineCode | source/pythonHoverProvider.js:64-66 | a leading backtick becomes a backslash and other characters stay |
| Hover.EscapeInlineCodeRoundTrip | source/pythonHoverProvider.js:64-66 | turning each escaped backtick back gives the word: only backticks change |
| Hover.EscapeInlineCodeNoBareTick | source/pythonHoverProvider.js:64-66 | every backtick of the output follows a backslash |
| Hover.EscapeInlineCodeLength | source/pythonHoverProvider.js:64-66 | one backslash is inserted per backtick, and nothing else is added |
| Hover.SeverityLabel | source/pythonHoverProvider.js:26-30 | Error, Warning and Information map to `Error`, `Warning` and `Info`, and anything else to `Hint`, both ways |
| Hover.Covering | source/pythonHoverProvider.js:19 | exactly the diagnostics whose range contains the position |
| Hover.OnlyFirstThreeListed | source/pythonHoverProvider.js:21-36 | diagnostics after the third are never shown |
| Hover.WordHelpShape | source/pythonHoverProvider.js:44-50 | a known word shows its entry and an unknown one an escaped symbol line; both end with the help line |
| Hover.DiagnosticsTakePrecedence | source/pythonHoverProvider.js:21-36 | a diagnostic at the position hides the word help and anchors the hover at a range containing the position |
| Hover.ProvideHover | source/pythonHoverProvider.js:17-54 | `provideHover` returns `HoverFor` |
| Hover.FilterCovering | source/pythonHoverProvider.js:19 | the filter builds exactly `Covering` |
| Hover.ListIssues | source/pythonHoverProvider.js:22-33 | the heading followed by one line per shown diagnostic |
| TextSetting.ConfiguredFontSize | source/TextSetting.js:6 | an unset or zero setting gives 14, any other size is kept |
| TextSetting.AcceptableIffInside | source/TextSetting.js:19-20 | a size is accepted iff it is a number strictly between 6 and 72; 6 and 72 are rejected |
| TextSetting.PageShowsSize | source/TextSetting.js:43-73 | the page carries the size in its body CSS and in its heading |
| TextSetting.PageSizeRoundTrip | source/TextSetting.js:53 | reading the body CSS size of the page for `n` gives `n` |
| TextSetting.OtherMessagesIgnored | source/TextSetting.js:17-36 | other commands change nothing |
| TextSetting.RejectedSizeChangesNothing | source/TextSetting.js:20-23 | a rejected size updates no setting and keeps the page; only one error notice |
| TextSetting.AcceptedSizeRegenerates | source/TextSetting.js:24-33 | an accepted size regenerates the page with it and ends with the success notice even when an update threw, after one failure notice if one did |
| TextSetting.UpdatesInOrder | source/TextSetting.js:25-30 | the editor setting is written first; when it throws the extension's is not written; when both complete they hold the same size |
| TextSetting.TextSettingPanel.constructor | source/TextSetting.js:4-15 | the panel shows the configured size |
| TextSetting.TextSettingPanel.OnDidReceiveMessage | source/TextSetting.js:17-36 | the handler performs `OnMessage` |
| Steps.RunEnd | source/steps.js:53 | the end of the digit run from a position |
| Steps.MatchIsGreedy | source/steps.js:53 | `(\d+)px` matches at a position iff the whole digit run there is followed by `px` |
| Steps.FirstMatch | source/steps.js:53 | the leftmost match at or after a position, or none |
| Steps.FindsLeftmostMatch | source/steps.js:53 | when the expression matches anywhere, the replacement point is its leftmost match |
| Steps.MatchStartsRun | source/steps.js:53 | the replaced digits are a whole run: the character before them is not a digit |
| Steps.ReplaceKeepsContext | source/steps.js:53 | only the matched `digits px` changes, to the size then `px`; the text before and after, later lengths included, is kept |
| Steps.NoMatchUnchanged | source/steps.js:53 | without a match the page is unchanged |
| Steps.LessonPageDefaultSize | source/steps.js:48-53 | an unset or zero setting writes `14px` at the first match |

## Left out

- PyRelay.FeedChunks: stdout chunks are modelled as already-decoded text.
  The source decodes each chunk on its own (`info.toString()`), so a UTF-8
  character split between two chunks becomes replacement characters; that
  per-chunk decoding is not modelled.
- InspectorRelay.InspectorSession.Connect: the transport is abstract. That
  the session attaches to the adapter's own process rather than to the
  spawned program is not modelled; pauses arrive as `OnPaused` calls.
- Process spawning, `kill`, stdin writes, the inspector transport and its
  300 ms delay, and `fs` calls are outside effects. They appear only as
  parameters saying whether they succeeded.
- `setTimeout` timing: a tick is a step, and the delay carries no meaning.
- `JSON.parse`, `JSON.stringify` of objects and `json.loads`: decoding is a
  parameter or a datatype. Decoding errors are the `Unparseable` or
  `Malformed` cases.
- Promises and `await` ordering in the Python relay. A variables reply is
  modelled as answering the request directly.
- Listeners left behind by an earlier launch of the Python relay. Each
  launch is modelled with its own carry-over, and earlier processes are not
  modelled.
- Log files (`log`, `console.log`) and the diagnostic output.
- `path.resolve` and `os.path.abspath`: paths are taken as already resolved,
  or `abspath` is a parameter.
- The bdb tracing machinery and the `exec` of the user program are recorded
  as actions. Which lines are traced and how the run ends are parameters.
- Strings are sequences of characters. JavaScript's UTF-16 code units and
  lengths of astral characters are not modelled.
- `Number(message.value)` on fractional, hexadecimal, exponent or blank
  inputs is not modelled. A size is NaN or an integer.
- DebugSuite.Classify: the thresholds are float divisions by 3 in the
  source. The model compares by cross-multiplication, which agrees for the
  integer counts the store holds.
- Hover.HoverFor: the `pythonDocs[word]` lookup also finds keys inherited
  from `Object.prototype` (such as `constructor`). Only the eight own
  entries are modelled.
- VS Code rendering (decoration styles, Markdown objects, webview panels),
  `globalState` persistence and the `insertAutoComment` command.
- The lesson page's `go_Home` message, which only runs another command.
- TextSetting.OnMessage: a thrown `config.update` is taken to change
  nothing. An update that throws after writing is not modelled.
- A DAP handler that throws is returned as `threw`. How the debug-adapter
  library reacts to the throw is not part of this model.
