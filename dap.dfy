/** The part of the Debug Adapter Protocol the three adapters send to the IDE:
    events, response bodies and the records inside them. */
module Dap {

  /** The single thread every adapter reports. */
  const ThreadId: int := 1

  datatype Event =
    | Initialized
    | Stopped(reason: string, threadId: int)
    | Output(text: string, category: string)
    | Terminated

  datatype Breakpoint = Breakpoint(verified: bool, line: int)

  datatype Source = Source(name: string, path: string)

  datatype StackFrame = StackFrame(id: int, name: string, source: Source, line: int, column: int)

  datatype Variable = Variable(name: string, value: string, variablesReference: int)

  datatype Scope = Scope(name: string, variablesReference: int, expensive: bool)

  datatype Thread = Thread(id: int, name: string)

  datatype Body =
    | NoBody
    | Capabilities(flags: seq<(string, bool)>)
    | Threads(threads: seq<Thread>)
    | StackTrace(frames: seq<StackFrame>, totalFrames: int)
    | Scopes(scopes: seq<Scope>)
    | Variables(variables: seq<Variable>)
    | Breakpoints(breakpoints: seq<Breakpoint>)
    | EvaluateResult(result: string, variablesReference: int)
    | ErrorMessage(id: int, format: string)

  /** What an adapter writes to the IDE, in order. */
  datatype Message =
    | Response(command: string, success: bool, body: Body)
    | EventMessage(event: Event)

  function Ack(command: string): Message {
    Response(command, true, NoBody)
  }

  function Reply(command: string, body: Body): Message {
    Response(command, true, body)
  }

  function Send(e: Event): Message {
    EventMessage(e)
  }
}
