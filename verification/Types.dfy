/** Neutral values shared by the protocol model: messages, outcomes and errors. */
module Types {

  datatype Option<+T> = None | Some(value: T)

  type Byte = x: int | 0 <= x < 256

  const TWO64: nat := 0x1_0000_0000_0000_0000

  /** `debugger-core/src/types.rs`: what a stopped event tells the session. */
  datatype StopInfo = StopInfo(
    reason: string, threadId: int, description: string, hitBreakpointIds: seq<int>)

  datatype StopOutcome =
    | Stopped(info: StopInfo)
    | Exited(code: Option<int>)
    | Terminated

  /** The causes a waiting caller can be given. Error texts are not modelled. */
  datatype BackendError = SendFailed | Closed | Dap | Protocol

  /** A response message; the body stays undecoded, so it is left out. */
  datatype Response = Response(requestSeq: int, success: bool, command: string)

  /** What travels over a pending request's one-shot channel. */
  datatype Reply = Ok(response: Response) | Err(error: BackendError)

  /** The body of a DAP `stopped` event, with the fields the client drops. */
  datatype StoppedBody = StoppedBody(
    reason: string, description: string, threadId: int, text: string,
    allThreadsStopped: bool, hitBreakpointIds: seq<int>)

  datatype Event =
    | Initialized
    | StoppedEvent(body: StoppedBody)
    | OutputEvent(category: string, output: string)
    | ExitedEvent(exitCode: int)
    | TerminatedEvent
    | Informational

  datatype DapMessage =
    | ResponseMessage(response: Response)
    | EventMessage(event: Event)
    | Other

  datatype OutputChunk = OutputChunk(category: string, text: string)
}
