# A verified model of the debugger-control server

The server drives `lldb-dap` over the Debug Adapter Protocol and offers the debugger as tools.
This project models its hard parts and proves what they promise, for every input and every
interleaving:

* **The client protocol** (`Types`, `StopWaiter`, `Client`, `ReadLoop`). One step machine: each
  lock-held section of `client.rs`, `stop_waiter.rs` and `read_loop.rs` is one atomic step, and
  callers, aborted calls, the reader and crash recovery interleave freely. The shared objects are
  also written as classes whose methods are proved to make these steps.
* **The launch and attach handshakes** (`Handshake`, `EntryStop`, `Progress`, `Displaced`, `Crash`,
  `Verdict`). Each handshake is a program of client operations that runs against that machine. The ordering theorems hold against
  any environment. Progress is proved against every adapter that answers each request once with
  success, sends `initialized` once after the start request and stop-like events only after
  `configurationDone`, whenever it answers the start request and whatever else it sends.
* **The wire format** (`Wire`, `WireGrammar`). Content-Length frames over byte streams, with the header
  reader's own rules (UTF-8 lines, trimming, duplicate and unknown fields, the 64 MiB limit), and a
  grammar of header lines and messages that does not speak of the reader.
* **The session** (`Session`, `Guard`, `Handlers`, `Mirror`, `Overlap`, `Agreement`). The session object, the
  generation guard under concurrent handlers and pumps, the tool handlers as session transitions,
  the breakpoint lists they keep in step with the adapter, and the proof that a handler taken step
  by step and the same handler taken as one call do the same when nobody interrupts.
* **Bounded data** (`Flatten`, `OutputBuffer`, `StderrBuffer`, `HexDump`). Each loop is proved
  against a simple function of its input or history.

`dafny verify dfyconfig.toml` checks everything.

## Where the code does less than its documentation says

* `crates/mcp-tools/src/handlers/execution.rs:9-12` says the post-stop writes are guarded, so that a
  resume returning after a disconnect leaks nothing into the new session. Two things escape the
  guard. The stop cache is written in a lock section of its own (lines 208-213), so a reset between
  guard and cache leaks the stop: `GenerationGuard.StopCacheLeaksIff` and the run
  `GenerationGuard.StopCacheLeaks`. And the generation is read only after the state check and an
  await (lines 106-122), so a reset in that gap is not noticed: `GenerationGuard.GuardedLateIff`
  and the run `GenerationGuard.GapRevivesSession`. The other writes of handlers have no guard at
  all, the clean-up of a failed start included (`GenerationGuard.CleanUpWipesNextSession`).
  `GenerationGuard.PlainLateIff` says when such a write is late, and
  `GenerationGuard.EarlierSessionsDoNotMatterIff` what it takes for a session to be independent of
  those before it: that no handler or pump of theirs makes a write that changes something.
* `crates/mcp-tools/src/flatten.rs:66-68` says the result never exceeds `max_count`; with a cap of 0
  one node is emitted. `Flattening.CapKeptIff` gives the exact condition.
* A replaced wait for `initialized` counts as resolved (`crates/dap-client/src/client.rs:155-158`
  documents the closed channel), so a handshake whose wait was replaced goes on without the event:
  `Handshakes.WaitOverIff` for the exact condition, `DisplacedWaits.ConfiguresWithoutEvent` for a
  run. That is why `Handshakes.LaunchOrdering` asks that nobody else waits.
* `crates/mcp-tools/src/handlers/breakpoints.rs:8-11` promises that a response without breakpoints
  leaves the lists unchanged. It leaves the tracked list, while an adapter that answered with
  success has taken the sent list over: the model assumes so, and that a failed request may have
  been taken over or not, which the adapter's answer says. `BreakpointMirror.CallKeepsMirrorIff` is
  relative to that; `BreakpointMirror.HonestAdapterMirrored` is the case of an adapter that gives
  one result per breakpoint and keeps its list when it rejects.
* Removing a breakpoint matches the line the adapter reported
  (`crates/mcp-tools/src/handlers/breakpoints.rs:96`) against the lines that were asked for, so a
  breakpoint that the adapter moved stays set although the tool answers `removed`:
  `BreakpointMirror.MovedBreakpointStays`, and `BreakpointMirror.SetThenRemoveRestoresIff` for the
  exact condition.
* The truncation marker is an ordinary entry, so output that reads like it can hide that just such
  an entry was dropped: `OutputBuffers.DrainExactIff` and `OutputBuffers.MarkerMayBeOutput`.

## Model

| member | source | states |
|---|---|---|
| `StopWaiters.RunMeetsTrace` | crates/dap-client/src/stop_waiter.rs:46-85 | for every history of calls, registration i holds exactly the first producer event between it and registration i+1, is closed if there is none and a later registration came, else still waits; never two outcomes |
| `StopWaiters.ApplyMeets` | crates/dap-client/src/stop_waiter.rs:46-85 | every single call keeps that trace specification |
| `StopWaiters.StopWaiter.RegisterWaiter` | crates/dap-client/src/stop_waiter.rs:46-51 | registering drops the sender in the slot, and the new receiver waits |
| `StopWaiters.StopWaiter.Send` | crates/dap-client/src/stop_waiter.rs:77-85 | a producer call empties the slot and sends at most once |
| `StopWaiters.StopWaiter.Deliver` | crates/dap-client/src/stop_waiter.rs:56-58 | a stopped event is one producer call with the translated stop info |
| `StopWaiters.StopWaiter.DeliverExit` | crates/dap-client/src/stop_waiter.rs:61-65 | an exit is one producer call with the code |
| `StopWaiters.StopWaiter.Cancel` | crates/dap-client/src/stop_waiter.rs:69-71 | a cancel is one producer call with terminated |
| `Clients.StepKeepsGood` | crates/dap-client/src/client.rs:74-121 | every lock section, write, await and drop keeps the pending-map invariant |
| `Clients.SeqNumbers` | crates/dap-client/src/client.rs:74-76 | the sends are numbered 1, 2, 3 and so on to the largest 64-bit number, then on from the smallest |
| `Clients.Conservation` | crates/dap-client/src/client.rs:278-328 | over every interleaving of at most 2^64 sends: each registered call is in exactly one of pending, handed, answered, failed, removed; at most one reply, an Ok reply carries that request's number, only the call itself removes its entry, and what it returns is what was sent to it |
| `Clients.NobodyElsesEntry` | crates/dap-client/src/client.rs:79-89 | no registration finds its key taken; no registration, write failure or abort touches another call |
| `Clients.OneMoreOverwrites` | crates/dap-client/src/client.rs:74-83 | the bound is tight: with 2^64+1 sends a registration overwrites a waiting call, whose await then returns `Closed` |
| `Clients.Shared.NextSeqNumber` | crates/dap-client/src/client.rs:74-76 | the number handed out is new, and follows the wrapping counter |
| `Clients.Shared.RegisterPending` | crates/dap-client/src/client.rs:79-83 | the insertion meets no existing entry |
| `Clients.Shared.Abort` | crates/dap-client/src/client.rs:405-412 | the aborted call's entry is gone and no other call's is |
| `Clients.Shared.DispatchResponse` | crates/dap-client/src/client.rs:94-104 | the addressed pending call gets its first and only reply; an unknown number changes nothing |
| `Clients.Shared.CancelAllPending` | crates/dap-client/src/client.rs:110-121 | in any drain order, exactly the pending calls fail with the error and the map is empty |
| `ReadLoops.SysStepKeepsGood` | crates/dap-client/src/read_loop.rs:149-258 | every step of callers, reader and recovery keeps the joint invariant of map, waiter, latch and channels |
| `ReadLoops.RecoveryResolvesEveryone` | crates/dap-client/src/read_loop.rs:239-258 | when recovery is over, each request registered before the drain has one reply or gave itself up, those pending at the drain exactly the reply closed, and each stop registration made before the cancel has the fate its history promises, with terminated if it was still waiting |
| `ReadLoops.ChannelsFollowMessages` | crates/dap-client/src/read_loop.rs:60-82 | outputs are exactly the output events in order; the terminated signal fires once, at the first terminated event or the end, with the last exit code before that point; the latch has fired iff the event was dispatched |
| `ReadLoops.ReadLoop.DispatchOne` | crates/dap-client/src/read_loop.rs:163-187 | one message answers only the call it addresses, and moves channels and waiter as the message sequence says |
| `ReadLoops.ReadLoop.DispatchEventOne` | crates/dap-client/src/read_loop.rs:189-231 | the effect of each event on channels, latch and waiter |
| `ReadLoops.ReadLoop.Recover` | crates/dap-client/src/read_loop.rs:239-258 | every pending call fails with closed, the waiter is cancelled, the signal has fired exactly once |
| `ReadLoops.ReadLoop.Run` | crates/dap-client/src/read_loop.rs:149-159 | for every stream that ends, each request pending at the start got the first response addressed to it, else closed; both channels follow the messages |
| `Handshakes.HStepKeepsGood` | crates/lldb-backend/src/backend.rs:191-404 | every step of a handshake, of its environment, or its cancellation keeps the handshake invariant |
| `Handshakes.WritesInOrder` | crates/lldb-backend/src/backend.rs:191-324 | for launch and attach alike, failing and cancelled runs included: the frames written are a prefix of the program's requests, and while nobody else waits for `initialized` none behind the wait is written before it was dispatched |
| `Handshakes.LaunchCommands` | crates/lldb-backend/src/backend.rs:192-249 | the launch program's requests are initialize, launch, setBreakpoints per file, setFunctionBreakpoints if any, setExceptionBreakpoints, configurationDone |
| `Handshakes.AttachCommands` | crates/lldb-backend/src/backend.rs:285-307 | the attach program sends initialize, attach, setExceptionBreakpoints, configurationDone, and a resume its one request |
| `Handshakes.LaunchOrdering` | crates/lldb-backend/src/backend.rs:192-249 | over every run, what was written is a prefix of that list, and while nobody else waits for `initialized` nothing after launch precedes it |
| `Verdicts.ProgramsCheck` | crates/lldb-backend/src/backend.rs:124-147 | every launch, and attach and resume, ask of each response what its request calls for, and await the start request they sent |
| `Verdicts.SuccessNeedsGoodAnswers` | crates/lldb-backend/src/backend.rs:191-257 | over every run of a launch, attach or resume: if it ends without an error, each request of it was answered, and initialize, launch or attach, every setBreakpoints and setFunctionBreakpoints with success, setBreakpoints under its own name |
| `Verdicts.ReplyDecides` | crates/lldb-backend/src/backend.rs:329-369 | in every reachable state in which a reply to a request is there to be awaited: a failed request ends the program with that cause; one that must succeed and did not ends it; setBreakpoints answered under another name ends it; any other response, with or without success, lets it go on |
| `Verdicts.StartReplyDecides` | crates/lldb-backend/src/backend.rs:251-257 | the same of the launch or attach response awaited at the end |
| `Verdicts.WriteFailureDecides` | crates/dap-client/src/client.rs:287-291 | in every reachable state in which a frame is to be written: if that fails the program ends with a send failure as cause, and its entry is gone from the pending map |
| `Verdicts.CancelDecides` | crates/dap-client/src/client.rs:405-412 | in every reachable state in which a request can be cancelled: the program ends, the entry of a guarded request is gone while that of launch or attach, which have no guard, stays, and no other call is touched |
| `Handshakes.WaitOverIff` | crates/dap-client/src/client.rs:131-160 | in every run a parked wait for `initialized` is over iff the event was dispatched or a later wait took its place |
| `Handshakes.DisplacedWaitGoesOn` | crates/dap-client/src/client.rs:145-160 | a handshake at its wait goes on, without the event, when another wait comes |
| `DisplacedWaits.ConfiguresWithoutEvent` | crates/lldb-backend/src/backend.rs:210-227 | every launch has a run that writes a request behind the wait although `initialized` was never dispatched |
| `Crashes.CrashBlocksIff` | crates/dap-client/src/read_loop.rs:239-258 | over every run of a launch, attach or resume: once recovery is over it is blocked iff it waits for an `initialized` that never came with nobody waiting behind it, for a request registered after the drain, or for a stop registered after the cancel and last |
| `Crashes.LaunchHangsAfterCrash` | crates/dap-client/src/client.rs:145-160 | every launch has a run in which the stream ends before `initialized` and the launch then waits through every continuation in which it is not cancelled and nobody else waits |
| `EntryStops.ReportsFirstAfterRegistration` | crates/lldb-backend/src/backend.rs:260-271 | whatever a launch, attach or resume reports is the first stop-like event after its own registration and before the next; at its wait it reports that event if there is one, a lost waiter iff another registration came first, and else is blocked |
| `EntryStops.LaunchReportsEntryStop` | crates/lldb-backend/src/backend.rs:236-273 | in every interleaving with no stop before configurationDone and no other registration, a stop-on-entry launch that succeeds reports exactly the first stop-like event dispatched |
| `Verdicts.LaunchReturnsFirstStop` | crates/lldb-backend/src/backend.rs:259-273 | in the same interleavings, what the caller gets from the messages read: reason, thread, description and breakpoint ids of the first stopped event, the code of the first exited one, or no code if the session just ended |
| `Verdicts.PlainLaunchReturnsRunning` | crates/lldb-backend/src/backend.rs:259-273 | a launch without stop on entry that succeeds reports running, whatever stops come |
| `EntryStops.AttachMissesEarlierStops` | crates/lldb-backend/src/backend.rs:316-323 | attach at its final wait is blocked iff no call on the stop waiter followed its registration, however many stops came before |
| `EntryStops.ResumeMissesNothing` | crates/lldb-backend/src/backend.rs:393-404 | a resume whose request is out has its waiter in place, and at its wait is blocked iff no call on the waiter followed |
| `Verdicts.WaitReturns` | crates/lldb-backend/src/backend.rs:316-323 | an attach or resume that succeeds hands its caller the first stop-like outcome after its registration, or terminated if another registration came first |
| `LaunchProgress.NeverStuck` | crates/lldb-backend/src/backend.rs:191-324 | under every answering policy, a launch or attach short of its last wait can take a productive step |
| `LaunchProgress.Decreases` | crates/lldb-backend/src/backend.rs:191-324 | every productive step lowers one measure, and output, informational and unknown messages never raise it |
| `LaunchProgress.LaunchMakesProgress` | crates/lldb-backend/src/backend.rs:177-274 | whether the launch response comes before `initialized`, after it or after configurationDone, and whatever else is sent in between: at most 12 productive steps per instruction plus 14, one available until there is a result, and the result is the first stopped, exited or terminated event, or running if none is waited for |
| `LaunchProgress.LaunchFinishes` | crates/lldb-backend/src/backend.rs:177-274 | every partial run extends to one that ends, with the first stop-like event it had, else with any one sent now |
| `LaunchProgress.AttachMakesProgress` | crates/lldb-backend/src/backend.rs:285-324 | attach against the same adapters: the same bound, never stuck short of its last wait, blocked there until a stop-like event follows its registration, which is what it reports |
| `LaunchProgress.StopEndsLastWait` | crates/lldb-backend/src/backend.rs:316-323 | a stop-like event that comes at the last wait is what is reported |
| `LaunchProgress.AttachCanHang` | crates/lldb-backend/src/backend.rs:304-323 | for every policy and stop-like event there is a run that dispatches it after configurationDone but before attach registers, and attach then waits through every continuation without another |
| `Wires.DecodesExactlyUtf8` | crates/dap-client/src/wire.rs:301-303 | a line counts as text iff it is the UTF-8 encoding of that text, surrogates and overlong forms excluded |
| `Wires.TrimTakesWhiteEnds` | crates/dap-client/src/wire.rs:322-327 | trimming a field value takes the white space off both ends and nothing else |
| `Wires.Reader.ReadLine` | crates/dap-client/src/wire.rs:301-303 | takes the bytes up to and including the first line feed, or all of them |
| `Wires.Reader.ReadHeader` | crates/dap-client/src/wire.rs:294-336 | the loop refines the header function, errors and unread bytes included |
| `Wires.Reader.ReadMessage` | crates/dap-client/src/wire.rs:283-291 | refines the frame function, consuming what it says |
| `Wires.Writer.WriteMessage` | crates/dap-client/src/wire.rs:259-273 | appends exactly the frame of the body |
| `Wires.ReadFrame` | crates/dap-client/src/wire.rs:283-347 | a body read is within the limit and is exactly the bytes in front of what is left unread |
| `Wires.FrameReadsBack` | crates/dap-client/src/wire.rs:259-347 | a written frame, whatever its body holds and whatever follows, is read back iff the body is within 64 MiB; a longer one is refused by its length |
| `WireGrammar.FrameLayout` | crates/dap-client/src/wire.rs:259-273 | a frame to the byte: the name, one space, the body's length in decimal without leading zeros, two line ends and the body |
| `Wires.StreamReadsBack` | crates/dap-client/src/wire.rs:259-347 | every stream of frames is read back exactly, then a clean end with no byte unread |
| `Wires.TruncationDetected` | crates/dap-client/src/wire.rs:294-346 | a strict prefix of a frame is refused, with the clean-end error iff it is empty; the one exception is the empty body's frame less its last byte |
| `Wires.UnknownHeadersIgnored` | crates/dap-client/src/wire.rs:316-335 | unknown header lines before or after the length change nothing |
| `Wires.HeaderBlock` | crates/dap-client/src/wire.rs:299-336 | of any block of acceptable lines the last Content-Length counts, and a block without one is refused |
| `WireGrammar.LineDecides` | crates/dap-client/src/wire.rs:301-335 | what a header line is, from its bytes alone: a length n iff it is the name, white space, an optional plus, decimal digits of value n within the limit and white space; refused with its trimmed value iff it has the name and is not that; ignored iff it is other non-blank text; blank iff only CR and LF; not text iff no UTF-8 encoding |
| `WireGrammar.ReadsExactlyMessages` | crates/dap-client/src/wire.rs:283-347 | a body is taken off a stream iff the stream starts with lines of that grammar that give a length or are ignored, a blank line and that body, of the last length given |
| `WireGrammar.RefusesExactly` | crates/dap-client/src/wire.rs:294-347 | which error a refused stream gets and what is left unread, exactly: it ends between or within lines (a clean end iff before the first), its first line not passed is no text, no allowed length or blank with no length given, or its body is cut short |
| `Sessions.SessionManager.SetStateIfGeneration` | crates/mcp-session/src/manager.rs:119-126 | takes effect, and says so, iff the generation still matches |
| `Sessions.SessionManager.TerminateIfGeneration` | crates/mcp-session/src/manager.rs:214-224 | records exit code and termination together, iff the generation still matches |
| `Sessions.SessionManager.Reset` | crates/mcp-session/src/manager.rs:162-181 | every field is that of a new session but the generation, which moves on and wraps, and the output is drained |
| `Sessions.SessionManager.RemoveBreakpointById` | crates/mcp-session/src/manager.rs:302-337 | an unknown id changes nothing; a known one goes with the first entry of its line or name |
| `Sessions.SessionManager.FlushPending` | crates/mcp-session/src/manager.rs:389-405 | every pending list moves behind its tracked list and is handed out, in whatever order the map gives the files |
| `Sessions.SessionManager.Pump` | crates/mcp-session/src/pump.rs:30-41 | all output is appended in order; under another generation nothing else changes, under its own only state and last exit code |
| `Sessions.PumpedIs` | crates/mcp-session/src/pump.rs:30-41 | the same of the fold over the events, for every event sequence |
| `GenerationGuard.StepKeepsGood` | crates/mcp-session/src/manager.rs:119-181 | the generation is the count of resets modulo 2^64, and every held generation that of a session found after the check |
| `GenerationGuard.StopTakesEffectIff` | crates/mcp-tools/src/handlers/execution.rs:122-246 | over every run: a resume that comes back leaves the session stopped, or terminated with its exit code if it brought one, iff the resets since it read the generation are a multiple of 2^64, and otherwise changes nothing |
| `GenerationGuard.PumpTakesEffectIff` | crates/mcp-session/src/pump.rs:36-38 | over every run: a termination heard by the pump of a launch or attach leaves the session terminated, with the exit code if there is one, on the same condition, and otherwise changes nothing |
| `GenerationGuard.PlainLateIff` | crates/mcp-tools/src/handlers/lifecycle.rs:49-147 | over every run: an unguarded write is late iff a reset came between its handler's state check and it |
| `GenerationGuard.GuardedLateIff` | crates/mcp-tools/src/handlers/execution.rs:106-146 | over every run: a guarded write is late iff a reset came after the state check and the resets since the generation was read are a multiple of 2^64 |
| `GenerationGuard.EarlierSessionsDoNotMatterIff` | crates/mcp-session/src/manager.rs:113-126 | from any point of any run of all handlers that write to the session and all pumps: the session is at every step what it would be had every handler and pump of earlier sessions vanished there, iff none of them makes a write that changes something |
| `GenerationGuard.StopCacheLeaksIff` | crates/mcp-tools/src/handlers/execution.rs:208-213 | a stop whose guard held is cached in a session it does not belong to iff a reset came between guard and cache |
| `GenerationGuard.StopCacheLeaks` | crates/mcp-tools/src/handlers/execution.rs:208-213 | a reachable run ends idle with the old session's stop |
| `GenerationGuard.GapRevivesSession` | crates/mcp-tools/src/handlers/execution.rs:106-125 | a reachable run in which a disconnect between check and capture leaves the reset session running |
| `GenerationGuard.CleanUpWipesNextSession` | crates/mcp-tools/src/handlers/lifecycle.rs:317-322 | a reachable run in which the clean-up of an abandoned launch resets the session launched after it |
| `Handlers.ToolServer.HandleSetBreakpoint` | crates/mcp-tools/src/handlers/breakpoints.rs:27-115 | the exact condition of each error and of pending and placed; a placed breakpoint, with the line and condition asked for, is last in the file's list in session and adapter, and on record under the id of the first result with that line, else the last; other files, and on an error the session, are as before |
| `Handlers.ToolServer.HandleSetFunctionBreakpoint` | crates/mcp-tools/src/handlers/breakpoints.rs:120-204 | the exact condition of each error and of pending and placed; the function named, with its condition, is last in the lists of session and adapter, and on record under the last result's id if there is one; on an error the session is as before |
| `Handlers.ToolServer.HandleRemoveBreakpoint` | crates/mcp-tools/src/handlers/breakpoints.rs:209-266 | the exact condition of each error and of removed; the first entry of the recorded line or name is gone from the lists of session and adapter, nothing else is, and the id is forgotten; on an error the session is as before |
| `Handlers.ToolServer.HandleLaunch` | crates/mcp-tools/src/handlers/lifecycle.rs:24-151 | started iff idle, named and shaken hands: then stopped with the stop stored, running or terminated as the outcome says, with the program named and the pid given or else kept; the adapter has exactly the pending lists, nothing is pending and the generation is the same; a failed or cancelled start is a reset without adapter; other errors change nothing |
| `Handlers.ToolServer.HandleAttach` | crates/mcp-tools/src/handlers/lifecycle.rs:155-268 | started iff idle, named and shaken hands: then stopped with the stop stored, or terminated, with target and pid as for launch; the adapter has no breakpoints and what was pending still is; failures as for launch |
| `Handlers.ToolServer.HandleDisconnect` | crates/mcp-tools/src/handlers/lifecycle.rs:273-299 | outside idle it always ends reset, without adapter and with its output drained; in idle it changes nothing |
| `Handlers.ToolServer.HandleResume` | crates/mcp-tools/src/handlers/execution.rs:98-150 | the exact condition of each error and of a report; a stop changes only the stop cache, an end only state and exit code, a timeout leaves it running, any other error leaves the session as it was |
| `Handlers.ToolServer.HandleStopResult` | crates/mcp-tools/src/handlers/execution.rs:201-246 | the session moves on iff the generation matches; the output is drained in any case but terminated |
| `HandlerAgreement.LaunchAgrees` | crates/mcp-tools/src/handlers/lifecycle.rs:24-151 | the single writes of a launch, opening and ending, made in order, give the session that the launch call gives, for each way the start may go |
| `HandlerAgreement.LaunchStepsAgree` | crates/mcp-tools/src/handlers/lifecycle.rs:49-147 | so do the steps of the concurrent model from the connection on, when nobody comes between |
| `HandlerAgreement.AttachAgrees` | crates/mcp-tools/src/handlers/lifecycle.rs:155-268 | the writes of an attach give the session that the attach call gives |
| `HandlerAgreement.AttachStepsAgree` | crates/mcp-tools/src/handlers/lifecycle.rs:202-264 | so do the steps of an attach from its connection on |
| `HandlerAgreement.ResumeGoesOut` | crates/mcp-tools/src/handlers/execution.rs:106-125 | a resume from its check to its request: running, with the generation of the check in hand |
| `HandlerAgreement.ResumeStepsAgree` | crates/mcp-tools/src/handlers/execution.rs:201-246 | from there the steps of a resume that comes back give what the resume call gives, for each outcome |
| `HandlerAgreement.ResumeFailuresAgree` | crates/mcp-tools/src/handlers/execution.rs:127-149 | a send error reverts the state and a timeout leaves it running, in both models |
| `HandlerAgreement.SetAgrees` | crates/mcp-tools/src/handlers/breakpoints.rs:27-115 | the commits of a set give the session that the set call gives, pending and refused ones included |
| `HandlerAgreement.SetFunctionAgrees` | crates/mcp-tools/src/handlers/breakpoints.rs:120-204 | the same of a function breakpoint |
| `HandlerAgreement.RemoveAgrees` | crates/mcp-tools/src/handlers/breakpoints.rs:209-266 | the same of a removal |
| `HandlerAgreement.CommitStepsAgree` | crates/mcp-tools/src/handlers/breakpoints.rs:27-266 | the steps of a breakpoint or backtrace handler that nobody interrupts make exactly those commits |
| `HandlerAgreement.BacktraceStores` | crates/mcp-tools/src/handlers/inspection.rs:108 | a backtrace stores its frame mapping and changes nothing else |
| `HandlerAgreement.DisconnectStepsAgree` | crates/mcp-tools/src/handlers/lifecycle.rs:273-299 | the steps of a disconnect give what the disconnect call gives |
| `HandlerAgreement.PumpAgrees` | crates/mcp-session/src/pump.rs:36-38 | a termination between calls is the one write of the pump |
| `HandlerAgreement.AdmittedActs` | crates/mcp-tools/src/handlers/lifecycle.rs:24-47 | the state checks of both models let the same calls through |
| `BreakpointMirror.CallKeepsMirrorIff` | crates/mcp-tools/src/handlers/breakpoints.rs:63-100 | any call keeps tracked and adapter lists equal iff the adapter does not take over a changed list untold |
| `BreakpointMirror.MirrorOverEveryRunIff` | crates/mcp-tools/src/handlers/breakpoints.rs:27-266 | over every run of set, remove, launch, attach, disconnect, resume and pump calls: the lists agree at every point, and idle tracks nothing, iff that never happens |
| `BreakpointMirror.HonestAdapterMirrored` | crates/mcp-tools/src/handlers/breakpoints.rs:63-100 | against an adapter that returns one result per breakpoint and keeps its list when it rejects, the lists agree at every point of every run |
| `BreakpointMirror.RejectedCallsChangeNothing` | crates/mcp-tools/src/handlers/breakpoints.rs:150-186 | a call that fails before the adapter, or that it rejects, changes neither session nor adapter |
| `OverlappingBreakpoints.OverlapMirrorsIff` | crates/mcp-tools/src/handlers/breakpoints.rs:63-100 | for any number of set and remove calls on one file that overlap in any way: once what was accepted is committed the lists agree if nobody else committed since the call accepted last read the tracked list, and with sets only in no other case |
| `OverlappingBreakpoints.OverlapLosesOne` | crates/mcp-tools/src/handlers/breakpoints.rs:67-91 | two sets that both read before either commits leave both tracked and one set |
| `OverlappingBreakpoints.NextCallHeals` | crates/mcp-tools/src/handlers/breakpoints.rs:67-91 | whatever was lost, the next accepted call that nobody overlaps makes the lists agree again |
| `OverlappingBreakpoints.SessionKeepsBook` | crates/mcp-session/src/manager.rs:302-337 | the file's list and records in the session move as the overlap model's book does, on a set and on a removal |
| `BreakpointMirror.RemovalRemovesIff` | crates/mcp-tools/src/handlers/breakpoints.rs:224-258 | a removal answered with success takes one breakpoint off the adapter iff its line or name still names a tracked one, else none |
| `BreakpointMirror.SetThenRemoveRestoresIff` | crates/mcp-tools/src/handlers/breakpoints.rs:81-100 | set then remove restores the file's list iff the adapter kept the line and every entry from the first of that line on is the same |
| `BreakpointMirror.SetFunctionThenRemoveRestoresIff` | crates/mcp-tools/src/handlers/breakpoints.rs:158-186 | setting a function breakpoint and removing it by its id restores the list iff every entry from the first of that name on is the same |
| `BreakpointMirror.MovedBreakpointStays` | crates/mcp-tools/src/handlers/breakpoints.rs:320-326 | a breakpoint the adapter moved is still set after its removal |
| `BreakpointMirror.StartInstalls` | crates/mcp-session/src/manager.rs:364-405 | what was asked for in idle reaches the adapter with a launch, per file and in order, with no id on record to remove it by; after an attach the adapter has none of it |
| `BreakpointMirror.PendingStrands` | crates/mcp-tools/src/handlers/lifecycle.rs:153-154 | once a session is up, what is pending stays pending until a disconnect throws it away |
| `Flattening.FlattenVariables` | crates/mcp-tools/src/flatten.rs:69-129 | for any graph, depth, cap and filter, failing fetches included: the nodes of the first paths of the walk up to the cap, or the first failed fetch if the cap does not come before it; at most max(cap, 1) fetches; nesting at most the depth and the cap less one |
| `Flattening.FlattenRecursive` | crates/mcp-tools/src/flatten.rs:134-189 | the capped drive of the children's walk, with its share of the fetches and nesting |
| `Flattening.WalkIsPaths` | crates/mcp-tools/src/flatten.rs:94-189 | what is walked: each reference path of at most depth steps from a root whose lower-cased name contains the lower-cased filter, once, in the lexicographic order of positions; named by the path's names joined with dots, with the last variable's value and type, marked as a container with its count of children iff it has a reference and the depth is used up; a failed fetch stands for its children |
| `Flattening.DriveIsPrefix` | crates/mcp-tools/src/flatten.rs:94-125 | a capped drive gives exactly the first nodes of the walk, is cut iff the walk has that many, and fails iff a fetch fails before them |
| `Flattening.CappedIsPrefix` | crates/mcp-tools/src/flatten.rs:69-129 | with all fetches good: the first `max_count` nodes of the depth-limited preorder, truncated iff it has at least that many |
| `Flattening.CapKeptIff` | crates/mcp-tools/src/flatten.rs:66-68 | the cap is kept iff it is at least 1 or nothing is emitted |
| `OutputBuffers.OutputBuffer.Append` | crates/mcp-session/src/output_buffer.rs:44-59 | entries stay the longest suffix of the appends since the last drain that fits 1 MiB, `size` is the length of their categories and texts together, the flag is set iff something was dropped |
| `OutputBuffers.OutputBuffer.Drain` | crates/mcp-session/src/output_buffer.rs:65-84 | the marker exactly when something was dropped, then what is left; the buffer is empty |
| `OutputBuffers.TotalIsLength` | crates/mcp-session/src/output_buffer.rs:47 | what the cap counts is the length of all categories and texts, one after the other |
| `OutputBuffers.LongestFitUnique` | crates/mcp-session/src/output_buffer.rs:54-58 | that suffix is unique |
| `OutputBuffers.NothingLostWithinCap` | crates/mcp-session/src/output_buffer.rs:44-84 | over any history in which no segment outgrew the cap, the drains joined with what is buffered are exactly the appends |
| `OutputBuffers.NoMarkerNothingLost` | crates/mcp-session/src/output_buffer.rs:44-84 | if no drained list begins with the marker, the drains joined with what is buffered are exactly the appends |
| `OutputBuffers.MarkerLeadsIfCut` | crates/mcp-session/src/output_buffer.rs:65-84 | a segment that fits is drained as it is; of any other the marker leads and the longest fitting suffix follows |
| `OutputBuffers.DrainExactIff` | crates/mcp-session/src/output_buffer.rs:65-84 | a drained list equals its segment iff the segment fits, or it begins with an entry equal to the marker and the rest fits |
| `OutputBuffers.MarkerMayBeOutput` | crates/mcp-session/src/output_buffer.rs:72-80 | an input for the second case: the marker followed by an entry that fills the buffer |
| `StderrBuffers.StderrBuffer.Write` | crates/lldb-backend/src/subprocess.rs:70-87 | contents stay the last N bytes of all writes, for every N |
| `StderrBuffers.WriteAllKeepsLast` | crates/lldb-backend/src/subprocess.rs:70-87 | the same for every sequence of writes |
| `StderrBuffers.ChunkingDoesNotMatter` | crates/lldb-backend/src/subprocess.rs:70-87 | two ways of cutting one stream into writes leave the same contents |
| `HexDumps.FormatHexDump` | crates/mcp-tools/src/format.rs:21-64 | the text is the rows joined by line feeds, none after the last |
| `HexDumps.RowLayout` | crates/mcp-tools/src/format.rs:27-56 | a row character by character: the address in at least eight lower-case digits, sixteen columns with a gap after the eighth, and a gutter with the byte itself iff it is printable, else a dot, and spaces past the data |
| `HexDumps.RowReadsBack` | crates/mcp-tools/src/format.rs:27-56 | a row reads back as its address and bytes and holds no line feed |
| `HexDumps.DecodeInvertsFormat` | crates/mcp-tools/src/format.rs:21-64 | for all non-empty data and 64-bit start addresses a decoder recovers both; one line per started 16 bytes, line k labelled start + 16k modulo 2^64 |

## Left out

* JSON: messages and responses are abstract values, and frame bodies are byte strings; what a body fails to decode to is not modelled.
* Error texts, argument accessors and response builders: missing or malformed arguments are `None`, errors are constructors. A failed request of a handshake is reported as the wrapped `Dap` error, as the source does, with the cause beside it instead of in its text; a resume reports `SendFailed`.
* Timeouts and the tokio runtime: waits may be cancelled at any await, lock sections are atomic, lock poisoning does not occur.
* Dropping a write half way, which can leave part of a frame on the wire; frames are written or not.
* `send_and_await_both`: the handshakes do not use it.
* What the frame-id cache is worth, `status`, `threads`, `evaluate`, `disassemble`, `list_breakpoints` and the grouping of output entries: straight-line reads.
* The panic that builds with overflow checks would raise at send 2^63: the counter wraps.
* The handshakes are step programs, not methods: their awaits interleave with everyone else, which a method body cannot express. That their instruction lists follow the source order is read off `LaunchProgram`, `ATTACH_PROGRAM` and `RESUME_PROGRAM`.
* The handler methods stand for calls run one at a time; breakpoint calls that overlap are the subject of `OverlappingBreakpoints`, which takes the two commits of a set (list and record) as one. Writes to the session that overlap a reset are the subject of `GenerationGuard`.
* `Handlers`: a pump's termination is taken as an event between calls under the live generation; stale pumps are covered by `GenerationGuard.PumpTakesEffectIff`.
* `ReadLoops.ReadLoop.Run`: the method runs the stream with no caller acting in between; interleavings are the subject of `ReadLoops.SysStepKeepsGood` and the theorems built on it.
* `Sessions.SessionManager.Pump`: the method pumps the stream with no other writer in between; interleavings are the subject of `GenerationGuard`.
* The output buffer under concurrent sessions: it has its own lock and no guard, so a pump of a reset session still appends (`crates/mcp-session/src/pump.rs:34`) and a late resume still drains; `GenerationGuard` covers the fields behind the session lock.
* An adapter that closes the stream, rejects a request or sends a stop-like event before `configurationDone`: outside the progress theorems, inside the ordering and recovery ones.
* `FlattenVariables`: the sum of named and indexed children is unbounded, so its overflow is not modelled; `to_lowercase` is an arbitrary function.
* `FlattenRecursive`: the loop body it shares with `FlattenVariables` is written once, as `EmitVariable`, and the shared result vector is threaded through as a value.
* `HexDumps.FormatHexDump`: each row is formatted into its own string before it is appended.
* Spawning the process, finding the adapter and draining its stderr; only the stderr buffer is modelled.
