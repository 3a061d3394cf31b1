/**
 * The tool handlers as session transitions, run one at a time: breakpoints
 * (`handlers/breakpoints.rs`), lifecycle (`handlers/lifecycle.rs`) and resuming
 * (`handlers/execution.rs`), against an adapter that answers as it likes.
 */
module Handlers {
  import opened Types
  import opened S = Sessions
  import OB = OutputBuffers

  /** One breakpoint of a response. */
  datatype BpResult = BpResult(id: int, line: int, verified: bool)

  /**
   * The answer to a list of breakpoints. A failed request may or may not have reached the
   * adapter: `installed` says whether the adapter took the list over all the same.
   */
  datatype Answer = Failure(installed: bool) | Results(results: seq<BpResult>)

  /** The lists the adapter took over last. */
  datatype Adapter = Adapter(files: map<string, seq<SourceBp>>, functions: seq<FunctionBp>)

  predicate Takes(answer: Answer) {
    answer.Results? || answer.installed
  }

  function InstallSource(a: Adapter, file: string, bps: seq<SourceBp>, answer: Answer): Adapter {
    if Takes(answer) then a.(files := a.files[file := bps]) else a
  }

  function InstallFunctions(a: Adapter, bps: seq<FunctionBp>, answer: Answer): Adapter {
    if Takes(answer) then a.(functions := bps) else a
  }

  /** How connecting and shaking hands went. */
  datatype Start = NoConnection | HandshakeFailed | Cancelled | Up(pid: Option<int>, outcome: StartOutcome)

  /** How the backend's resume call ended. */
  datatype Resumption = Back(outcome: StopOutcome) | SendError | TimedOut

  datatype Fault =
    | WrongState(state: State) | BadArguments | NoBackend | RequestFailed | NoBreakpoints | UnknownId
    | StartFailed | ResumeFailed | StillRunning

  datatype Reply =
    | Error(fault: Fault)
    | Pending
    | Placed(id: int, verified: bool)
    | Gone(id: int)
    | StartedIn(state: State)
    | Disconnected
    | StopReport(outcome: StopOutcome)

  /** Arguments are already read; None stands for one that is missing or malformed. */
  datatype Call =
    | SetBreakpoint(file: Option<string>, line: Option<int>, condition: string, answer: Answer)
    | SetFunction(name: Option<string>, condition: string, answer: Answer)
    | Remove(id: Option<int>, answer: Answer)
    | Launch(program: Option<string>, start: Start)
    | Attach(target: Option<string>, start: Start)
    | Disconnect
    | Resume(arguments: bool, result: Resumption)
    | PumpEnds(code: Option<int>)

  datatype World = World(session: Inner, backend: Option<Adapter>)

  function Begin(): World {
    World(Fresh(0), None)
  }

  /** The response entry for the new breakpoint: the first with the line asked for, else the last. */
  function Matched(results: seq<BpResult>, line: int): (r: BpResult)
    requires results != []
    ensures exists i :: 0 <= i < |results| && Chosen(results, line, i) && r == results[i]
  {
    if results[0].line == line || |results| == 1 then
      assert Chosen(results, line, 0);
      results[0]
    else
      var r := Matched(results[1..], line);
      assert exists i :: 0 <= i < |results| && Chosen(results, line, i) && r == results[i] by {
        var i :| 0 <= i < |results| - 1 && Chosen(results[1..], line, i) && r == results[1..][i];
        assert Chosen(results, line, i + 1);
      }
      r
  }

  /** Entry i is the first with that line, or the last when there is none. */
  predicate Chosen(results: seq<BpResult>, line: int, i: nat)
    requires i < |results|
  {
    && (results[i].line == line || i + 1 == |results|)
    && forall j | 0 <= j < i :: results[j].line != line
  }

  /** The tracked list without the entry that `info` names, and the file it belongs to. */
  function RemainingSource(s: Inner, info: BpInfo): seq<SourceBp>
    requires info.SourceInfo?
  {
    var bps := ListOf(s.sourceBps, info.file);
    Without(bps, LineIndex(bps, info.line))
  }

  function RemainingFunctions(s: Inner, info: BpInfo): seq<FunctionBp>
    requires info.FunctionInfo?
  {
    Without(s.functionBps, NameIndex(s.functionBps, info.function_))
  }

  function Settle(s: Inner, outcome: StopOutcome): Inner {
    match outcome
    case Stopped(info) => s.(state := State.Stopped, lastStopped := Some(info))
    case Exited(code) => s.(state := State.Terminated, exitCode := if code.Some? then code else s.exitCode)
    case Terminated => s.(state := State.Terminated)
  }

  /** What `launch` and `attach` store once the handshake is through. */
  function StartedSession(s: Inner, program: string, pid: Option<int>, outcome: StartOutcome): Inner {
    var t := s.(program := program, pid := if pid.Some? then pid.value else s.pid);
    match outcome
    case EntryStop(info) => t.(state := State.Stopped, lastStopped := Some(info))
    case LeftRunning => t.(state := Running)
    case EndedEarly => t.(state := State.Terminated)
  }

  /** A started session: the state the outcome calls for, the stop it brought, the program and the pid. */
  predicate Starts(before: Inner, after: Inner, program: string, pid: Option<int>, outcome: StartOutcome) {
    && (outcome.EntryStop? <==> after.state == State.Stopped)
    && (outcome.LeftRunning? <==> after.state == Running)
    && (outcome.EndedEarly? <==> after.state == State.Terminated)
    && after.lastStopped == (if outcome.EntryStop? then Some(outcome.info) else before.lastStopped)
    && after.program == program && after.pid == (if pid.Some? then pid.value else before.pid)
    && after.exitCode == before.exitCode && after.frames == before.frames && after.responses == before.responses
  }

  function ShutDown(w: World): World {
    World(w.session.Reset(), None)
  }

  // ----- each handler as a function of the world

  function SourceSet(w: World, a: Adapter, file: string, line: int, condition: string, answer: Answer): World {
    var bps := ListOf(w.session.sourceBps, file) + [SourceBp(line, condition)];
    var b := Some(InstallSource(a, file, bps, answer));
    if answer.Failure? || answer.results == [] then World(w.session, b)
    else
      var m := Matched(answer.results, line);
      World(w.session.(sourceBps := w.session.sourceBps[file := bps],
                       responses := w.session.responses[m.id := SourceInfo(m.id, file, m.line, condition, m.verified)]), b)
  }

  function FunctionSet(w: World, a: Adapter, name: string, condition: string, answer: Answer): World {
    var bps := w.session.functionBps + [FunctionBp(name, condition)];
    var b := Some(InstallFunctions(a, bps, answer));
    if answer.Failure? then World(w.session, b)
    else
      var s := w.session.(functionBps := bps);
      if answer.results == [] then World(s, b)
      else
        var m := answer.results[|answer.results| - 1];
        World(s.(responses := s.responses[m.id := FunctionInfo(m.id, name, condition, m.verified)]), b)
  }

  function Removal(w: World, a: Adapter, id: int, answer: Answer): World
    requires id in w.session.responses
  {
    var info := w.session.responses[id];
    var b := if info.FunctionInfo? then InstallFunctions(a, RemainingFunctions(w.session, info), answer)
             else InstallSource(a, info.file, RemainingSource(w.session, info), answer);
    World(if answer.Failure? then w.session else w.session.Removed(id, info), Some(b))
  }

  function LaunchTo(w: World, program: string, start: Start): World {
    match start
    case Up(pid, outcome) =>
      var a := Adapter(w.session.pendingSource, w.session.pendingFunction);
      World(StartedSession(w.session.Flushed(), program, pid, outcome), Some(a))
    case _ => ShutDown(w)
  }

  function AttachTo(w: World, target: string, start: Start): World {
    match start
    case Up(pid, outcome) =>
      var o := if outcome.EntryStop? then outcome else EndedEarly;
      World(StartedSession(w.session, target, pid, o), Some(Adapter(map[], [])))
    case _ => ShutDown(w)
  }

  function AfterSet(w: World, file: Option<string>, line: Option<int>, condition: string, answer: Answer): World {
    var s := w.session;
    if file.None? || line.None? then w
    else if s.state == Idle then
      var list := ListOf(s.pendingSource, file.value) + [SourceBp(line.value, condition)];
      World(s.(pendingSource := s.pendingSource[file.value := list]), w.backend)
    else if s.state == State.Stopped && w.backend.Some? then
      SourceSet(w, w.backend.value, file.value, line.value, condition, answer)
    else w
  }

  function AfterSetFunction(w: World, name: Option<string>, condition: string, answer: Answer): World {
    var s := w.session;
    if name.None? then w
    else if s.state == Idle then
      World(s.(pendingFunction := s.pendingFunction + [FunctionBp(name.value, condition)]), w.backend)
    else if s.state == State.Stopped && w.backend.Some? then FunctionSet(w, w.backend.value, name.value, condition, answer)
    else w
  }

  function AfterRemove(w: World, id: Option<int>, answer: Answer): World {
    if w.session.state == State.Stopped && id.Some? && id.value in w.session.responses && w.backend.Some?
    then Removal(w, w.backend.value, id.value, answer)
    else w
  }

  function AfterLaunch(w: World, program: Option<string>, start: Start): World {
    if w.session.state == Idle && program.Some? then LaunchTo(w, program.value, start) else w
  }

  function AfterAttach(w: World, target: Option<string>, start: Start): World {
    if w.session.state == Idle && target.Some? then AttachTo(w, target.value, start) else w
  }

  function AfterResume(w: World, arguments: bool, result: Resumption): World {
    if w.session.state == State.Stopped && arguments && w.backend.Some? then
      match result
      case Back(outcome) => w.(session := Settle(w.session, outcome))
      case SendError => w
      case TimedOut => w.(session := w.session.(state := Running))
    else w
  }

  function After(w: World, call: Call): World {
    match call
    case SetBreakpoint(file, line, condition, answer) => AfterSet(w, file, line, condition, answer)
    case SetFunction(name, condition, answer) => AfterSetFunction(w, name, condition, answer)
    case Remove(id, answer) => AfterRemove(w, id, answer)
    case Launch(program, start) => AfterLaunch(w, program, start)
    case Attach(target, start) => AfterAttach(w, target, start)
    case Disconnect => if w.session.state == Idle then w else ShutDown(w)
    case Resume(arguments, result) => AfterResume(w, arguments, result)
    case PumpEnds(code) =>
      if w.backend.Some? then w.(session := w.session.TerminateIf(w.session.generation, code)) else w
  }

  // ----- the handlers

  class ToolServer {
    const session: SessionManager
    var backend: Option<Adapter>

    ghost predicate Valid()
      reads this, session, session.output
    {
      session.output.Valid()
    }

    ghost function View(): World
      reads this, session
    {
      World(session.inner, backend)
    }

    constructor ()
      ensures Valid() && View() == Begin() && fresh(session) && fresh(session.output)
    {
      session := new SessionManager();
      backend := None;
    }

    method HandleSetBreakpoint(file: Option<string>, line: Option<int>, condition: string, answer: Answer) returns (r: Reply)
      modifies this, session
      ensures View() == AfterSet(old(View()), file, line, condition, answer)
      ensures var state := old(session.inner).state;
              && (state != Idle && state != State.Stopped <==> r == Error(WrongState(state)))
              && ((state == Idle || state == State.Stopped) && (file.None? || line.None?) <==> r == Error(BadArguments))
              && (state == Idle && file.Some? && line.Some? <==> r.Pending?)
              && (state == State.Stopped && file.Some? && line.Some? ==>
                    && (old(backend).None? <==> r == Error(NoBackend))
                    && (old(backend).Some? && answer.Failure? <==> r == Error(RequestFailed))
                    && (old(backend).Some? && answer == Results([]) <==> r == Error(NoBreakpoints)))
      ensures r.Error? ==> session.inner == old(session.inner)
      ensures r.Pending? ==>
                && backend == old(backend)
                && session.inner == old(session.inner).(pendingSource := session.inner.pendingSource)
                && ListOf(session.inner.pendingSource, file.value)
                   == ListOf(old(session.inner).pendingSource, file.value) + [SourceBp(line.value, condition)]
                && forall f | f != file.value :: ListOf(session.inner.pendingSource, f) == ListOf(old(session.inner).pendingSource, f)
      ensures r.Placed? ==>
                && backend.Some?
                && ListOf(session.inner.sourceBps, file.value)
                   == ListOf(old(session.inner).sourceBps, file.value) + [SourceBp(line.value, condition)]
                && ListOf(backend.value.files, file.value) == ListOf(session.inner.sourceBps, file.value)
                && backend.value.functions == old(backend).value.functions
      ensures r.Placed? ==>
                && session.inner == old(session.inner).(sourceBps := session.inner.sourceBps, responses := session.inner.responses)
                && forall f | f != file.value ::
                     && ListOf(session.inner.sourceBps, f) == ListOf(old(session.inner).sourceBps, f)
                     && ListOf(backend.value.files, f) == ListOf(old(backend).value.files, f)
      ensures r.Placed? ==>
                exists i :: 0 <= i < |answer.results| && Chosen(answer.results, line.value, i)
                  && r == Placed(answer.results[i].id, answer.results[i].verified)
                  && session.inner.responses == old(session.inner).responses[r.id :=
                       SourceInfo(r.id, file.value, answer.results[i].line, condition, r.verified)]
    {
      var state := session.inner.state;
      if state != Idle && state != State.Stopped {
        return Error(WrongState(state));
      }
      if file.None? || line.None? {
        return Error(BadArguments);
      }
      if state == Idle {
        session.AddPendingSource(file.value, line.value, condition);
        return Pending;
      }
      if backend.None? {
        return Error(NoBackend);
      }
      var bps := ListOf(session.inner.sourceBps, file.value) + [SourceBp(line.value, condition)];
      backend := Some(InstallSource(backend.value, file.value, bps, answer));
      if answer.Failure? {
        return Error(RequestFailed);
      }
      if answer.results == [] {
        return Error(NoBreakpoints);
      }
      var m := Matched(answer.results, line.value);
      session.AddSourceBreakpoint(file.value, line.value, condition);
      session.AddBreakpointResponse(SourceInfo(m.id, file.value, m.line, condition, m.verified));
      r := Placed(m.id, m.verified);
    }

    method HandleSetFunctionBreakpoint(name: Option<string>, condition: string, answer: Answer) returns (r: Reply)
      modifies this, session
      ensures View() == AfterSetFunction(old(View()), name, condition, answer)
      ensures var state := old(session.inner).state;
              && (state != Idle && state != State.Stopped <==> r == Error(WrongState(state)))
              && ((state == Idle || state == State.Stopped) && name.None? <==> r == Error(BadArguments))
              && (state == Idle && name.Some? <==> r.Pending?)
              && (state == State.Stopped && name.Some? ==>
                    && (old(backend).None? <==> r == Error(NoBackend))
                    && (old(backend).Some? && answer.Failure? <==> r == Error(RequestFailed))
                    && (old(backend).Some? && answer.Results? <==> r.Placed?))
      ensures r.Error? ==> session.inner == old(session.inner)
      ensures r.Pending? ==>
                && backend == old(backend)
                && session.inner == old(session.inner).(pendingFunction :=
                     old(session.inner).pendingFunction + [FunctionBp(name.value, condition)])
      ensures r.Placed? ==>
                && backend.Some? && backend.value.files == old(backend).value.files
                && backend.value.functions == session.inner.functionBps
                && session.inner.functionBps == old(session.inner).functionBps + [FunctionBp(name.value, condition)]
                && session.inner == old(session.inner).(functionBps := session.inner.functionBps, responses := session.inner.responses)
      ensures r.Placed? && answer.results == [] ==> r == Placed(0, false) && session.inner.responses == old(session.inner).responses
      ensures r.Placed? && answer.results != [] ==>
                var last := answer.results[|answer.results| - 1];
                && r == Placed(last.id, last.verified)
                && session.inner.responses ==
                     old(session.inner).responses[last.id := FunctionInfo(last.id, name.value, condition, last.verified)]
    {
      var state := session.inner.state;
      if state != Idle && state != State.Stopped {
        return Error(WrongState(state));
      }
      if name.None? {
        return Error(BadArguments);
      }
      if state == Idle {
        session.AddPendingFunction(name.value, condition);
        return Pending;
      }
      if backend.None? {
        return Error(NoBackend);
      }
      var bps := session.inner.functionBps + [FunctionBp(name.value, condition)];
      backend := Some(InstallFunctions(backend.value, bps, answer));
      if answer.Failure? {
        return Error(RequestFailed);
      }
      session.AddFunctionBreakpoint(name.value, condition);
      if answer.results == [] {
        return Placed(0, false);
      }
      var m := answer.results[|answer.results| - 1];
      session.AddBreakpointResponse(FunctionInfo(m.id, name.value, condition, m.verified));
      r := Placed(m.id, m.verified);
    }

    method HandleRemoveBreakpoint(id: Option<int>, answer: Answer) returns (r: Reply)
      modifies this, session
      ensures View() == AfterRemove(old(View()), id, answer)
      ensures var state := old(session.inner).state;
              && (state != State.Stopped <==> r == Error(WrongState(state)))
              && (state == State.Stopped && id.None? <==> r == Error(BadArguments))
              && (state == State.Stopped && id.Some? ==>
                    && (id.value !in old(session.inner).responses <==> r == Error(UnknownId))
                    && (id.value in old(session.inner).responses ==>
                          && (old(backend).None? <==> r == Error(NoBackend))
                          && (old(backend).Some? && answer.Failure? <==> r == Error(RequestFailed))
                          && (old(backend).Some? && answer.Results? <==> r == Gone(id.value))))
      ensures r.Error? ==> session.inner == old(session.inner)
      ensures r.Gone? ==>
                && backend.Some? && session.inner.responses == old(session.inner).responses - {r.id}
                && session.inner == old(session.inner).(sourceBps := session.inner.sourceBps,
                     functionBps := session.inner.functionBps, responses := session.inner.responses)
      ensures r.Gone? && old(session.inner).responses[r.id].SourceInfo? ==>
                var file, line := old(session.inner).responses[r.id].file, old(session.inner).responses[r.id].line;
                var bps := ListOf(old(session.inner).sourceBps, file);
                && ListOf(session.inner.sourceBps, file) == Without(bps, LineIndex(bps, line))
                && ListOf(backend.value.files, file) == Without(bps, LineIndex(bps, line))
                && (forall f | f != file ::
                      && ListOf(session.inner.sourceBps, f) == ListOf(old(session.inner).sourceBps, f)
                      && ListOf(backend.value.files, f) == ListOf(old(backend).value.files, f))
                && session.inner.functionBps == old(session.inner).functionBps
                && backend.value.functions == old(backend).value.functions
      ensures r.Gone? && old(session.inner).responses[r.id].FunctionInfo? ==>
                var bps := old(session.inner).functionBps;
                var rest := Without(bps, NameIndex(bps, old(session.inner).responses[r.id].function_));
                && session.inner.functionBps == rest && backend.value.functions == rest
                && session.inner.sourceBps == old(session.inner).sourceBps && backend.value.files == old(backend).value.files
    {
      if session.inner.state != State.Stopped {
        return Error(WrongState(session.inner.state));
      }
      if id.None? {
        return Error(BadArguments);
      }
      if id.value !in session.inner.responses {
        return Error(UnknownId);
      }
      var info := session.inner.responses[id.value];
      if backend.None? {
        return Error(NoBackend);
      }
      if info.FunctionInfo? {
        backend := Some(InstallFunctions(backend.value, RemainingFunctions(session.inner, info), answer));
      } else {
        backend := Some(InstallSource(backend.value, info.file, RemainingSource(session.inner, info), answer));
      }
      if answer.Failure? {
        return Error(RequestFailed);
      }
      var found := session.RemoveBreakpointById(id.value);
      r := Gone(id.value);
    }

    /** What the handshake sends to the new adapter: each file's list, then the functions if there are any. */
    method SendConfiguration(source: map<string, seq<SourceBp>>, functions: seq<FunctionBp>, order: seq<string>)
      returns (a: Adapter)
      requires forall f :: f in order <==> f in source
      ensures a == Adapter(source, functions)
    {
      a := Adapter(map[], []);
      for i := 0 to |order|
        invariant a.functions == []
        invariant forall f | f in a.files :: f in source && a.files[f] == source[f]
        invariant forall j | 0 <= j < i :: order[j] in a.files
      {
        a := a.(files := a.files[order[i] := source[order[i]]]);
      }
      assert a.files == source;
      if functions != [] {
        a := a.(functions := functions);
      }
    }

    /** The writes that end a successful launch or attach. */
    method StoreStart(program: string, pid: Option<int>, outcome: StartOutcome)
      modifies session
      ensures session.inner == StartedSession(old(session.inner), program, pid, outcome)
    {
      session.SetProcess(program, pid);
      match outcome {
        case EntryStop(info) =>
          session.SetState(State.Stopped);
          session.SetLastStopped(info);
        case LeftRunning => session.SetState(Running);
        case EndedEarly => session.SetState(State.Terminated);
      }
    }

    /** `cleanup_after_cancel`, and what a failed connection does. */
    method CleanUp()
      requires Valid()
      modifies this, session, session.output
      ensures Valid() && session.inner == old(session.inner).Reset() && backend == None
    {
      backend := None;
      session.Reset();
    }

    /** `launch`; `order` is the order in which the pending map gives its files. */
    method HandleLaunch(program: Option<string>, start: Start, order: seq<string>) returns (r: Reply)
      requires Valid()
      requires forall f :: f in order <==> f in session.inner.pendingSource
      requires forall i, j | 0 <= i < j < |order| :: order[i] != order[j]
      modifies this, session, session.output
      ensures Valid() && View() == AfterLaunch(old(View()), program, start)
      ensures r.StartedIn? <==> old(session.inner).state == Idle && program.Some? && start.Up?
      ensures r.StartedIn? ==>
                && r.state == session.inner.state != Idle && session.inner.generation == old(session.inner).generation
                && backend == Some(Adapter(old(session.inner).pendingSource, old(session.inner).pendingFunction))
                && session.inner.pendingSource == map[] && session.inner.pendingFunction == []
                && session.inner.functionBps == old(session.inner).functionBps + old(session.inner).pendingFunction
                && forall f :: ListOf(session.inner.sourceBps, f)
                               == ListOf(old(session.inner).sourceBps, f) + ListOf(old(session.inner).pendingSource, f)
      ensures r.StartedIn? ==> Starts(old(session.inner), session.inner, program.value, start.pid, start.outcome)
      ensures old(session.inner).state != Idle <==> r == Error(WrongState(old(session.inner).state))
      ensures old(session.inner).state == Idle && program.None? <==> r == Error(BadArguments)
      ensures r == Error(StartFailed) ==> backend == None && session.inner == old(session.inner).Reset()
      ensures r.Error? && r.fault != StartFailed ==> backend == old(backend) && session.inner == old(session.inner)
    {
      if session.inner.state != Idle {
        return Error(WrongState(session.inner.state));
      }
      if program.None? {
        return Error(BadArguments);
      }
      session.SetState(Configuring);
      var source, functions := session.FlushPending(order);
      if !start.Up? {
        CleanUp();
        ResetForgets(old(session.inner));
        return Error(StartFailed);
      }
      var a := SendConfiguration(source, functions, order);
      backend := Some(a);
      StoreStart(program.value, start.pid, start.outcome);
      StartForgetsState(old(session.inner), program.value, start.pid, start.outcome);
      LaunchedSession(old(session.inner), program.value, start.pid, start.outcome);
      r := StartedIn(session.inner.state);
    }

    /** `attach`: as `launch`, but nothing pending is flushed. */
    method HandleAttach(target: Option<string>, start: Start) returns (r: Reply)
      requires Valid()
      modifies this, session, session.output
      ensures Valid() && View() == AfterAttach(old(View()), target, start)
      ensures r.StartedIn? <==> old(session.inner).state == Idle && target.Some? && start.Up?
      ensures r.StartedIn? ==>
                && r.state == session.inner.state && (r.state == State.Stopped || r.state == State.Terminated)
                && session.inner.generation == old(session.inner).generation && backend == Some(Adapter(map[], []))
                && session.inner.pendingSource == old(session.inner).pendingSource
                && session.inner.sourceBps == old(session.inner).sourceBps
                && session.inner.pendingFunction == old(session.inner).pendingFunction
                && session.inner.functionBps == old(session.inner).functionBps
      ensures r.StartedIn? ==>
                Starts(old(session.inner), session.inner, target.value, start.pid,
                       if start.outcome.EntryStop? then start.outcome else EndedEarly)
      ensures old(session.inner).state != Idle <==> r == Error(WrongState(old(session.inner).state))
      ensures old(session.inner).state == Idle && target.None? <==> r == Error(BadArguments)
      ensures r == Error(StartFailed) ==> backend == None && session.inner == old(session.inner).Reset()
      ensures r.Error? && r.fault != StartFailed ==> backend == old(backend) && session.inner == old(session.inner)
    {
      if session.inner.state != Idle {
        return Error(WrongState(session.inner.state));
      }
      if target.None? {
        return Error(BadArguments);
      }
      session.SetState(Configuring);
      ResetForgets(old(session.inner));
      if !start.Up? {
        CleanUp();
        return Error(StartFailed);
      }
      backend := Some(Adapter(map[], []));
      var outcome := if start.outcome.EntryStop? then start.outcome else EndedEarly;
      StoreStart(target.value, start.pid, outcome);
      StartForgetsState(old(session.inner), target.value, start.pid, outcome);
      r := StartedIn(session.inner.state);
    }

    method HandleDisconnect() returns (r: Reply)
      requires Valid()
      modifies this, session, session.output
      ensures Valid() && View() == After(old(View()), Call.Disconnect)
      ensures r.Disconnected? <==> old(session.inner).state != Idle
      ensures r.Error? <==> r == Error(WrongState(Idle))
      ensures r.Disconnected? ==>
                && backend == None && session.inner == old(session.inner).Reset()
                && session.output.history == []
      ensures r.Error? ==> backend == old(backend) && session.inner == old(session.inner)
    {
      if session.inner.state == Idle {
        return Error(WrongState(Idle));
      }
      backend := None;
      session.Reset();
      r := Disconnected;
    }

    /** `handle_stop_result`: the session moves on only under the generation the call started in. */
    method HandleStopResult(outcome: StopOutcome, generation: nat) returns (entries: seq<OB.Entry>)
      requires Valid()
      modifies session, session.output
      ensures Valid()
      ensures session.inner ==
                if generation == old(session.inner).generation then Settle(old(session.inner), outcome) else old(session.inner)
      ensures outcome.Terminated? ==> entries == [] && session.output.history == old(session.output.history)
      ensures !outcome.Terminated? ==> OB.Drains(entries, old(session.output.history)) && session.output.history == []
    {
      ghost var settled :=
        if generation == session.inner.generation then Settle(session.inner, outcome) else session.inner;
      entries := [];
      match outcome {
        case Stopped(info) =>
          var applied := session.SetStateIfGeneration(generation, State.Stopped);
          if applied {
            session.SetLastStopped(info);
          }
          assert session.inner == settled;
          entries := session.output.Drain();
        case Exited(code) =>
          var _ := session.TerminateIfGeneration(generation, code);
          assert session.inner == settled;
          entries := session.output.Drain();
        case Terminated =>
          var _ := session.SetStateIfGeneration(generation, State.Terminated);
      }
    }

    /** `continue` and the steps; `entries` is the output that goes into the reply. */
    method HandleResume(arguments: bool, result: Resumption) returns (r: Reply, entries: seq<OB.Entry>)
      requires Valid()
      modifies session, session.output
      ensures Valid() && View() == AfterResume(old(View()), arguments, result)
      ensures r.StopReport? <==> old(session.inner).state == State.Stopped && arguments && backend.Some? && result.Back?
      ensures old(session.inner).state != State.Stopped <==> r == Error(WrongState(old(session.inner).state))
      ensures old(session.inner).state == State.Stopped && !arguments <==> r == Error(BadArguments)
      ensures old(session.inner).state == State.Stopped && arguments ==>
                && (backend.None? <==> r == Error(NoBackend))
                && (backend.Some? && result.TimedOut? <==> r == Error(StillRunning))
                && (backend.Some? && result.SendError? <==> r == Error(ResumeFailed))
      ensures r.StopReport? ==> result == Back(r.outcome)
      ensures r.StopReport? && r.outcome.Stopped? ==>
                session.inner == old(session.inner).(lastStopped := Some(r.outcome.info))
      ensures r.StopReport? && !r.outcome.Stopped? ==>
                && session.inner.state == State.Terminated && session.inner.lastStopped == old(session.inner).lastStopped
                && (session.inner.exitCode == if r.outcome.Exited? && r.outcome.code.Some? then r.outcome.code
                                              else old(session.inner).exitCode)
      ensures r.Error? ==> session.inner == if r.fault == StillRunning then old(session.inner).(state := Running) else old(session.inner)
      ensures r.StopReport? && !r.outcome.Terminated? ==> OB.Drains(entries, old(session.output.history))
      ensures r.Error? ==> session.output.history == old(session.output.history)
    {
      entries := [];
      if session.inner.state != State.Stopped {
        return Error(WrongState(session.inner.state)), entries;
      }
      if !arguments {
        return Error(BadArguments), entries;
      }
      if backend.None? {
        return Error(NoBackend), entries;
      }
      var generation := session.inner.generation;
      session.SetState(Running);
      RunningIsInterim(old(session.inner));
      match result {
        case TimedOut => r := Error(StillRunning);
        case SendError =>
          session.SetState(State.Stopped);
          r := Error(ResumeFailed);
        case Back(outcome) =>
          SettleForgets(old(session.inner), outcome);
          entries := HandleStopResult(outcome, generation);
          r := StopReport(outcome);
      }
    }
  }

  lemma RunningIsInterim(s: Inner)
    requires s.state == State.Stopped
    ensures s.(state := Running).(state := State.Stopped) == s
  {
  }

  lemma SettleForgets(s: Inner, outcome: StopOutcome)
    ensures Settle(s.(state := Running), outcome) == Settle(s, outcome)
  {
  }

  /** A reset session remembers nothing of the start that failed. */
  lemma ResetForgets(s: Inner)
    ensures s.(state := Configuring).Reset() == s.Reset()
    ensures s.(state := Configuring).Flushed().Reset() == s.Reset()
  {
  }

  /** A launched session has everything that was pending, and is in the generation it was launched in. */
  lemma LaunchedSession(s: Inner, program: string, pid: Option<int>, outcome: StartOutcome)
    ensures var t := StartedSession(s.Flushed(), program, pid, outcome);
            && Starts(s, t, program, pid, outcome)
            && (forall f :: ListOf(t.sourceBps, f) == ListOf(s.sourceBps, f) + ListOf(s.pendingSource, f))
            && t.state != Idle && t.generation == s.generation && t.pendingSource == map[] && t.pendingFunction == []
            && t.functionBps == s.functionBps + s.pendingFunction
  {
  }

  /** The interim state `configuring` is overwritten, whatever the start led to. */
  lemma StartForgetsState(s: Inner, program: string, pid: Option<int>, outcome: StartOutcome)
    ensures StartedSession(s.(state := Configuring), program, pid, outcome) == StartedSession(s, program, pid, outcome)
    ensures StartedSession(s.(state := Configuring).Flushed(), program, pid, outcome)
         == StartedSession(s.Flushed(), program, pid, outcome)
  {
  }
}
